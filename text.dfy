/** The string operations of Go's standard library that the GPU package relies on
    (strings.Split, strings.TrimSpace, strings.EqualFold), over strings seen as
    sequences of Unicode code points. */
module Text {

  /** Go's unicode.IsSpace: the Latin-1 white space characters and the other
      characters with the Unicode White_Space property. */
  predicate IsSpace(c: char) {
    || c == ' ' || c == '\t' || c == '\n' || c == '\U{000B}' || c == '\U{000C}' || c == '\r'
    || c == '\U{0085}' || c == '\U{00A0}' || c == '\U{1680}'
    || ('\U{2000}' <= c <= '\U{200A}')
    || c == '\U{2028}' || c == '\U{2029}' || c == '\U{202F}' || c == '\U{205F}' || c == '\U{3000}'
  }

  ghost predicate AllSpace(s: string) {
    forall k :: 0 <= k < |s| ==> IsSpace(s[k])
  }

  /** The number of occurrences of `c` in `s` (strings.Count for a one-character separator). */
  function Count(s: string, c: char): (n: nat)
    ensures n <= |s|
    ensures n == 0 <==> c !in s
  {
    if s == [] then 0
    else (if s[0] == c then 1 else 0) + Count(s[1..], c)
  }

  // ---------------------------------------------------------------------------
  // strings.Split and its inverse strings.Join

  /** strings.Split(s, sep) for a one-character separator: the maximal pieces of `s`
      between occurrences of `sep`. The empty string gives one empty field. */
  function Split(s: string, sep: char): (fields: seq<string>)
    ensures |fields| == Count(s, sep) + 1
    ensures forall k :: 0 <= k < |fields| ==> sep !in fields[k]
    decreases |s|
  {
    if s == [] then [[]]
    else
      var rest := Split(s[1..], sep);
      if s[0] == sep then [[]] + rest
      else [[s[0]] + rest[0]] + rest[1..]
  }

  /** strings.Join(fields, sep). */
  function Join(fields: seq<string>, sep: char): (s: string)
  {
    if fields == [] then []
    else if |fields| == 1 then fields[0]
    else fields[0] + [sep] + Join(fields[1..], sep)
  }

  /** Joining the pieces of a split gives back the original string. */
  lemma {:induction false} JoinSplit(s: string, sep: char)
    ensures Join(Split(s, sep), sep) == s
    decreases |s|
  {
    if s != [] {
      var rest := Split(s[1..], sep);
      JoinSplit(s[1..], sep);
      assert s == [s[0]] + s[1..];
      SplitCons(s[0], s[1..], sep);
      if s[0] == sep {
        JoinPrependField([], rest, sep);
      } else {
        JoinExtendFirst(s[0], rest, sep);
      }
    }
  }

  lemma JoinPrependField(f: string, fields: seq<string>, sep: char)
    requires |fields| >= 1
    ensures Join([f] + fields, sep) == f + [sep] + Join(fields, sep)
  {
    assert ([f] + fields)[1..] == fields;
  }

  lemma JoinExtendFirst(c: char, fields: seq<string>, sep: char)
    requires |fields| >= 1
    ensures Join([[c] + fields[0]] + fields[1..], sep) == [c] + Join(fields, sep)
  {
    if |fields| > 1 {
      JoinPrependField([c] + fields[0], fields[1..], sep);
      JoinPrependField(fields[0], fields[1..], sep);
      assert [fields[0]] + fields[1..] == fields;
    }
  }

  /** A string without the separator splits into itself alone. */
  lemma {:induction false} SplitWithoutSeparator(s: string, sep: char)
    requires sep !in s
    ensures Split(s, sep) == [s]
    decreases |s|
  {
    if s != [] {
      SplitWithoutSeparator(s[1..], sep);
      assert [s[0]] + s[1..] == s;
    }
  }

  /** One step of Split: the first character either ends the first field or joins it. */
  lemma SplitCons(c: char, t: string, sep: char)
    ensures Split([c] + t, sep) ==
      if c == sep then [[]] + Split(t, sep) else [[c] + Split(t, sep)[0]] + Split(t, sep)[1..]
  {
    assert ([c] + t)[0] == c && ([c] + t)[1..] == t;
  }

  /** A separator after a separator-free prefix ends the first field there. */
  lemma {:induction false} SplitAtFirstSeparator(a: string, b: string, sep: char)
    requires sep !in a
    ensures Split(a + [sep] + b, sep) == [a] + Split(b, sep)
    decreases |a|
  {
    if a == [] {
      assert a + [sep] + b == [sep] + b;
      SplitCons(sep, b, sep);
    } else {
      var t := a[1..] + [sep] + b;
      assert a + [sep] + b == [a[0]] + t;
      SplitAtFirstSeparator(a[1..], b, sep);
      SplitCons(a[0], t, sep);
      assert [a[0]] + a[1..] == a;
    }
  }

  /** Splitting a join of separator-free fields gives back the fields. */
  lemma {:induction false} SplitJoin(fields: seq<string>, sep: char)
    requires |fields| >= 1
    requires forall k :: 0 <= k < |fields| ==> sep !in fields[k]
    ensures Split(Join(fields, sep), sep) == fields
  {
    if |fields| == 1 {
      SplitWithoutSeparator(fields[0], sep);
    } else {
      SplitJoin(fields[1..], sep);
      SplitAtFirstSeparator(fields[0], Join(fields[1..], sep), sep);
      assert [fields[0]] + fields[1..] == fields;
    }
  }

  // ---------------------------------------------------------------------------
  // strings.TrimSpace

  /** The number of white space characters `s` starts with. */
  function LeadingSpaces(s: string): (n: nat)
    ensures n <= |s| && AllSpace(s[..n])
    ensures n < |s| ==> !IsSpace(s[n])
    decreases |s|
  {
    if s != [] && IsSpace(s[0]) then
      var m := LeadingSpaces(s[1..]);
      AllSpaceCons(s[0], s[1..][..m]);
      assert s[..m + 1] == [s[0]] + s[1..][..m];
      m + 1
    else 0
  }

  /** The number of white space characters `s` ends with. */
  function TrailingSpaces(s: string): (n: nat)
    ensures n <= |s| && AllSpace(s[|s| - n..])
    ensures n < |s| ==> !IsSpace(s[|s| - n - 1])
    decreases |s|
  {
    if s != [] && IsSpace(s[|s| - 1]) then
      var t := s[..|s| - 1];
      var m := TrailingSpaces(t);
      AllSpaceSnoc(t[|t| - m..], s[|s| - 1]);
      assert s[|s| - (m + 1)..] == t[|t| - m..] + [s[|s| - 1]];
      assert m + 1 < |s| ==> s[|s| - (m + 1) - 1] == t[|t| - m - 1];
      m + 1
    else 0
  }

  lemma AllSpaceCons(c: char, s: string)
    requires IsSpace(c) && AllSpace(s)
    ensures AllSpace([c] + s)
  {
  }

  lemma AllSpaceSnoc(s: string, c: char)
    requires AllSpace(s) && IsSpace(c)
    ensures AllSpace(s + [c])
  {
  }

  /** strings.TrimSpace: `s` with its leading and trailing white space removed.
      The result is a slice of `s`, all that is cut off is white space, and the
      result neither starts nor ends with white space. */
  function TrimSpace(s: string): (r: string)
    ensures r == [] || (!IsSpace(r[0]) && !IsSpace(r[|r| - 1]))
    ensures exists i, j :: 0 <= i <= j <= |s| && r == s[i..j] && AllSpace(s[..i]) && AllSpace(s[j..])
  {
    var i := LeadingSpaces(s);
    var n := TrailingSpaces(s[i..]);
    assert s[i..][|s| - i - n..] == s[|s| - n..];
    assert i < |s| ==> s[i..][0] == s[i] && n < |s| - i;
    s[i..|s| - n]
  }

  /** A string that neither starts nor ends with white space is its own trim. */
  lemma {:induction false} TrimSpaceOfTrimmed(s: string)
    requires s == [] || (!IsSpace(s[0]) && !IsSpace(s[|s| - 1]))
    ensures TrimSpace(s) == s
  {
  }

  /** A trailing newline, as the vendor tool prints one, is trimmed away. */
  lemma {:induction false} TrimSpaceDropsNewline(s: string)
    requires s != [] && !IsSpace(s[0]) && !IsSpace(s[|s| - 1])
    ensures TrimSpace(s + "\n") == s
  {
    var t := s + "\n";
    assert LeadingSpaces(t) == 0;
    assert t[..|t| - 1] == s;
    assert TrailingSpaces(t) == 1;
  }

  // ---------------------------------------------------------------------------
  // strings.EqualFold

  /** The representative of `c` under Unicode simple case folding, for every
      character whose folding orbit holds an ASCII letter: the ASCII letters,
      U+017F (long s, folds with s) and U+212A (Kelvin sign, folds with k). */
  function Fold(c: char): (f: char)
    ensures 'A' <= c <= 'Z' ==> f as int == c as int + 32
    ensures !('A' <= c <= 'Z') && c != '\U{017F}' && c != '\U{212A}' ==> f == c
    ensures !('A' <= f <= 'Z')
  {
    if 'A' <= c <= 'Z' then (c as int + 32) as char
    else if c == '\U{017F}' then 's'
    else if c == '\U{212A}' then 'k'
    else c
  }

  /** `s` with every character folded: a lower-case key for comparisons that ignore case. */
  function FoldAll(s: string): (r: string)
    ensures |r| == |s|
    ensures forall k :: 0 <= k < |s| ==> r[k] == Fold(s[k])
  {
    seq(|s|, k requires 0 <= k < |s| => Fold(s[k]))
  }

  /** strings.EqualFold: equal under simple case folding, character by
      character; that is, the folded strings are equal. */
  function EqualFold(s: string, t: string): (b: bool)
    ensures b <==> FoldAll(s) == FoldAll(t)
  {
    assert FoldAll(s) == FoldAll(t) ==>
      forall k :: 0 <= k < |s| ==> Fold(s[k]) == FoldAll(s)[k] == FoldAll(t)[k] == Fold(t[k]);
    |s| == |t| && forall k :: 0 <= k < |s| ==> Fold(s[k]) == Fold(t[k])
  }
}
