/** The GPU package of gpu-leaf: the capability probe's parser (GetPowerInfo),
    the telemetry loop (WatchStats) and the power-limit control law (Leaf).
    Go float64 values are exact reals here; the vendor tool's output arrives as
    strings, utils.ParseFloat is the parameter `parseFloat`, and the reply of the
    power-limit command is the parameter `setPowerLimit`. */
module Gpu {
  import opened Wrappers
  import opened Text

  /** What the capability probe reports about the device. */
  datatype GpuPowerInfo = GpuPowerInfo(
    isPowerManageable: bool,
    minPowerLimit: real,
    maxPowerLimit: real,
    defaultPowerLimit: real)

  /** The controller's configuration; `maxPowerLimit` is the effective ceiling the
      caller chose (the device's default or, when overclocking, its maximum). */
  datatype GpuConfig = GpuConfig(
    minPowerLimit: real,
    maxPowerLimit: real,
    threshold: int,
    gpuIndex: int,
    dryRun: bool)

  /** One telemetry sample. */
  datatype GpuStats = GpuStats(
    temperature: real,
    powerDraw: real,
    utilization: int,
    powerLimit: real)

  predicate IsWhole(x: real) {
    x.Floor as real == x
  }

  // ---------------------------------------------------------------------------
  // Numeric conversions

  /** Go's conversion of a float64 to int: truncation toward zero. */
  function Trunc(x: real): (n: int)
    ensures x >= 0.0 ==> n as real <= x < n as real + 1.0
    ensures x < 0.0 ==> n as real - 1.0 < x <= n as real
  {
    if x >= 0.0 then x.Floor else -((-x).Floor)
  }

  /** Truncation never decreases when its argument grows. */
  lemma TruncMonotone(x: real, y: real)
    requires x <= y
    ensures Trunc(x) <= Trunc(y)
  {
  }

  /** Converting an integer to float64 and back gives the integer. */
  lemma TruncOfInt(n: int)
    ensures Trunc(n as real) == n
  {
    if n < 0 {
      FloorIs(-(n as real), -n);
    } else {
      FloorIs(n as real, n);
    }
  }

  /** `float64(int(v + 0.5))`: round half up for non-negative values; a
      truncation toward zero otherwise. */
  function RoundHalfUp(v: real): (r: real)
    ensures IsWhole(r)
    ensures v >= -0.5 ==> r == (v + 0.5).Floor as real
    ensures v >= -0.5 ==> v - 0.5 < r <= v + 0.5
  {
    Trunc(v + 0.5) as real
  }

  /** A whole number of watts that is not negative is left as it is by the rounding. */
  lemma RoundHalfUpOfWhole(v: real)
    requires IsWhole(v) && v >= 0.0
    ensures RoundHalfUp(v) == v
  {
    FloorIs(v + 0.5, v.Floor);
  }

  lemma FloorIs(x: real, n: int)
    requires n as real <= x < n as real + 1.0
    ensures x.Floor == n
  {
  }

  // ---------------------------------------------------------------------------
  // Leaf: the control law

  /** The unclamped setpoint, as Leaf computes it: the value starts at zero and
      two separate tests may overwrite it, the first when utilization is under
      the threshold and the second when it is at or above it. The tests are
      complementary, so exactly one of them sets the value and the initial zero
      never survives: under the threshold the limit drops by the base factor (a
      tenth of the ceiling) scaled by how far utilization is below 100%, at or
      above it the limit rises by the base factor scaled by the utilization. */
  function RawTarget(cfg: GpuConfig, stats: GpuStats): (r: real)
    ensures stats.utilization < cfg.threshold ==>
      r == stats.powerLimit - cfg.maxPowerLimit / 10.0 * ((100.0 - stats.utilization as real) / 100.0)
    ensures stats.utilization >= cfg.threshold ==>
      r == stats.powerLimit + cfg.maxPowerLimit / 10.0 * (stats.utilization as real / 100.0)
  {
    var baseFactor := cfg.maxPowerLimit / 10.0;
    var initial := 0.0;
    var afterFirst := if stats.utilization < cfg.threshold
      then stats.powerLimit - baseFactor * ((100.0 - stats.utilization as real) / 100.0)
      else initial;
    if stats.utilization >= cfg.threshold
      then stats.powerLimit + baseFactor * (stats.utilization as real / 100.0)
      else afterFirst
  }

  /** The lower bound is applied first and the upper bound last, so with
      crossed bounds the upper one wins. */
  function Clamp(v: real, lo: real, hi: real): (r: real)
    ensures lo <= hi ==> lo <= r <= hi
    ensures lo > hi ==> r == hi
    ensures lo <= v <= hi ==> r == v
    ensures v < lo && lo <= hi ==> r == lo
    ensures v > hi ==> r == hi
  {
    var low := if v < lo then lo else v;
    if low > hi then hi else low
  }

  /** The setpoint Leaf arrives at: clamped into the configured range, then
      rounded. It is a whole number of watts, and because the rounding comes
      last it may leave the range, but by at most half a watt. */
  function Target(cfg: GpuConfig, stats: GpuStats): (r: real)
    ensures IsWhole(r)
    ensures -0.5 <= cfg.minPowerLimit <= cfg.maxPowerLimit ==>
      cfg.minPowerLimit - 0.5 < r <= cfg.maxPowerLimit + 0.5
  {
    RoundHalfUp(Clamp(RawTarget(cfg, stats), cfg.minPowerLimit, cfg.maxPowerLimit))
  }

  /** What Leaf does with a sample. */
  datatype Decision =
    | Unchanged              // the rounded target is the current limit
    | DryRun(target: real)   // the change is only logged
    | Apply(target: real)    // setPowerLimit is called with the target

  /** The decision of Leaf for one sample; it depends on nothing but the
      configuration and this sample. */
  function Decide(cfg: GpuConfig, stats: GpuStats): (d: Decision)
    ensures d.Unchanged? <==> Target(cfg, stats) == stats.powerLimit
    ensures !d.Unchanged? ==> d.target == Target(cfg, stats) && IsWhole(d.target)
    ensures d.DryRun? ==> cfg.dryRun
    ensures d.Apply? ==> !cfg.dryRun
  {
    var target := Target(cfg, stats);
    if stats.powerLimit == target then Unchanged
    else if cfg.dryRun then DryRun(target)
    else Apply(target)
  }

  /** Direction and size of the raw step: never more than a tenth of the ceiling,
      downward under the threshold and upward at or above it. */
  lemma RawTargetStep(cfg: GpuConfig, stats: GpuStats)
    requires 0 <= stats.utilization <= 100 && cfg.maxPowerLimit >= 0.0
    ensures stats.utilization < cfg.threshold ==>
      stats.powerLimit - cfg.maxPowerLimit / 10.0 <= RawTarget(cfg, stats) <= stats.powerLimit
    ensures stats.utilization >= cfg.threshold ==>
      stats.powerLimit <= RawTarget(cfg, stats) <= stats.powerLimit + cfg.maxPowerLimit / 10.0
  {
    var b := cfg.maxPowerLimit / 10.0;
    var u := stats.utilization as real;
    if stats.utilization < cfg.threshold {
      ScaledStep(stats.powerLimit, b, (100.0 - u) / 100.0, -1.0, RawTarget(cfg, stats));
    } else {
      ScaledStep(stats.powerLimit, b, u / 100.0, 1.0, RawTarget(cfg, stats));
    }
  }

  /** A step of `b` scaled by `f`, taken downward (`dir` = -1) or upward (`dir` = 1). */
  lemma ScaledStep(pl: real, b: real, f: real, dir: real, r: real)
    requires b >= 0.0 && 0.0 <= f <= 1.0 && (dir == -1.0 || dir == 1.0)
    requires r == pl + dir * (b * f)
    ensures dir == -1.0 ==> pl - b <= r <= pl
    ensures dir == 1.0 ==> pl <= r <= pl + b
  {
    assert 0.0 <= b * f <= b * 1.0;
  }

  /** With the limit and the configuration fixed, a higher utilization never
      gives a lower raw setpoint, within a branch or across the threshold. */
  lemma RawTargetMonotone(cfg: GpuConfig, s1: GpuStats, s2: GpuStats)
    requires s1.powerLimit == s2.powerLimit && cfg.maxPowerLimit >= 0.0
    requires 0 <= s1.utilization <= s2.utilization <= 100
    ensures RawTarget(cfg, s1) <= RawTarget(cfg, s2)
  {
    var b := cfg.maxPowerLimit / 10.0;
    var u1, u2 := s1.utilization as real, s2.utilization as real;
    if s2.utilization < cfg.threshold {
      DownStepMonotone(s1.powerLimit, b, u1, u2, RawTarget(cfg, s1), RawTarget(cfg, s2));
    } else if s1.utilization >= cfg.threshold {
      UpStepMonotone(s1.powerLimit, b, u1, u2, RawTarget(cfg, s1), RawTarget(cfg, s2));
    } else {
      RawTargetStep(cfg, s1);
      RawTargetStep(cfg, s2);
    }
  }

  lemma ScaleMonotone(b: real, x: real, y: real)
    requires b >= 0.0 && x <= y
    ensures b * x <= b * y
  {
    assert b * y - b * x == b * (y - x);
  }

  lemma DownStepMonotone(pl: real, b: real, u1: real, u2: real, r1: real, r2: real)
    requires b >= 0.0 && u1 <= u2
    requires r1 == pl - b * ((100.0 - u1) / 100.0) && r2 == pl - b * ((100.0 - u2) / 100.0)
    ensures r1 <= r2
  {
    ScaleMonotone(b, (100.0 - u2) / 100.0, (100.0 - u1) / 100.0);
  }

  lemma UpStepMonotone(pl: real, b: real, u1: real, u2: real, r1: real, r2: real)
    requires b >= 0.0 && u1 <= u2
    requires r1 == pl + b * (u1 / 100.0) && r2 == pl + b * (u2 / 100.0)
    ensures r1 <= r2
  {
    ScaleMonotone(b, u1 / 100.0, u2 / 100.0);
  }

  /** Crossing the threshold from below strictly raises the raw setpoint when the
      ceiling is positive. */
  lemma ThresholdCrossingRaises(cfg: GpuConfig, below: GpuStats, above: GpuStats)
    requires below.powerLimit == above.powerLimit && cfg.maxPowerLimit > 0.0
    requires 0 <= below.utilization < cfg.threshold <= above.utilization <= 100
    ensures RawTarget(cfg, below) < RawTarget(cfg, above)
  {
    RawTargetStep(cfg, below);
    var b := cfg.maxPowerLimit / 10.0;
    var f := above.utilization as real / 100.0;
    assert f > 0.0;
    assert b * f > 0.0;
  }

  lemma ClampMonotone(v1: real, v2: real, lo: real, hi: real)
    requires v1 <= v2
    ensures Clamp(v1, lo, hi) <= Clamp(v2, lo, hi)
  {
  }

  lemma RoundHalfUpMonotone(v1: real, v2: real)
    requires v1 <= v2
    ensures RoundHalfUp(v1) <= RoundHalfUp(v2)
  {
    TruncMonotone(v1 + 0.5, v2 + 0.5);
  }

  /** A higher utilization never gives a lower final setpoint. */
  lemma {:induction false} TargetMonotone(cfg: GpuConfig, s1: GpuStats, s2: GpuStats)
    requires s1.powerLimit == s2.powerLimit && cfg.maxPowerLimit >= 0.0
    requires 0 <= s1.utilization <= s2.utilization <= 100
    ensures Target(cfg, s1) <= Target(cfg, s2)
  {
    RawTargetMonotone(cfg, s1, s2);
    ClampMonotone(RawTarget(cfg, s1), RawTarget(cfg, s2), cfg.minPowerLimit, cfg.maxPowerLimit);
    RoundHalfUpMonotone(
      Clamp(RawTarget(cfg, s1), cfg.minPowerLimit, cfg.maxPowerLimit),
      Clamp(RawTarget(cfg, s2), cfg.minPowerLimit, cfg.maxPowerLimit));
  }

  /** With whole, non-negative, ordered bounds the setpoint stays within them. */
  lemma TargetInBounds(cfg: GpuConfig, stats: GpuStats)
    requires IsWhole(cfg.minPowerLimit) && IsWhole(cfg.maxPowerLimit)
    requires 0.0 <= cfg.minPowerLimit <= cfg.maxPowerLimit
    ensures cfg.minPowerLimit <= Target(cfg, stats) <= cfg.maxPowerLimit
  {
    var v := Clamp(RawTarget(cfg, stats), cfg.minPowerLimit, cfg.maxPowerLimit);
    var n := (v + 0.5).Floor;
    assert cfg.minPowerLimit.Floor <= n <= cfg.maxPowerLimit.Floor;
  }

  /** The source rounds after clamping, so a fractional ceiling can be overshot:
      here the setpoint is 301 W under a 300.6 W ceiling. */
  lemma FractionalCeilingOvershoots()
    ensures var cfg := GpuConfig(100.0, 300.6, 95, 0, false);
      Decide(cfg, GpuStats(60.0, 280.0, 99, 300.0)) == Apply(301.0) && 301.0 > cfg.maxPowerLimit
  {
    var cfg := GpuConfig(100.0, 300.6, 95, 0, false);
    var stats := GpuStats(60.0, 280.0, 99, 300.0);
    assert RawTarget(cfg, stats) > 300.6;
    assert (300.6 + 0.5).Floor == 301;
  }

  /** Negative bounds can be left as well, because the conversion to int
      truncates toward zero: with both bounds at -3 W the setpoint is -2 W. */
  lemma NegativeBoundsLeft()
    ensures Target(GpuConfig(-3.0, -3.0, 95, 0, false), GpuStats(0.0, 0.0, 50, -3.0)) == -2.0
  {
    var cfg := GpuConfig(-3.0, -3.0, 95, 0, false);
    var stats := GpuStats(0.0, 0.0, 50, -3.0);
    assert Clamp(RawTarget(cfg, stats), -3.0, -3.0) == -3.0;
    assert Trunc(-2.5) == -2;
  }

  /** A zero ceiling makes the step zero, but the clamp still forces the limit to
      0 W: the decision is "no change" only when the limit already is 0 W. */
  lemma ZeroCeiling(cfg: GpuConfig, stats: GpuStats)
    requires cfg.maxPowerLimit == 0.0 && cfg.minPowerLimit >= 0.0
    ensures Target(cfg, stats) == 0.0
    ensures Decide(cfg, stats).Unchanged? <==> stats.powerLimit == 0.0
    ensures stats.powerLimit != 0.0 && !cfg.dryRun ==> Decide(cfg, stats) == Apply(0.0)
  {
    assert Clamp(RawTarget(cfg, stats), cfg.minPowerLimit, 0.0) == 0.0;
    assert (0.0 + 0.5).Floor == 0;
  }

  /** Where the clamp, the rounding and the current limit meet, the decision
      points the same way as the raw step: up at or above the threshold and down
      below it, for a whole current limit inside non-negative bounds. */
  lemma TargetDirection(cfg: GpuConfig, stats: GpuStats)
    requires 0 <= stats.utilization <= 100 && cfg.maxPowerLimit >= 0.0
    requires IsWhole(stats.powerLimit)
    requires 0.0 <= cfg.minPowerLimit <= stats.powerLimit <= cfg.maxPowerLimit
    ensures stats.utilization >= cfg.threshold ==> Target(cfg, stats) >= stats.powerLimit
    ensures stats.utilization < cfg.threshold ==> Target(cfg, stats) <= stats.powerLimit
  {
    var pl := stats.powerLimit;
    var raw := RawTarget(cfg, stats);
    RawTargetStep(cfg, stats);
    RoundHalfUpOfWhole(pl);
    assert Clamp(pl, cfg.minPowerLimit, cfg.maxPowerLimit) == pl;
    if stats.utilization >= cfg.threshold {
      ClampMonotone(pl, raw, cfg.minPowerLimit, cfg.maxPowerLimit);
      RoundHalfUpMonotone(pl, Clamp(raw, cfg.minPowerLimit, cfg.maxPowerLimit));
    } else {
      ClampMonotone(raw, pl, cfg.minPowerLimit, cfg.maxPowerLimit);
      RoundHalfUpMonotone(Clamp(raw, cfg.minPowerLimit, cfg.maxPowerLimit), pl);
    }
  }

  /** At a whole ceiling with utilization at or above the threshold the
      controller has converged: nothing is logged or set. */
  lemma SettledAtCeiling(cfg: GpuConfig, stats: GpuStats)
    requires 0 <= stats.utilization && cfg.threshold <= stats.utilization
    requires IsWhole(cfg.maxPowerLimit) && 0.0 <= cfg.minPowerLimit <= cfg.maxPowerLimit
    requires stats.powerLimit == cfg.maxPowerLimit
    ensures Decide(cfg, stats) == Unchanged
  {
    var b := cfg.maxPowerLimit / 10.0;
    assert b * (stats.utilization as real / 100.0) >= 0.0;
    RoundHalfUpOfWhole(cfg.maxPowerLimit);
  }

  /** At a whole floor with utilization under the threshold the controller has
      converged as well. */
  lemma SettledAtFloor(cfg: GpuConfig, stats: GpuStats)
    requires 0 <= stats.utilization <= 100 && stats.utilization < cfg.threshold
    requires IsWhole(cfg.minPowerLimit) && 0.0 <= cfg.minPowerLimit <= cfg.maxPowerLimit
    requires stats.powerLimit == cfg.minPowerLimit
    ensures Decide(cfg, stats) == Unchanged
  {
    RawTargetStep(cfg, stats);
    RoundHalfUpOfWhole(cfg.minPowerLimit);
  }

  /** Temperature and power draw are logged but play no part in the decision. */
  lemma DecideIgnoresTelemetry(cfg: GpuConfig, s1: GpuStats, s2: GpuStats)
    requires s1.utilization == s2.utilization && s1.powerLimit == s2.powerLimit
    ensures Decide(cfg, s1) == Decide(cfg, s2)
  {
    assert RawTarget(cfg, s1) == RawTarget(cfg, s2);
    assert Target(cfg, s1) == Target(cfg, s2);
  }

  /** Worked examples: a 100..300 W range with the default threshold of 95%. */
  lemma ReferenceScenarios()
    ensures var cfg := GpuConfig(100.0, 300.0, 95, 0, false);
      && Decide(cfg, GpuStats(60.0, 200.0, 50, 250.0)) == Apply(235.0)
      && Decide(cfg, GpuStats(60.0, 200.0, 99, 250.0)) == Apply(280.0)
      && Decide(cfg, GpuStats(60.0, 200.0, 95, 250.0)) == Apply(279.0)
      && Decide(cfg, GpuStats(60.0, 90.0, 0, 100.0)) == Unchanged
      && Decide(cfg.(dryRun := true), GpuStats(60.0, 200.0, 50, 250.0)) == DryRun(235.0)
  {
    assert (235.0 + 0.5).Floor == 235;
    assert (279.7 + 0.5).Floor == 280;
    assert (278.5 + 0.5).Floor == 279;
    assert (100.0 + 0.5).Floor == 100;
  }

  // ---------------------------------------------------------------------------
  // Leaf: the effect of a decision

  /** The record of one sample's handling, in place of the log lines. */
  datatype Outcome =
    | NoChange
    | DryRunLogged(target: real)
    | Applied(target: real)
    | ApplyFailed(target: real)

  /** One invocation of setPowerLimit. */
  datatype PowerLimitCall = PowerLimitCall(limit: real, index: int)

  /** The outcome recorded for a decision, given the reply of setPowerLimit
      when it was called. */
  function Report(d: Decision, reply: bool): (o: Outcome)
    ensures Records(o, d)
    ensures o.ApplyFailed? <==> d.Apply? && !reply
  {
    match d
    case Unchanged => NoChange
    case DryRun(t) => DryRunLogged(t)
    case Apply(t) => if reply then Applied(t) else ApplyFailed(t)
  }

  /** Leaf: decides, and calls setPowerLimit at most once, only outside dry-run
      and only for a changed target. `callsSoFar` numbers the call for the
      reply oracle. A failed call is recorded, never propagated. */
  method Leaf(cfg: GpuConfig, stats: GpuStats, setPowerLimit: (nat, real, int) -> bool, callsSoFar: nat)
    returns (outcome: Outcome, call: Option<PowerLimitCall>)
    ensures call.Some? <==> Decide(cfg, stats).Apply?
    ensures call.Some? ==> call.value == PowerLimitCall(Target(cfg, stats), cfg.gpuIndex)
    ensures cfg.dryRun ==> call.None?
    ensures outcome == NoChange <==> Target(cfg, stats) == stats.powerLimit
    ensures outcome == Report(Decide(cfg, stats),
      call.Some? && setPowerLimit(callsSoFar, call.value.limit, call.value.index))
  {
    var d := Decide(cfg, stats);
    match d {
      case Unchanged =>
        outcome, call := NoChange, None;
      case DryRun(t) =>
        outcome, call := DryRunLogged(t), None;
      case Apply(t) =>
        var ok := setPowerLimit(callsSoFar, t, cfg.gpuIndex);
        call := Some(PowerLimitCall(t, cfg.gpuIndex));
        outcome := if ok then Applied(t) else ApplyFailed(t);
    }
  }

  // ---------------------------------------------------------------------------
  // GetPowerInfo: parsing the capability probe's output

  /** The management state "Supported" or "Enabled", ignoring case and
      surrounding white space: the folded, trimmed state is "supported" or
      "enabled". */
  function IsManageable(state: string): (b: bool)
    ensures b <==> FoldAll(TrimSpace(state)) == "supported" || FoldAll(TrimSpace(state)) == "enabled"
  {
    var t := TrimSpace(state);
    FoldedStates();
    EqualFold(t, "Supported") || EqualFold(t, "Enabled")
  }

  /** `text` consists of the four comma-free fields `a`, `b`, `c` and `d`, in
      that order, separated by commas. */
  ghost predicate FourFields(text: string, a: string, b: string, c: string, d: string) {
    ',' !in a && ',' !in b && ',' !in c && ',' !in d && text == Join([a, b, c, d], ',')
  }

  lemma FourFieldsOfSplit(text: string)
    requires Count(text, ',') == 3
    ensures var f := Split(text, ',');
      FourFields(text, f[0], f[1], f[2], f[3])
  {
    var f := Split(text, ',');
    JoinSplit(text, ',');
    assert f == [f[0], f[1], f[2], f[3]];
  }

  /** The output of the probe is trimmed, split on commas and must have exactly
      four fields: the management state, then the minimum, maximum and default
      limits. `output` is the probe command's output or its error. */
  function GetPowerInfo(output: Result<string>, parseFloat: string -> real): (r: Result<GpuPowerInfo>)
    ensures output.Err? ==> r == Err(output.error)
    ensures output.Ok? ==> (r.Ok? <==> Count(TrimSpace(output.value), ',') == 3)
    ensures output.Ok? && r.Ok? ==>
      exists state, minL, maxL, defL :: FourFields(TrimSpace(output.value), state, minL, maxL, defL) &&
        r.value == GpuPowerInfo(IsManageable(state), parseFloat(minL), parseFloat(maxL), parseFloat(defL))
  {
    match output
    case Err(e) => Err(e)
    case Ok(stdout) =>
      var fields := Split(TrimSpace(stdout), ',');
      if |fields| != 4 then Err("query gpu unexpected output format")
      else
        FourFieldsOfSplit(TrimSpace(stdout));
        assert FourFields(TrimSpace(stdout), fields[0], fields[1], fields[2], fields[3]);
        Ok(GpuPowerInfo(
          IsManageable(fields[0]),
          parseFloat(fields[1]),
          parseFloat(fields[2]),
          parseFloat(fields[3])))
  }

  lemma FoldedStates()
    ensures FoldAll("Supported") == "supported" && FoldAll("Enabled") == "enabled"
  {
  }

  /** An upper-case state is accepted. */
  lemma UpperCaseStateAccepted()
    ensures IsManageable("ENABLED")
  {
    ManageableWhenFolded("ENABLED", "enabled");
  }

  /** A disabled device is not manageable. */
  lemma DisabledStateRefused()
    ensures !IsManageable("Disabled")
  {
    TrimSpaceOfTrimmed("Disabled");
    RefusedByLength("Disabled");
  }

  /** A trimmed state of any length other than those of "supported" and
      "enabled" is refused. */
  lemma RefusedByLength(state: string)
    requires |TrimSpace(state)| != 9 && |TrimSpace(state)| != 7
    ensures !IsManageable(state)
  {
  }

  lemma ManageableWhenFolded(state: string, key: string)
    requires state != [] && !IsSpace(state[0]) && !IsSpace(state[|state| - 1])
    requires key == "supported" || key == "enabled"
    requires FoldAll(state) == key
    ensures IsManageable(state)
  {
    TrimSpaceOfTrimmed(state);
  }

  /** The probe's output line for a device: four comma-separated fields and a
      trailing newline, the numbers written by `format`. */
  function PowerInfoLine(state: string, minL: real, maxL: real, defL: real, format: real -> string): (line: string)
  {
    Join([state, format(minL), format(maxL), format(defL)], ',') + "\n"
  }

  /** Parsing a well-formed probe line gives back its fields in order: the
      manageability of the state, then the minimum, maximum and default limits,
      whenever the parser reads back the three numbers as written. */
  lemma {:induction false} GetPowerInfoOfLine(
    state: string, minL: real, maxL: real, defL: real,
    format: real -> string, parseFloat: string -> real)
    requires parseFloat(format(minL)) == minL && parseFloat(format(maxL)) == maxL
    requires parseFloat(format(defL)) == defL
    requires ',' !in format(minL) && ',' !in format(maxL) && ',' !in format(defL)
    requires ',' !in state && state != [] && !IsSpace(state[0])
    requires format(defL) != [] && !IsSpace(format(defL)[|format(defL)| - 1])
    ensures GetPowerInfo(Ok(PowerInfoLine(state, minL, maxL, defL, format)), parseFloat)
      == Ok(GpuPowerInfo(IsManageable(state), minL, maxL, defL))
  {
    var fields := [state, format(minL), format(maxL), format(defL)];
    SplitOfPrintedLine(fields);
    assert Split(TrimSpace(PowerInfoLine(state, minL, maxL, defL, format)), ',') == fields;
  }

  /** The newline-terminated, comma-joined line of four comma-free fields that
      does not start or end with white space splits back into those fields
      once trimmed. */
  lemma SplitOfPrintedLine(fields: seq<string>)
    requires |fields| == 4 && forall k :: 0 <= k < 4 ==> ',' !in fields[k]
    requires fields[0] != [] && !IsSpace(fields[0][0])
    requires fields[3] != [] && !IsSpace(fields[3][|fields[3]| - 1])
    ensures Split(TrimSpace(Join(fields, ',') + "\n"), ',') == fields
  {
    var line := Join(fields, ',');
    var d := fields[3];
    assert Join(fields[3..], ',') == d;
    assert Join(fields[2..], ',') == fields[2] + [','] + d;
    assert Join(fields[1..], ',') == fields[1] + [','] + (fields[2] + [','] + d);
    assert line == fields[0] + [','] + (fields[1] + [','] + (fields[2] + [','] + d));
    assert line[0] == fields[0][0];
    assert line[|line| - 1] == d[|d| - 1];
    TrimSpaceDropsNewline(line);
    SplitJoin(fields, ',');
  }

  // ---------------------------------------------------------------------------
  // WatchStats: from telemetry lines to samples

  /** The sample a telemetry line yields: only a line with exactly four
      comma-separated fields (temperature, power draw, utilization, power limit)
      gives one; the utilization is truncated to an integer. */
  function SampleOf(line: string, parseFloat: string -> real): (r: Option<GpuStats>)
    ensures r.Some? <==> Count(line, ',') == 3
    ensures r.Some? ==>
      exists temp, draw, util, limit :: FourFields(line, temp, draw, util, limit) &&
        r.value == GpuStats(parseFloat(temp), parseFloat(draw), Trunc(parseFloat(util)), parseFloat(limit))
  {
    var fields := Split(line, ',');
    if |fields| == 4 then
      FourFieldsOfSplit(line);
      assert FourFields(line, fields[0], fields[1], fields[2], fields[3]);
      Some(GpuStats(
        parseFloat(fields[0]),
        parseFloat(fields[1]),
        Trunc(parseFloat(fields[2])),
        parseFloat(fields[3])))
    else None
  }

  /** The samples handed to the callback, in line order. Every sample is the
      sample of one of the lines: nothing is handed on that no line gave. */
  function Samples(lines: seq<string>, parseFloat: string -> real): (r: seq<GpuStats>)
    ensures forall s :: s in r ==> exists line :: line in lines && SampleOf(line, parseFloat) == Some(s)
  {
    if lines == [] then []
    else
      var prefix := lines[..|lines| - 1];
      var last := SampleOf(lines[|lines| - 1], parseFloat);
      var r := Samples(prefix, parseFloat) + (if last.Some? then [last.value] else []);
      assert forall line :: line in prefix ==> line in lines;
      r
  }

  /** Lines are handled one at a time: the samples of a concatenation are the
      samples of each part, in order. */
  lemma {:induction false} SamplesAppend(a: seq<string>, b: seq<string>, parseFloat: string -> real)
    ensures Samples(a + b, parseFloat) == Samples(a, parseFloat) + Samples(b, parseFloat)
    decreases |b|
  {
    if b != [] {
      var init, last := b[..|b| - 1], b[|b| - 1];
      assert b == init + [last];
      assert a + b == (a + init) + [last];
      SamplesAppend(a, init, parseFloat);
      SamplesSnoc(a + init, last, parseFloat);
      SamplesSnoc(init, last, parseFloat);
    } else {
      assert a + b == a;
    }
  }

  /** A line without exactly four fields is skipped: it adds no sample. */
  lemma MalformedLineSkipped(lines: seq<string>, line: string, parseFloat: string -> real)
    requires Count(line, ',') != 3
    ensures Samples(lines + [line], parseFloat) == Samples(lines, parseFloat)
  {
    SamplesSnoc(lines, line, parseFloat);
  }

  /** When every line is well formed, each yields its own sample, in order. */
  lemma {:induction false} SamplesOfWellFormed(lines: seq<string>, parseFloat: string -> real)
    requires forall k :: 0 <= k < |lines| ==> Count(lines[k], ',') == 3
    ensures |Samples(lines, parseFloat)| == |lines|
    ensures forall k :: 0 <= k < |lines| ==>
      Samples(lines, parseFloat)[k] == SampleOf(lines[k], parseFloat).value
  {
    if lines != [] {
      var prefix := lines[..|lines| - 1];
      var last := lines[|lines| - 1];
      assert lines == prefix + [last];
      SamplesOfWellFormed(prefix, parseFloat);
      SamplesSnoc(prefix, last, parseFloat);
    }
  }

  /** A telemetry line for a sample, the numbers written by `format`. */
  function StatsLine(stats: GpuStats, format: real -> string): (line: string)
  {
    Join([format(stats.temperature), format(stats.powerDraw),
          format(stats.utilization as real), format(stats.powerLimit)], ',')
  }

  /** Reading back the line of a sample gives the sample: the fields are the
      temperature, power draw, utilization and power limit, in that order,
      whenever the parser reads back the four numbers as written. */
  lemma {:induction false} SampleOfLine(stats: GpuStats, format: real -> string, parseFloat: string -> real)
    requires parseFloat(format(stats.temperature)) == stats.temperature
    requires parseFloat(format(stats.powerDraw)) == stats.powerDraw
    requires parseFloat(format(stats.utilization as real)) == stats.utilization as real
    requires parseFloat(format(stats.powerLimit)) == stats.powerLimit
    requires ',' !in format(stats.temperature) && ',' !in format(stats.powerDraw)
    requires ',' !in format(stats.utilization as real) && ',' !in format(stats.powerLimit)
    ensures SampleOf(StatsLine(stats, format), parseFloat) == Some(stats)
  {
    var fields := [format(stats.temperature), format(stats.powerDraw),
                   format(stats.utilization as real), format(stats.powerLimit)];
    SplitJoin(fields, ',');
    assert Split(StatsLine(stats, format), ',') == fields;
    TruncOfInt(stats.utilization);
  }

  // ---------------------------------------------------------------------------
  // WatchStats with Leaf as its callback: the trace of one run

  /** One handled sample. */
  datatype Tick = Tick(stats: GpuStats, outcome: Outcome)

  /** The setPowerLimit calls made for a series of samples, in order. */
  function Calls(cfg: GpuConfig, samples: seq<GpuStats>): (calls: seq<PowerLimitCall>)
  {
    if samples == [] then []
    else
      var d := Decide(cfg, samples[|samples| - 1]);
      Calls(cfg, samples[..|samples| - 1])
        + (if d.Apply? then [PowerLimitCall(d.target, cfg.gpuIndex)] else [])
  }

  /** The records of a series of samples, the k-th call to setPowerLimit getting
      the reply `setPowerLimit(k, limit, index)`. */
  function Ticks(cfg: GpuConfig, samples: seq<GpuStats>, setPowerLimit: (nat, real, int) -> bool): (ticks: seq<Tick>)
  {
    if samples == [] then []
    else
      var prefix := samples[..|samples| - 1];
      var stats := samples[|samples| - 1];
      var d := Decide(cfg, stats);
      var reply := d.Apply? && setPowerLimit(|Calls(cfg, prefix)|, d.target, cfg.gpuIndex);
      Ticks(cfg, prefix, setPowerLimit) + [Tick(stats, Report(d, reply))]
  }

  /** WatchStats with Leaf as its callback, over the lines the vendor tool
      printed: every well-formed line is handled, in order; the others are
      skipped. */
  method WatchStats(
    cfg: GpuConfig, lines: seq<string>,
    parseFloat: string -> real, setPowerLimit: (nat, real, int) -> bool)
    returns (trace: seq<Tick>, calls: seq<PowerLimitCall>)
    ensures trace == Ticks(cfg, Samples(lines, parseFloat), setPowerLimit)
    ensures calls == Calls(cfg, Samples(lines, parseFloat))
  {
    trace, calls := [], [];
    var i := 0;
    while i < |lines|
      invariant 0 <= i <= |lines|
      invariant trace == Ticks(cfg, Samples(lines[..i], parseFloat), setPowerLimit)
      invariant calls == Calls(cfg, Samples(lines[..i], parseFloat))
    {
      assert lines[..i + 1] == lines[..i] + [lines[i]];
      SamplesSnoc(lines[..i], lines[i], parseFloat);
      var fields := Split(lines[i], ',');
      if |fields| == 4 {
        var stats := GpuStats(
          parseFloat(fields[0]),
          parseFloat(fields[1]),
          Trunc(parseFloat(fields[2])),
          parseFloat(fields[3]));
        ghost var before := Samples(lines[..i], parseFloat);
        TicksSnoc(cfg, before, stats, setPowerLimit);
        CallsSnoc(cfg, before, stats);
        assert SampleOf(lines[i], parseFloat) == Some(stats);
        assert Samples(lines[..i + 1], parseFloat) == before + [stats];
        var outcome, call := Leaf(cfg, stats, setPowerLimit, |calls|);
        trace := trace + [Tick(stats, outcome)];
        if call.Some? {
          calls := calls + [call.value];
        }
      } else {
        assert Samples(lines[..i + 1], parseFloat) == Samples(lines[..i], parseFloat);
      }
      i := i + 1;
    }
    assert lines[..|lines|] == lines;
  }

  lemma SamplesSnoc(lines: seq<string>, line: string, parseFloat: string -> real)
    ensures Samples(lines + [line], parseFloat) == Samples(lines, parseFloat)
      + (if SampleOf(line, parseFloat).Some? then [SampleOf(line, parseFloat).value] else [])
  {
    assert (lines + [line])[..|lines|] == lines;
  }

  lemma CallsSnoc(cfg: GpuConfig, samples: seq<GpuStats>, stats: GpuStats)
    ensures Calls(cfg, samples + [stats]) == Calls(cfg, samples)
      + (if Decide(cfg, stats).Apply? then [PowerLimitCall(Decide(cfg, stats).target, cfg.gpuIndex)] else [])
  {
    assert (samples + [stats])[..|samples|] == samples;
  }

  lemma TicksSnoc(cfg: GpuConfig, samples: seq<GpuStats>, stats: GpuStats, setPowerLimit: (nat, real, int) -> bool)
    ensures var d := Decide(cfg, stats);
      Ticks(cfg, samples + [stats], setPowerLimit) == Ticks(cfg, samples, setPowerLimit)
        + [Tick(stats, Report(d, d.Apply? && setPowerLimit(|Calls(cfg, samples)|, d.target, cfg.gpuIndex)))]
  {
    assert (samples + [stats])[..|samples|] == samples;
  }

  /** Whether the outcome records the decision. */
  predicate Records(o: Outcome, d: Decision) {
    match d
    case Unchanged => o == NoChange
    case DryRun(t) => o == DryRunLogged(t)
    case Apply(t) => o == Applied(t) || o == ApplyFailed(t)
  }

  /** Every sample gets exactly one record, in order, whatever setPowerLimit
      replies: a failed call never stops the loop. */
  lemma {:induction false} TicksOnePerSample(cfg: GpuConfig, samples: seq<GpuStats>, setPowerLimit: (nat, real, int) -> bool)
    ensures |Ticks(cfg, samples, setPowerLimit)| == |samples|
    ensures forall k :: 0 <= k < |samples| ==>
      Ticks(cfg, samples, setPowerLimit)[k].stats == samples[k] &&
      Records(Ticks(cfg, samples, setPowerLimit)[k].outcome, Decide(cfg, samples[k]))
  {
    if samples != [] {
      TicksOnePerSample(cfg, samples[..|samples| - 1], setPowerLimit);
    }
  }

  /** In dry-run mode setPowerLimit is never called. */
  lemma {:induction false} DryRunNeverActuates(cfg: GpuConfig, samples: seq<GpuStats>)
    requires cfg.dryRun
    ensures Calls(cfg, samples) == []
  {
    if samples != [] {
      DryRunNeverActuates(cfg, samples[..|samples| - 1]);
    }
  }

  /** The targets of the actuated records, in order. */
  function ActuatedTargets(ticks: seq<Tick>): (targets: seq<real>)
  {
    if ticks == [] then []
    else
      var o := ticks[|ticks| - 1].outcome;
      ActuatedTargets(ticks[..|ticks| - 1])
        + (if o.Applied? || o.ApplyFailed? then [o.target] else [])
  }

  /** setPowerLimit is called exactly once for every record that says it was,
      with that record's target and the configured GPU index. */
  lemma {:induction false} CallsMatchTicks(cfg: GpuConfig, samples: seq<GpuStats>, setPowerLimit: (nat, real, int) -> bool)
    ensures |Calls(cfg, samples)| == |ActuatedTargets(Ticks(cfg, samples, setPowerLimit))|
    ensures forall k :: 0 <= k < |Calls(cfg, samples)| ==>
      Calls(cfg, samples)[k] == PowerLimitCall(ActuatedTargets(Ticks(cfg, samples, setPowerLimit))[k], cfg.gpuIndex)
  {
    if samples != [] {
      var prefix := samples[..|samples| - 1];
      CallsMatchTicks(cfg, prefix, setPowerLimit);
      var ticks := Ticks(cfg, samples, setPowerLimit);
      assert ticks[..|ticks| - 1] == Ticks(cfg, prefix, setPowerLimit);
    }
  }

  /** With whole, non-negative, ordered bounds every limit sent to the device is
      a whole number of watts within the bounds. */
  lemma {:induction false} CallsWithinBounds(cfg: GpuConfig, samples: seq<GpuStats>)
    requires IsWhole(cfg.minPowerLimit) && IsWhole(cfg.maxPowerLimit)
    requires 0.0 <= cfg.minPowerLimit <= cfg.maxPowerLimit
    ensures forall c :: c in Calls(cfg, samples) ==>
      IsWhole(c.limit) && cfg.minPowerLimit <= c.limit <= cfg.maxPowerLimit && c.index == cfg.gpuIndex
  {
    if samples != [] {
      CallsWithinBounds(cfg, samples[..|samples| - 1]);
      TargetInBounds(cfg, samples[|samples| - 1]);
    }
  }
}
