# gpu-leaf power-limit controller, modelled in Dafny

gpu-leaf watches an NVIDIA GPU through `nvidia-smi` and keeps adjusting its
power limit. The utilization threshold decides which way: below it, the limit
goes down; at or above it, the limit goes up. This project models the
package `internal/gpu` and proves properties of that model. The package has
three parts:

- **`Leaf`** is the control law. The base factor is a tenth of the configured
  ceiling. Under the threshold, the limit drops by the base factor times
  `(100 - utilization) / 100`. At or above the threshold, it rises by the base
  factor times `utilization / 100`. The result is clamped to `[min, max]`,
  with the minimum checked first, and then rounded by `int(x + 0.5)`. If the
  rounded value equals the current limit, nothing happens. Otherwise the change
  is either only logged (dry-run) or sent to `setPowerLimit`. A failure of
  `setPowerLimit` is logged and nothing more.
- **`WatchStats`** reads the telemetry lines. Each line with exactly four
  comma-separated fields becomes a `GPUStats` sample and is handed to a
  callback. All other lines are skipped. The model runs it with `Leaf` as
  the callback.
- **`GetPowerInfo`** reads the capability probe's output. It trims the output,
  splits it on commas and requires exactly four fields. The device is
  manageable when the first field is "Supported" or "Enabled", ignoring case.

Files:

- `wrappers.dfy` (module `Wrappers`): the `Option` and `Result` types.
- `text.dfy` (module `Text`): the Go library string functions that the package
  calls, `strings.Split`, `strings.TrimSpace` and `strings.EqualFold`, plus
  `strings.Join` as the inverse of `Split`. Strings are sequences of Unicode
  code points.
- `gpu.dfy` (module `Gpu`): the three records, the control law (`Decide` and
  the `Leaf` method), the probe parser (`GetPowerInfo`) and the telemetry loop
  (`WatchStats`).

Modelling choices:

- `float64` values are exact `real`s.
- Go's float-to-int conversion truncates toward zero. It is modelled as
  `Trunc`.
- `utils.ParseFloat` is the function parameter `parseFloat`. Nothing is
  assumed about it.
- The reply of `setPowerLimit` is the parameter `setPowerLimit(k, limit, index)`.
  It is the answer to the k-th call, so every pattern of successes and
  failures is covered.
- `WatchStats` returns a trace with one `Tick` per handled sample, together
  with the list of `setPowerLimit` calls. These replace the log lines.

Two properties one might expect do not hold:

- A zero ceiling does not always mean "no change". The step is zero, but the
  clamp forces the value to 0 W. So the limit is changed to 0 W unless it is
  already 0 W (`ZeroCeiling`).
- The setpoint is not always within `[min, max]`. Rounding happens after
  clamping, so a fractional bound can be overshot (`FractionalCeilingOvershoots`).
  Negative bounds can be left too, because the conversion to int truncates
  toward zero: with both bounds at -3 W the setpoint is -2 W
  (`NegativeBoundsLeft`). With whole-number, non-negative bounds, the setpoint
  stays in range (`TargetInBounds`, `CallsWithinBounds`).

The model follows the code in both cases.

## Model

| member | source | states |
|---|---|---|
| `Text.Split` | internal/gpu/main.go:48 | there is one field more than there are separators, and no field contains the separator |
| `Text.JoinSplit` | internal/gpu/main.go:48 | joining the fields of a split with the separator gives back the original string |
| `Text.SplitJoin` | internal/gpu/main.go:89 | splitting separator-free fields after joining them gives back exactly those fields |
| `Text.TrimSpace` | internal/gpu/main.go:46 | the result is a slice of the input, only white space is cut off, and the result neither starts nor ends with white space |
| `Text.EqualFold` | internal/gpu/main.go:54 | two strings are equal ignoring case exactly when their case-folded forms are equal |
| `Text.TrimSpaceDropsNewline` | internal/gpu/main.go:46 | the newline the vendor tool prints after its output is trimmed away |
| `Gpu.Trunc` | internal/gpu/main.go:93 | a float-to-int conversion truncates toward zero, for both signs |
| `Gpu.TruncOfInt` | internal/gpu/main.go:93 | an integer utilization survives the float conversion and the truncation unchanged |
| `Gpu.TruncMonotone` | internal/gpu/main.go:136 | truncation is monotone |
| `Gpu.RoundHalfUp` | internal/gpu/main.go:136 | the target is a whole number; for values from -0.5 up it is floor(v + 0.5), within half a watt of v |
| `Gpu.RoundHalfUpOfWhole` | internal/gpu/main.go:136 | a whole, non-negative limit is unchanged by the rounding |
| `Gpu.RoundHalfUpMonotone` | internal/gpu/main.go:136 | rounding is monotone |
| `Gpu.Clamp` | internal/gpu/main.go:129-134 | the result lies in [min, max] when min <= max; it is max when min > max, because the max check runs last; a value already in range is unchanged |
| `Gpu.ClampMonotone` | internal/gpu/main.go:129-134 | clamping is monotone |
| `Gpu.Decide` | internal/gpu/main.go:115-145 | no change exactly when the rounded target equals the current limit; otherwise the decision carries that whole-number target; it is a dry-run log only in dry-run mode and an actuation only outside it |
| `Gpu.RawTarget` | internal/gpu/main.go:116-127 | the two tests are complementary, so the initial zero never survives: under the threshold the value is the limit minus a tenth of the ceiling times (100 - utilization)/100; at or above it, the limit plus a tenth of the ceiling times utilization/100 |
| `Gpu.RawTargetStep` | internal/gpu/main.go:116-127 | for utilization in 0..100 and a non-negative ceiling, the raw value goes down under the threshold and up at or above it, by at most a tenth of the ceiling |
| `Gpu.RawTargetMonotone` | internal/gpu/main.go:116-127 | with the limit fixed, higher utilization never gives a lower raw value, including across the threshold |
| `Gpu.ThresholdCrossingRaises` | internal/gpu/main.go:120-127 | going from below the threshold to at or above it strictly raises the raw value when the ceiling is positive |
| `Gpu.Target` | internal/gpu/main.go:129-136 | the setpoint is a whole number of watts; with ordered bounds from -0.5 W up, it lies within half a watt of [min, max] |
| `Gpu.TargetMonotone` | internal/gpu/main.go:116-136 | higher utilization never gives a lower final target |
| `Gpu.TargetInBounds` | internal/gpu/main.go:129-136 | with whole, non-negative bounds and min <= max, the target lies in [min, max] |
| `Gpu.FractionalCeilingOvershoots` | internal/gpu/main.go:129-136 | with a 300.6 W ceiling, 99% utilization at 300 W gives a call to set 301 W, above the ceiling |
| `Gpu.NegativeBoundsLeft` | internal/gpu/main.go:129-136 | with both bounds at -3 W, 50% utilization at -3 W gives a setpoint of -2 W, outside the bounds, because int(-2.5) truncates toward zero |
| `Gpu.ZeroCeiling` | internal/gpu/main.go:116-140 | with a zero ceiling and a non-negative floor the target is 0 W, and the decision is "no change" exactly when the limit is already 0 W |
| `Gpu.TargetDirection` | internal/gpu/main.go:116-136 | for a whole current limit within non-negative bounds, the target is at or above the limit at or above the threshold, and at or below it under the threshold |
| `Gpu.SettledAtCeiling` | internal/gpu/main.go:125-140 | at a whole ceiling, with utilization at or above the threshold, the decision is "no change" |
| `Gpu.SettledAtFloor` | internal/gpu/main.go:120-140 | at a whole floor, with utilization under the threshold, the decision is "no change" |
| `Gpu.DecideIgnoresTelemetry` | internal/gpu/main.go:115-140 | the decision depends only on the configuration, the utilization and the current limit, not on temperature or power draw |
| `Gpu.ReferenceScenarios` | internal/gpu/main.go:115-145 | for a 100..300 W range and a 95% threshold: 50% at 250 W sets 235 W; 99% sets 280 W; 95% (the tie) sets 279 W; 0% at 100 W makes no change; in dry-run the 235 W change is only logged |
| `Gpu.Report` | internal/gpu/main.go:138-151 | the outcome records the decision; it is a failure exactly when an actuation got a failed reply |
| `Gpu.Leaf` | internal/gpu/main.go:115-152 | setPowerLimit is called at most once, only outside dry-run and only for a changed target, with that target and the GPU index; the outcome is "no change" exactly when the target equals the current limit; a failed call is recorded, not propagated |
| `Gpu.GetPowerInfo` | internal/gpu/main.go:40-66 | a command error is passed on; otherwise the result is an error exactly when the trimmed output does not have exactly three commas, so not four fields; an Ok value holds the manageability of the first comma-free field, then the parsed second, third and fourth fields as minimum, maximum and default limits |
| `Gpu.IsManageable` | internal/gpu/main.go:54 | the device is manageable exactly when the trimmed, case-folded state is "supported" or "enabled" |
| `Gpu.UpperCaseStateAccepted` | internal/gpu/main.go:54 | "ENABLED" is accepted |
| `Gpu.DisabledStateRefused` | internal/gpu/main.go:54 | "Disabled" is refused |
| `Gpu.GetPowerInfoOfLine` | internal/gpu/main.go:46-67 | a well-formed probe line with a trailing newline parses to the state's manageability and then the min, max and default limits, in that order, whenever the parser reads the three written numbers back |
| `Gpu.SampleOf` | internal/gpu/main.go:89-101 | a line yields a sample exactly when it has three commas, so exactly four fields; the sample holds the parsed first, second, third (truncated) and fourth fields as temperature, power draw, utilization and power limit |
| `Gpu.Samples` | internal/gpu/main.go:87-106 | every sample handed on is the sample of one of the lines |
| `Gpu.SamplesAppend` | internal/gpu/main.go:87-106 | lines are handled one by one, in order: the samples of a concatenation are the samples of each part, one after the other |
| `Gpu.MalformedLineSkipped` | internal/gpu/main.go:89-90 | a line without exactly four fields adds no sample and so no call of Leaf |
| `Gpu.SamplesOfWellFormed` | internal/gpu/main.go:87-105 | when every line has four fields, each line gives its own sample, in line order |
| `Gpu.SampleOfLine` | internal/gpu/main.go:89-101 | reading back the telemetry line of a sample gives that sample, whenever the parser reads the four written numbers back: the fields are temperature, power draw, utilization and power limit, in that order |
| `Gpu.WatchStats` | internal/gpu/main.go:87-106 | the trace and the list of setPowerLimit calls are those of the well-formed lines' samples handed to Leaf in line order; malformed lines are skipped |
| `Gpu.TicksOnePerSample` | internal/gpu/main.go:87-106 | every sample gets exactly one record, in order, that matches its decision, whatever setPowerLimit replies |
| `Gpu.DryRunNeverActuates` | internal/gpu/main.go:142-145 | in dry-run mode setPowerLimit is never called |
| `Gpu.CallsMatchTicks` | internal/gpu/main.go:147-151 | setPowerLimit is called exactly once for each record of an applied or failed change, in order, with that target and the configured GPU index |
| `Gpu.CallsWithinBounds` | internal/gpu/main.go:136-147 | with whole, non-negative, ordered bounds, every limit sent to the device is a whole number of watts within the bounds |

## Left out

- Running `nvidia-smi` is left out: `exec.Command`, `CommandContext`, `StdoutPipe`, `Start`, `Wait`, `Output` and `Run`. The probe command's result enters `GetPowerInfo` as a `Result<string>`. The telemetry lines enter `WatchStats` as a sequence. The errors of starting and waiting for the telemetry command are not modelled.
- Cancellation through `context.Context` is not modelled, because it is operating-system and concurrency behaviour.
- `bufio.Scanner` is not modelled: it cuts lines, strips `\r` and has a 64 KiB line limit. The lines are given already split.
- `WatchStats` takes any callback. The model fixes the callback to `Leaf`, because the trace it returns is that of `Leaf`. No file of the repository calls `WatchStats` with `Leaf`: cmd/gpuleaf/main.go runs its own copy of the loop.
- Logger output is not modelled. Outcomes are recorded as `Tick` records instead.
- IEEE-754 rounding is not modelled, because the arithmetic is exact. When a float is out of the range of int, Go's conversion still succeeds but its value is implementation-dependent; that case is not modelled either.
- `setPowerLimit` is not modelled beyond its reply: converting the target to int and formatting it as the command argument are left out. The target is already whole whenever it is called.
- `utils.ParseFloat` and `utils.ParseInt` wrap Go's `strconv` and are not modelled. `ParseFloat` is an arbitrary function parameter, and its warning log is not modelled.
- `Text.EqualFold` does not model full Unicode case folding. It folds ASCII letters, U+017F and U+212A. That is exact whenever one side is ASCII, which covers both comparisons the package makes.
- Invalid UTF-8 is not modelled, because strings are sequences of code points.
- internal/utils/main.go `CreateLogger` is log-file and stdout setup, and is not part of this model.
- cmd/gpuleaf/main.go (flags, ticker, log file, its own copy of the line loop) and the root main.go prototype are not part of this model. The ceiling choice at cmd/gpuleaf/main.go:33-39 appears only as the caller-supplied `maxPowerLimit`.
