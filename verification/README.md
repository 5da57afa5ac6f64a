# LKHZ in Dafny

A model of `LKHZ`, the Python class that estimates the tick rate (HZ) of a running Linux kernel and converts raw `jiffies` values into timestamps.

The estimator polls two things together: the uptime, and the timer listing that holds the raw `jiffies` counter. It corrects the counter for its start, which is 300 seconds' worth of ticks below zero, and for one 32-bit wrap. It then divides by the time since boot. It appends each rate to a list, keeps the last 100 entries and takes their average. From the second sample on it then re-appends the previous minimum and maximum to that list and takes the new extremes over it, so the extremes are sticky. The re-appended extremes stay in the list, so later averages take them in along with the rates (`AverageTakesInExtremes`). When the uptime jumps by more than a second (a suspend and resume), it re-reads the first CPU's boot-time clock offset.

The conversion undoes the same bias and wrap, this time with the estimated USER_HZ. It divides by CONFIG_HZ and adds the boot time read from the kernel's status file.

Five modules:

- `Errors` (errors.dfy): `Option`, `Result` and the Python exceptions the code can raise.
  - `ValueError` and `IndexError` come from `int()` and list indexing.
  - `ZeroDivisionError` comes from a zero time since boot or a zero CONFIG_HZ.
  - `AttributeError` means there is no counter or no rate yet.
  - `TypeError` comes from arithmetic on a CONFIG_HZ that was never found.
  - `UnboundLocalError` means there is no `btime` line.
- `Text` (text.dfy): `split(sep)`, `strip()`, `int()` on decimal text and list indexing, with their round trips.
- `Stats` (stats.dfy): `sum`, mean, `min`, `max` and the tail slice `s[-n:]`.
- `ProcFiles` (procfiles.dfy): the line scans over the kernel's pseudo-files. Each scan is a loop, proved against a definition by first or last matching line. The scans are:
  - `CONFIG_HZ=`;
  - the boot-time clock offset, a scanner with three states;
  - `jiffies:`;
  - `btime`.
- `Lkhz` (lkhz.dfy): the estimator and the conversion.
  - `StepSpec` is one estimation step as a function on an `Estimator` value. It returns the exception raised, if any, together with the state the fields are left in.
  - The class `LKHZ` holds the same fields and updates them in place. Its methods are proved equal to the functions.
  - The lemmas state the window, the extremes, the recalibration and the rate.

Where the code does not do what its comments and annotations suggest, the model follows the code:

- `user_hz` is written `int(self.HZ+2 // 50*50)`. Python's precedence makes `2 // 50*50` equal 0, so the result is HZ truncated toward zero. It is not rounded to a multiple of 50, and there is no +2 margin, though the comment at lkhz.py:46-47 promises one (`UserHzOf`, `UserHzNotRoundedTo50`).
- The `CONFIG_HZ=` scan is annotated `-> int` (lkhz.py:26) but returns `None` when no line matches; it does not raise. Arithmetic on that `None` later raises `TypeError`.
- The boot-time offset scan returns 0 when the clock is not in the listing; it does not raise.
- `_hz` is one list: the extremes re-appended by one step (lkhz.py:134-136) are averaged by the later steps (lkhz.py:131-133) (`AverageTakesInExtremes`).

## Model

| member | source | states |
|---|---|---|
| Text.SplitJoin | lkhz.py:31 | joining the pieces of `split(sep)` with `sep` gives the text back |
| Text.Split | lkhz.py:31 | `s.split(sep)` gives at least one piece; `SplitJoin` shows the pieces join back to the text |
| Text.SplitAfter | lkhz.py:31 | a text without the separator's first character, followed by the separator, is the first piece; the rest is split on |
| Text.SplitWhole | lkhz.py:118 | a text without the separator's first character is a single piece |
| Text.SplitConcat | lkhz.py:67 | splitting on one character distributes over that character between two texts |
| Text.TrimStart | lkhz.py:67 | dropping leading characters of a class (`lstrip()` for `str.isspace()`'s) leaves a suffix of the text that does not start with one |
| Text.TrimEnd | lkhz.py:67 | dropping trailing characters of a class (`rstrip()` for `str.isspace()`'s) leaves a prefix of the text that does not end with one |
| Text.TrimStartDrops | lkhz.py:67 | every character `TrimStart` drops is in the class it trims |
| Text.TrimEndDrops | lkhz.py:67 | every character `TrimEnd` drops is in the class it trims |
| Text.Trim | lkhz.py:67 | trimming both ends gives a text no longer than the input that neither starts nor ends with a character of the class |
| Text.TrimKeepsHead | lkhz.py:32 | a text whose first character is outside the class keeps it first when trimmed |
| Text.Strip | lkhz.py:67 | `strip()` gives a text no longer than the input that neither starts nor ends with white space; `TrimStartDrops` and `TrimEndDrops` show it drops only white space |
| Text.StripPadded | lkhz.py:67 | `strip()` of a text between white space that neither starts nor ends with white space gives that text |
| Text.ShowNat | lkhz.py:32 | a natural number prints as a non-empty run of digits |
| Text.ShowInt | lkhz.py:32 | an integer prints as a minus sign, exactly when it is negative, followed by one or more digits |
| Text.DigitsValueShowNat | lkhz.py:32 | the digits of a natural number have that number as their value |
| Text.ParseIntPadded | lkhz.py:32 | `int()` of a printed integer between the white space `int()` skips (space, `\t` to `\r`) is that integer |
| Text.ParseInt | lkhz.py:32 | `int()` on text: space and `\t` to `\r` around an optional sign and decimal digits; None, standing for ValueError, otherwise; `ParseIntShowInt` reads printed integers back and `ParseIntRejectsSeparator` shows U+001C to U+001F are not skipped |
| Text.ParseIntRejectsSeparator | lkhz.py:32 | `int()` of a text starting with one of U+001C to U+001F, which `strip()` would remove, is a ValueError |
| Text.IntField | lkhz.py:31-32 | `int(line.split(sep)[i])`: IndexError when the field is missing, ValueError when it does not parse; `NamedFieldParses` and `NextToLastParses` read fields back |
| Text.ParseIntShowInt | lkhz.py:32 | `int(str(n))` is n, whatever white space of the kind `int()` skips (space, `\t` to `\r`) surrounds it |
| Stats.SeqMin | lkhz.py:138 | `min` is at most every element |
| Stats.SeqMax | lkhz.py:139 | `max` is at least every element |
| Stats.SeqMinIn | lkhz.py:138 | `min` is one of the elements |
| Stats.SeqMaxIn | lkhz.py:139 | `max` is one of the elements |
| Stats.LastN | lkhz.py:132 | `s[-n:]` has min(n, len(s)) elements: the last ones of s, in order |
| Stats.SumBounds | lkhz.py:133 | a sum lies between the length times any lower bound and the length times any upper bound of the elements |
| Stats.Mean | lkhz.py:133 | `sum(s)/len(s)` of a non-empty list; `MeanBounds` bounds it by the elements |
| Stats.MeanBounds | lkhz.py:133 | the mean lies between any lower bound and any upper bound of the elements |
| ProcFiles.FirstMatch | lkhz.py:29-33 | the index of the first matching line: it matches and no earlier line does; None when no line matches |
| ProcFiles.LastMatch | lkhz.py:86-88 | the index of the last matching line: it matches and no later line does; None when no line matches |
| ProcFiles.ReadConfigHz | lkhz.py:26-35 | the loop with `break` gives the integer after `=` on the first `CONFIG_HZ=` line, None when there is none, and raises what `int()` raises on that line |
| ProcFiles.FirstIntField | lkhz.py:29-33 | the integer after `sep` on the first line that starts with the prefix; Ok(None) when no line does; that line's IndexError or ValueError otherwise. It is the definition `ReadConfigHz` and `ScanJiffies` (lkhz.py:116-119) are proved equal to |
| ProcFiles.ConfigValue | lkhz.py:31-32 | `int(ln.split('=')[1])` on one configuration line; `ConfigValueReadsBack` reads `CONFIG_HZ=<n>` back as n |
| ProcFiles.ConfigValueReadsBack | lkhz.py:31-32 | the line `CONFIG_HZ=<n>` followed by a newline reads back as n |
| ProcFiles.NamedFieldParses | lkhz.py:31-32 | `<name><sep><n>` reads back as n when the separator's first character is not a digit or `-` and occurs neither in the name nor in the trailing white space, which `int()` skips |
| ProcFiles.ScanJiffies | lkhz.py:116-119 | the first `jiffies:` line gives the new counter value; with none, the value read before is kept; a bad line raises |
| ProcFiles.JiffiesValue | lkhz.py:118 | `int(line.split(': ')[1])` on one line of the snapshot; `JiffiesValueReadsBack` reads `jiffies: <n>` back as n |
| ProcFiles.JiffiesValueReadsBack | lkhz.py:118 | the line `jiffies: <n>` reads back as n |
| ProcFiles.Cpu0Offset | lkhz.py:50-73 | the scanner whose `go` goes 2, 1, 0 gives the value of `Cpu0OffsetOf`: the next-to-last field of the line after the first line ending in `ktime_get_boottime`, over 10^9; 0 when there is no such line or it is the last one |
| ProcFiles.Cpu0OffsetOf | lkhz.py:59-73 | the next-to-last field of the line after the first line ending in `ktime_get_boottime`, over 10^9; 0 when there is no such line or it is the last one; that line's error otherwise. `Cpu0Offset` is proved equal to it and `Cpu0OffsetReadsFirstClock` states which clock it reads |
| ProcFiles.OffsetValue | lkhz.py:67 | `int(line.strip().split(' ')[-2])` on the line after the clock's name; `OffsetValueReadsBack` reads a padded `<name> <n> <unit>` back as n |
| ProcFiles.Cpu0OffsetReadsFirstClock | lkhz.py:59-73 | the first CPU's boot-time clock decides the offset, whatever clock lines follow it |
| ProcFiles.NextToLastParses | lkhz.py:67 | the next-to-last space-separated field of `<name> <n> <unit>` parses as n, however many spaces the name holds |
| ProcFiles.OffsetValueReadsBack | lkhz.py:67 | an offset line `<name> <n> <unit>` padded with white space reads back as n |
| ProcFiles.ReadBtime | lkhz.py:85-88 | the loop without `break` gives the value of `BtimeScan`: every `btime` line is parsed and the last value is kept |
| ProcFiles.ScanLast | lkhz.py:85-88 | every line with the prefix is parsed in order, the first that fails raises, and the last value parsed is kept; `ScanLastSucceeds` and `ScanLastIsLast` state when it succeeds and which line it reads |
| ProcFiles.BtimeScan | lkhz.py:85-88 | `ScanLast` over the status file with prefix `btime` and `BtimeValue`; `BtimeScanSucceeds` and `BtimeScanIsLast` specialise the two lemmas |
| ProcFiles.BtimeValue | lkhz.py:88 | `int(line.strip().split(' ')[1])` on a `btime` line; `BtimeValueReadsBack` reads `btime <n>` back as n |
| ProcFiles.ScanLastSucceeds | lkhz.py:86-88 | a scan for the last prefixed line succeeds exactly when every prefixed line parses |
| ProcFiles.ScanLastIsLast | lkhz.py:86-88 | a scan that succeeds gives the value of the last prefixed line, or the value held before when there is none |
| ProcFiles.BtimeScanSucceeds | lkhz.py:86-88 | the `btime` scan succeeds exactly when every `btime` line parses; a bad line raises even when a later one would parse |
| ProcFiles.BtimeScanIsLast | lkhz.py:86-88 | the `btime` scan that succeeds gives the last `btime` line's value, or nothing when there is no such line |
| ProcFiles.BtimeValueReadsBack | lkhz.py:88 | the line `btime <n>` followed by a newline reads back as n |
| Lkhz.AdjustJiffies | lkhz.py:126-128 | the counter plus 300 seconds' worth of ticks, less 2^32 once (not modulo) when wrapped; `RateOfSteadyCounter` shows it undoes a steady counter's start and wrap |
| Lkhz.Rate | lkhz.py:126-130 | the corrected counter over the time since boot, wrapped past 300 seconds; `StepRate`, `RateNonNegative` and `RateOfSteadyCounter` state its properties |
| Lkhz.Sampled | lkhz.py:126-130 | AttributeError without a counter, then TypeError without CONFIG_HZ, then ZeroDivisionError at a zero time since boot, the fields unchanged in each case; otherwise `Absorb` of `Rate`. `SampledRate` and `SampledKeeps` state it |
| Lkhz.Measured | lkhz.py:116-130 | the first `jiffies:` line of the snapshot, if any, replaces the counter, a bad one raises with the fields unchanged, then `Sampled` runs; `MeasuredSamples` and `StepOutcome` state it |
| Lkhz.Absorb | lkhz.py:131-140 | folding one rate into the list and its statistics; `AbsorbWindow` and `AbsorbExtremes` state its properties |
| Lkhz.StepSpec | lkhz.py:95-140 | one `_gv` step with the exception it raises and the fields it leaves; `StepRecalibration`, `StepOutcome`, `StepRate`, `StepKeepsInv` and `StepExtremes` state its properties |
| Lkhz.Jumped | lkhz.py:103 | the uptime less the offset is more than a second away from the last time since boot; `StepRecalibration` states what follows either way |
| Lkhz.Recalibrate | lkhz.py:100-108 | the time since boot against the current offset, or against a re-read offset after a jump; Err when the re-read raises. `StepRecalibration` states all three outcomes |
| Lkhz.AverageTakesInExtremes | lkhz.py:131-136 | after the rates 1, 3 and 2 the average is 8/5: the extremes re-appended by the second step are averaged by the third |
| Lkhz.AbsorbWindow | lkhz.py:131-136 | the averaged window is the last 100 of the old window with the new rate appended, in order, and the average is its mean; the old extremes follow it from the second sample on |
| Lkhz.AbsorbExtremes | lkhz.py:131-140 | folding in a rate keeps the window invariant (extremes are min and max, average between them, delta is max minus min); the minimum never rises and the maximum never falls once there is a sample |
| Lkhz.StepRecalibration | lkhz.py:99-108 | after a jump of more than a second the offset is the re-read one and the time since boot is taken against it; otherwise the offset stays; the last time since boot is the new one; a failed re-read leaves the time since boot at the raw uptime |
| Lkhz.StepOutcome | lkhz.py:116-130 | a step raises exactly when the re-read or the `jiffies:` line raises, no counter was ever read, CONFIG_HZ is missing (TypeError) or the time since boot is zero (ZeroDivisionError); the counter is the first `jiffies:` value, or the previous one |
| Lkhz.RateNonNegative | lkhz.py:126-130 | a corrected counter that is not negative over a positive time since boot gives a rate that is not negative |
| Lkhz.SampledRate | lkhz.py:121-130 | a sampling that does not raise has divided the corrected counter by the time since boot |
| Lkhz.StepRate | lkhz.py:121-130 | a step that does not raise sets HZ to the corrected counter over the time since boot |
| Lkhz.StepKeepsInv | lkhz.py:95-140 | every step keeps the window invariant, whether it raises or not |
| Lkhz.StepExtremes | lkhz.py:133-140 | after a step that does not raise, min <= avg <= max and delta == max - min >= 0; from the second sample on no step raises the minimum or lowers the maximum |
| Lkhz.RateOfSteadyCounter | lkhz.py:121-130 | a counter that ticks exactly CONFIG_HZ times a second, read past 300 seconds, gives CONFIG_HZ back |
| Lkhz.RunStops | lkhz.py:37-39 | once a step raises, later steps change nothing |
| Lkhz.Run | lkhz.py:38-39 | `StepSpec` applied to the samples in order, stopping at the first exception; `RunStops`, `RunKeepsInv` and `RunExtremes` state it |
| Lkhz.Calibrated | lkhz.py:41 | `_oavg` becomes `_avg`, nothing else changes; `LKHZ.Calibrate` ensures it after a run that raises nothing |
| Lkhz.RunKeepsInv | lkhz.py:37-39 | any run of steps keeps the window invariant; a run of at least one step that does not raise leaves a sample |
| Lkhz.RunExtremes | lkhz.py:37-39 | over any run of steps, once there is a sample, the minimum never rises and the maximum never falls |
| Lkhz.Truncate | lkhz.py:48 | `int()` of a float truncates toward zero |
| Lkhz.UserHzOf | lkhz.py:48 | `user_hz` is HZ truncated, because `2 // 50*50` is 0 |
| Lkhz.UserHzNotRoundedTo50 | lkhz.py:48 | `user_hz` of 249.5 is 249, not a multiple of 50 |
| Lkhz.SecondsSinceBoot | lkhz.py:77-82 | the counter plus 300 times USER_HZ, less 2^32 once past 300 seconds, over CONFIG_HZ; `SecondsOfSteadyCounter` shows it gives a steady counter's elapsed time back |
| Lkhz.EpochFrom | lkhz.py:77-91 | the conversion from the two reads it makes, with its errors in source order; `EpochOfSteadyCounter` and `EpochWrapExample` state its values |
| Lkhz.EpochOf | lkhz.py:75-91 | `EpochFrom` with the offset `Cpu0OffsetOf` reads from the timer listing and the boot time `BtimeScan` reads from the status file; `EpochOfSteadyCounter` and `LKHZ.JiffiesToEpoch` state it |
| Lkhz.SecondsOfSteadyCounter | lkhz.py:77-82 | with USER_HZ equal to CONFIG_HZ, a steady counter read past 300 seconds converts to the elapsed seconds |
| Lkhz.EpochWrapExample | lkhz.py:77-91 | CONFIG_HZ 250, a counter of 1,000,000 at 4100 seconds: the wrap is taken off once, giving -4,293,892,296 before the division, plus the boot time |
| Lkhz.EpochOfSteadyCounter | lkhz.py:77-91 | with a rate that truncates to CONFIG_HZ, a steady counter converts to the boot time plus the time since boot plus the current offset |
| Lkhz.LKHZ.constructor | lkhz.py:17-24 | the new object holds the given CONFIG_HZ and offset, an empty window, no counter and no rate |
| Lkhz.Initial | lkhz.py:17-24 | the fields right after construction: the offset read then, `last_since_boot` equal to it, an empty window, no counter, no HZ and `_oavg` 0; the constructor and `Open` ensure it |
| Lkhz.LKHZ.SinceBoot | lkhz.py:99-108 | the fields afterwards are `Recalibrate` of the fields before; on a failed re-read, the error and a time since boot equal to the raw uptime |
| Lkhz.LKHZ.Fold | lkhz.py:131-140 | the fields afterwards are `Absorb` of the fields before and the rate |
| Lkhz.LKHZ.TakeRate | lkhz.py:121-130 | the fields and the exception afterwards are `Sampled` of the fields before |
| Lkhz.LKHZ.Measure | lkhz.py:116-130 | the fields and the exception afterwards are `Measured` of the fields before and the snapshot |
| Lkhz.LKHZ.Step | lkhz.py:95-140 | `_gv` leaves the fields and raises as `StepSpec` says, and keeps the window invariant |
| Lkhz.LKHZ.Calibrate | lkhz.py:37-42 | 100 steps as `Run` says; the first exception ends them; without one the average becomes the baseline; the window invariant holds |
| Lkhz.LKHZ.JiffiesToEpoch | lkhz.py:75-93 | `jiffies_to_datetime` up to epoch seconds is `EpochOf`; the errors come in source order: no rate, offset re-read, missing or zero CONFIG_HZ, bad or missing `btime` |
| Lkhz.Open | lkhz.py:17-35 | construction succeeds exactly when the CONFIG_HZ scan and the offset scan both succeed, raises the first one's error otherwise, and gives a fresh object in the initial state |

## Left out

- File and process I/O are not modelled. The model does not read `/proc/config.gz`, `/proc/timer_list`, `/proc/stat`, or the `cat` of uptime and timer listing. Their contents are parameters, given as lines.
- The gzip decompression and the `bytes.decode()` of the configuration lines are not modelled; the lines arrive as text.
- `float()` of the first field of `/proc/uptime` is not modelled. The uptime is given as a number in each `Sample`, so a malformed uptime line, and the `ValueError` it would raise, are out of scope.
- `analyze` and its terminal output, the infinite loop and `time.sleep` are user interface, not core.
- `calibrate`'s `self._start = int(time.time())` reads the wall clock and is dropped. The rest of `calibrate` is modelled.
- `datetime.datetime.fromtimestamp` and the local time zone are not modelled. The conversion stops at seconds since the epoch.
- Floats are modelled as real numbers. `round(x, 8)` is taken as exact, and float overflow, NaN and rounding error are out of scope.
- Text.ParseInt: accepts only ASCII digits, an optional sign and the ASCII white space `int()` skips (space, `\t` to `\r`). Python's `int()` also takes underscores between digits and non-ASCII digits and white space; kernel files do not hold them.
- Text.Strip: drops only ASCII white space. Python's `strip()` also drops non-ASCII white space such as U+0085 and U+00A0; kernel files do not hold it.
- `test_lkhz.py` calls the never-returning `analyze` against a live system, so it states nothing to model.
