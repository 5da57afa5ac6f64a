/** The HZ estimator: a running kernel's tick rate estimated by comparing
    its raw `jiffies` counter with the time since boot, over a bounded
    window of samples that keeps its past extremes, with the boot-time
    offset recalibrated across suspend and resume; and the conversion of
    a raw `jiffies` value into seconds since the epoch. */
module Lkhz {
  import opened Errors
  import opened Text
  import opened Stats
  import opened ProcFiles

  /** The number of samples the average spans (`_count`). */
  const Count: nat := 100
  /** The counter starts this many seconds' worth of ticks below zero. */
  const BiasSeconds: int := 300
  /** `1 << 32`, taken off once the counter has wrapped. */
  const Wrap: int := 0x1_0000_0000

  function Abs(x: real): real {
    if x < 0.0 then -x else x
  }

  /** One poll of the kernel: the uptime in seconds, the lines of the
      uptime and timer-listing snapshot read together, and the lines that a
      second read of the timer listing gives if the step recalibrates. */
  datatype Sample = Sample(uptime: real, snapshot: seq<string>, timerList: seq<string>)

  /** The estimator's fields. `sampled` says whether HZ, `_avg`, `_min`,
      `_max` and `_delta` exist yet (they are all assigned together);
      `jiffies` is None until a `jiffies:` line has been read. */
  datatype Estimator = Estimator(
    offset: real,
    lastSinceBoot: real,
    sinceBoot: real,
    jiffies: Option<int>,
    sampled: bool,
    hz: real,
    window: seq<real>,
    avg: real,
    minHz: real,
    maxHz: real,
    delta: real,
    baseline: real)

  /** The state right after construction, given the boot-time offset read
      then: the last time since boot starts at that offset. */
  function Initial(offset: real): Estimator {
    Estimator(offset, offset, 0.0, None, false, 0.0, [], 0.0, 0.0, 0.0, 0.0, 0.0)
  }

  /** What holds between steps: the window holds at most `Count` entries
      (rates and the extremes re-appended by earlier steps alike) plus the
      two extremes re-appended by the last step, is empty before the first
      sample, and the extremes are its minimum and maximum, with the
      average between them. */
  predicate Inv(s: Estimator) {
    |s.window| <= Count + 2 &&
    (!s.sampled ==> s.window == []) &&
    (s.sampled ==>
      |s.window| > 0 &&
      s.minHz == SeqMin(s.window) && s.maxHz == SeqMax(s.window) &&
      s.minHz <= s.avg <= s.maxHz &&
      s.delta == s.maxHz - s.minHz)
  }

  /** The counter value corrected for its start 300 seconds' worth of ticks
      below zero and, once `wrapped`, for one wrap of 32 bits. */
  function AdjustJiffies(j: int, biasHz: int, wrapped: bool): int {
    j + BiasSeconds * biasHz - (if wrapped then Wrap else 0)
  }

  /** Folds a new instantaneous HZ value `h` into the window: append, keep
      the last `Count`, average those, re-append the previous extremes if
      there are any, then take the new extremes over the whole list. */
  function Absorb(s: Estimator, h: real): Estimator {
    var kept := LastN(s.window + [h], Count);
    var window := kept + (if s.sampled then [s.minHz, s.maxHz] else []);
    s.(hz := h, window := window, avg := Mean(kept),
       minHz := SeqMin(window), maxHz := SeqMax(window),
       delta := SeqMax(window) - SeqMin(window), sampled := true)
  }

  /** Whether the uptime, less the offset, has moved more than a second
      away from the last time since boot: a suspend and resume. */
  predicate Jumped(s: Estimator, uptime: real) {
    Abs(uptime - s.offset - s.lastSinceBoot) > 1.0
  }

  /** The first part of a step: the time since boot, against an offset
      read again after a jump (undo the old offset, re-read, apply the new
      one); Err when the re-read raises. */
  function Recalibrate(s: Estimator, x: Sample): Result<Estimator> {
    if !Jumped(s, x.uptime) then
      Ok(s.(sinceBoot := x.uptime - s.offset, lastSinceBoot := x.uptime - s.offset))
    else
      match Cpu0OffsetOf(x.timerList)
      case Err(e) => Err(e)
      case Ok(offset) => Ok(s.(offset := offset, sinceBoot := x.uptime - offset, lastSinceBoot := x.uptime - offset))
  }

  /** The instantaneous rate: the corrected counter over the time since
      boot, the 32-bit wrap taken off past 300 seconds. */
  function Rate(configHz: int, j: int, sinceBoot: real): real
    requires sinceBoot != 0.0
  {
    AdjustJiffies(j, configHz, sinceBoot > BiasSeconds as real) as real / sinceBoot
  }

  /** The last part of a step: the rate, folded into the window. The
      counter is read before CONFIG_HZ, and both before the division. */
  function Sampled(configHz: Option<int>, s: Estimator): (Estimator, Option<Error>) {
    if s.jiffies.None? then (s, Some(AttributeError))
    else if configHz.None? then (s, Some(TypeError))
    else if s.sinceBoot == 0.0 then (s, Some(ZeroDivisionError))
    else (Absorb(s, Rate(configHz.value, s.jiffies.value, s.sinceBoot)), None)
  }

  /** The middle and last parts of a step: the first `jiffies:` line of
      the snapshot, if any, replaces the counter, then the rate is taken. */
  function Measured(configHz: Option<int>, s: Estimator, snapshot: seq<string>): (Estimator, Option<Error>) {
    match FirstIntField(snapshot, JiffiesPrefix, ": ")
    case Err(e) => (s, Some(e))
    case Ok(found) => Sampled(configHz, s.(jiffies := if found.Some? then found else s.jiffies))
  }

  /** One estimation step, and the exception it raises, if any, together
      with the state the fields are left in at that point. */
  function StepSpec(configHz: Option<int>, s: Estimator, x: Sample): (Estimator, Option<Error>) {
    match Recalibrate(s, x)
    case Err(e) => (s.(sinceBoot := x.uptime), Some(e))
    case Ok(s1) => Measured(configHz, s1, x.snapshot)
  }

  /** Several steps in a row; the first exception ends the run. */
  function Run(configHz: Option<int>, s: Estimator, xs: seq<Sample>): (Estimator, Option<Error>)
    decreases |xs|
  {
    if xs == [] then (s, None)
    else
      var (t, e) := Run(configHz, s, xs[..|xs| - 1]);
      if e.Some? then (t, e) else StepSpec(configHz, t, xs[|xs| - 1])
  }

  /** After the calibration steps: the average becomes the baseline. */
  function Calibrated(s: Estimator): Estimator {
    s.(baseline := s.avg)
  }

  // ---------------------------------------------------------------------
  // The window

  /** The window the average is taken over is the last `Count` values of
      the previous window with the new value appended, in order; the
      previous extremes follow it from the second sample on. */
  lemma AbsorbWindow(s: Estimator, h: real)
    ensures var t := Absorb(s, h);
            var extra := if s.sampled then 2 else 0;
            var before := s.window + [h];
            |t.window| > extra &&
            var kept := t.window[..|t.window| - extra];
            |kept| == (if |before| < Count then |before| else Count) &&
            before == before[..|before| - |kept|] + kept &&
            t.avg == Mean(kept) &&
            t.window[|t.window| - extra..] == (if s.sampled then [s.minHz, s.maxHz] else []) &&
            t.hz == h && t.sampled
  {
    var t := Absorb(s, h);
    var kept := LastN(s.window + [h], Count);
    var extra := if s.sampled then 2 else 0;
    assert t.window[..|t.window| - extra] == kept;
  }

  /** Whatever the state before, a sample leaves the window invariant
      holding; the new minimum is never above and the new maximum never
      below the previous ones. */
  lemma AbsorbExtremes(s: Estimator, h: real)
    ensures Inv(Absorb(s, h))
    ensures s.sampled ==> Absorb(s, h).minHz <= s.minHz && s.maxHz <= Absorb(s, h).maxHz
  {
    var t := Absorb(s, h);
    var kept := LastN(s.window + [h], Count);
    var lo, hi := SeqMin(t.window), SeqMax(t.window);
    forall k | 0 <= k < |kept| ensures lo <= kept[k] <= hi {
      assert kept[k] == t.window[k];
    }
    MeanBounds(kept, lo, hi);
    if s.sampled {
      assert t.window[|t.window| - 2] == s.minHz;
      assert t.window[|t.window| - 1] == s.maxHz;
    }
  }

  // ---------------------------------------------------------------------
  // One step

  /** Sampling changes neither the offset, the times since boot nor the
      counter value. */
  lemma SampledKeeps(configHz: Option<int>, s: Estimator)
    ensures var t := Sampled(configHz, s).0;
            t.offset == s.offset && t.sinceBoot == s.sinceBoot &&
            t.lastSinceBoot == s.lastSinceBoot && t.jiffies == s.jiffies
  {
  }

  /** Suspend and resume: when the uptime, less the offset, has moved more
      than one second away from the last time since boot, the offset is
      read again and the time since boot is taken against the new offset;
      otherwise the offset stays. Either way the last time since boot is
      the new time since boot, unless the re-read itself raises, which
      leaves the offset and the last time since boot as they were. */
  lemma StepRecalibration(configHz: Option<int>, s: Estimator, x: Sample)
    ensures var t := StepSpec(configHz, s, x).0;
            !Jumped(s, x.uptime) ==>
              t.offset == s.offset && t.sinceBoot == x.uptime - s.offset && t.lastSinceBoot == t.sinceBoot
    ensures var t := StepSpec(configHz, s, x).0;
            Jumped(s, x.uptime) && Cpu0OffsetOf(x.timerList).Ok? ==>
              t.offset == Cpu0OffsetOf(x.timerList).value &&
              t.sinceBoot == x.uptime - Cpu0OffsetOf(x.timerList).value && t.lastSinceBoot == t.sinceBoot
    ensures var (t, e) := StepSpec(configHz, s, x);
            Jumped(s, x.uptime) && Cpu0OffsetOf(x.timerList).Err? ==>
              e == Some(Cpu0OffsetOf(x.timerList).error) && t.offset == s.offset &&
              t.sinceBoot == x.uptime && t.lastSinceBoot == s.lastSinceBoot && t.window == s.window
  {
    match Recalibrate(s, x)
    case Err(e) =>
    case Ok(s1) =>
      match FirstIntField(x.snapshot, JiffiesPrefix, ": ")
      case Err(e) =>
      case Ok(found) =>
        SampledKeeps(configHz, s1.(jiffies := if found.Some? then found else s1.jiffies));
  }

  /** When a step raises and when it does not. It raises when the offset
      re-read or the `jiffies:` line raises, when no counter value has
      ever been read, when CONFIG_HZ was never found, and, rather than
      giving an infinite rate, when the time since boot is zero. */
  lemma StepOutcome(configHz: Option<int>, s: Estimator, x: Sample)
    ensures var (t, e) := StepSpec(configHz, s, x);
            e.None? <==> Recalibrate(s, x).Ok? && FirstIntField(x.snapshot, JiffiesPrefix, ": ").Ok?
                         && t.jiffies.Some? && configHz.Some? && t.sinceBoot != 0.0
    ensures var (t, e) := StepSpec(configHz, s, x);
            Recalibrate(s, x).Ok? && FirstIntField(x.snapshot, JiffiesPrefix, ": ").Ok? ==>
              t.jiffies == (if FirstIntField(x.snapshot, JiffiesPrefix, ": ").value.Some?
                            then FirstIntField(x.snapshot, JiffiesPrefix, ": ").value else s.jiffies)
    ensures var (t, e) := StepSpec(configHz, s, x);
            (Recalibrate(s, x).Ok? && FirstIntField(x.snapshot, JiffiesPrefix, ": ").Ok? &&
             t.jiffies.Some? && configHz.None?) ==> e == Some(TypeError)
    ensures var (t, e) := StepSpec(configHz, s, x);
            (Recalibrate(s, x).Ok? && FirstIntField(x.snapshot, JiffiesPrefix, ": ").Ok? &&
             t.jiffies.Some? && configHz.Some? && t.sinceBoot == 0.0) ==> e == Some(ZeroDivisionError)
  {
    match Recalibrate(s, x)
    case Err(e) =>
    case Ok(s1) =>
      match FirstIntField(x.snapshot, JiffiesPrefix, ": ")
      case Err(e) =>
      case Ok(found) =>
        SampledKeeps(configHz, s1.(jiffies := if found.Some? then found else s1.jiffies));
  }

  /** A corrected counter that is not negative over a positive time since
      boot gives a rate that is not negative. */
  lemma RateNonNegative(configHz: int, j: int, sinceBoot: real)
    requires sinceBoot > 0.0
    requires AdjustJiffies(j, configHz, sinceBoot > BiasSeconds as real) >= 0
    ensures Rate(configHz, j, sinceBoot) >= 0.0
  {
  }

  /** The first sample of the example below: 1 alone. */
  lemma FirstOfExample()
    ensures var s1 := Absorb(Initial(0.0), 1.0);
            s1.sampled && s1.window == [1.0] && s1.minHz == 1.0 && s1.maxHz == 1.0
  {
    assert LastN([] + [1.0], Count) == [1.0];
  }

  /** The second sample of the example below: 3, then the extremes 1 and 1. */
  lemma SecondOfExample(s1: Estimator)
    requires s1.sampled && s1.window == [1.0] && s1.minHz == 1.0 && s1.maxHz == 1.0
    ensures var s2 := Absorb(s1, 3.0);
            s2.sampled && s2.window == [1.0, 3.0, 1.0, 1.0]
  {
    assert LastN(s1.window + [3.0], Count) == [1.0, 3.0];
  }

  /** The third sample of the example below: 2, averaged with all four
      entries before it. */
  lemma ThirdOfExample(s2: Estimator)
    requires s2.window == [1.0, 3.0, 1.0, 1.0]
    ensures Absorb(s2, 2.0).avg == 8.0 / 5.0
  {
    var kept := [1.0, 3.0, 1.0, 1.0, 2.0];
    assert LastN(s2.window + [2.0], Count) == kept;
    assert kept[1..] == [3.0, 1.0, 1.0, 2.0];
    assert kept[1..][1..] == [1.0, 1.0, 2.0];
    assert kept[1..][1..][1..] == [1.0, 2.0];
    assert kept[1..][1..][1..][1..] == [2.0];
    assert Sum(kept) == 8.0;
  }

  /** The re-appended extremes are averaged along with the rates: after
      the rates 1, 3 and 2 the averaged list is 1, 3, 1, 1, 2 (the second
      step re-appends the first step's minimum and maximum, both 1), so the
      average is 8/5 rather than 2. */
  lemma AverageTakesInExtremes()
    ensures Absorb(Absorb(Absorb(Initial(0.0), 1.0), 3.0), 2.0).avg == 8.0 / 5.0
  {
    FirstOfExample();
    SecondOfExample(Absorb(Initial(0.0), 1.0));
    ThirdOfExample(Absorb(Absorb(Initial(0.0), 1.0), 3.0));
  }

  /** A sampling that does not raise has divided the corrected counter by
      the time since boot. */
  lemma SampledRate(configHz: Option<int>, s: Estimator)
    ensures var (t, e) := Sampled(configHz, s);
            e.None? ==> t.sampled && s.jiffies.Some? && configHz.Some? && s.sinceBoot != 0.0 &&
                        t.hz == Rate(configHz.value, s.jiffies.value, s.sinceBoot)
  {
    if s.jiffies.Some? && configHz.Some? && s.sinceBoot != 0.0 {
      AbsorbWindow(s, Rate(configHz.value, s.jiffies.value, s.sinceBoot));
    }
  }

  /** A step that does not raise has divided the corrected counter by the
      time since boot and folded that rate into the window. */
  lemma StepRate(configHz: Option<int>, s: Estimator, x: Sample)
    ensures var (t, e) := StepSpec(configHz, s, x);
            e.None? ==> t.sampled && t.jiffies.Some? && configHz.Some? && t.sinceBoot != 0.0 &&
                        t.hz == Rate(configHz.value, t.jiffies.value, t.sinceBoot)
  {
    match Recalibrate(s, x)
    case Err(e) =>
    case Ok(s1) =>
      match FirstIntField(x.snapshot, JiffiesPrefix, ": ")
      case Err(e) =>
      case Ok(found) =>
        var s2 := s1.(jiffies := if found.Some? then found else s1.jiffies);
        SampledKeeps(configHz, s2);
        SampledRate(configHz, s2);
  }

  /** The state the counter read and the rate start from, as far as the
      window goes: a rate that is taken is folded into it, and a raise
      leaves the window and its statistics alone. */
  lemma MeasuredSamples(configHz: Option<int>, s: Estimator, snapshot: seq<string>) returns (s2: Estimator)
    ensures Measured(configHz, s, snapshot).1.None? ==>
              Measured(configHz, s, snapshot).0 == Absorb(s2, Measured(configHz, s, snapshot).0.hz) &&
              s2.window == s.window && s2.sampled == s.sampled &&
              s2.minHz == s.minHz && s2.maxHz == s.maxHz
    ensures Measured(configHz, s, snapshot).1.Some? ==>
              var t := Measured(configHz, s, snapshot).0;
              t.window == s.window && t.sampled == s.sampled && t.hz == s.hz && t.avg == s.avg &&
              t.minHz == s.minHz && t.maxHz == s.maxHz && t.delta == s.delta
  {
    s2 := s;
    match FirstIntField(snapshot, JiffiesPrefix, ": ")
    case Err(e) =>
    case Ok(found) =>
      s2 := s.(jiffies := if found.Some? then found else s.jiffies);
      if s2.jiffies.Some? && configHz.Some? && s2.sinceBoot != 0.0 {
        AbsorbWindow(s2, Rate(configHz.value, s2.jiffies.value, s2.sinceBoot));
      }
  }

  /** The state a step starts its sampling from, when it gets that far. */
  lemma StepSamples(configHz: Option<int>, s: Estimator, x: Sample) returns (s2: Estimator)
    ensures StepSpec(configHz, s, x).1.None? ==>
              StepSpec(configHz, s, x).0 == Absorb(s2, StepSpec(configHz, s, x).0.hz) &&
              s2.window == s.window && s2.sampled == s.sampled &&
              s2.minHz == s.minHz && s2.maxHz == s.maxHz
    ensures StepSpec(configHz, s, x).1.Some? ==>
              var t := StepSpec(configHz, s, x).0;
              t.window == s.window && t.sampled == s.sampled && t.hz == s.hz && t.avg == s.avg &&
              t.minHz == s.minHz && t.maxHz == s.maxHz && t.delta == s.delta
  {
    s2 := s;
    match Recalibrate(s, x)
    case Err(e) =>
    case Ok(s1) =>
      s2 := MeasuredSamples(configHz, s1, x.snapshot);
  }

  /** A step keeps the window invariant, whether it raises or not. */
  lemma StepKeepsInv(configHz: Option<int>, s: Estimator, x: Sample)
    requires Inv(s)
    ensures Inv(StepSpec(configHz, s, x).0)
  {
    var s2 := StepSamples(configHz, s, x);
    if StepSpec(configHz, s, x).1.None? {
      AbsorbExtremes(s2, StepSpec(configHz, s, x).0.hz);
    }
  }

  /** A step that does not raise leaves the average between the extremes
      and a range that is never negative; from the second sample on, no
      step raises the minimum or lowers the maximum. */
  lemma StepExtremes(configHz: Option<int>, s: Estimator, x: Sample)
    requires Inv(s)
    ensures var (t, e) := StepSpec(configHz, s, x);
            e.None? ==> t.minHz <= t.avg <= t.maxHz && t.delta == t.maxHz - t.minHz >= 0.0
    ensures var t := StepSpec(configHz, s, x).0;
            s.sampled ==> t.sampled && t.minHz <= s.minHz && s.maxHz <= t.maxHz
  {
    var s2 := StepSamples(configHz, s, x);
    StepKeepsInv(configHz, s, x);
    if StepSpec(configHz, s, x).1.None? {
      AbsorbExtremes(s2, StepSpec(configHz, s, x).0.hz);
    }
  }

  /** A counter that started 300 seconds' worth of ticks below 2^32 and
      has ticked exactly `configHz` times a second for more than 300
      seconds gives the configured rate back exactly. */
  lemma RateOfSteadyCounter(configHz: int, j: int, sinceBoot: real)
    requires sinceBoot > 300.0
    requires (j as real) == (Wrap as real) + (configHz as real) * (sinceBoot - 300.0)
    ensures Rate(configHz, j, sinceBoot) == configHz as real
  {
    var adjusted := AdjustJiffies(j, configHz, true);
    assert adjusted as real == (configHz as real) * sinceBoot;
    assert ((configHz as real) * sinceBoot) / sinceBoot == configHz as real;
  }

  // ---------------------------------------------------------------------
  // Several steps

  /** Once a run has raised, the samples after that point change
      nothing. */
  lemma {:induction false} RunStops(configHz: Option<int>, s: Estimator, xs: seq<Sample>, n: nat)
    requires n <= |xs| && Run(configHz, s, xs[..n]).1.Some?
    ensures Run(configHz, s, xs) == Run(configHz, s, xs[..n])
    decreases |xs|
  {
    if n < |xs| {
      var prefix := xs[..|xs| - 1];
      assert prefix[..n] == xs[..n];
      RunStops(configHz, s, prefix, n);
    } else {
      assert xs[..n] == xs;
    }
  }

  /** A run one sample longer than one that did not raise is one more
      step. */
  lemma RunLast(configHz: Option<int>, s: Estimator, xs: seq<Sample>, i: nat)
    requires i < |xs| && Run(configHz, s, xs[..i]).1.None?
    ensures Run(configHz, s, xs[..i + 1]) == StepSpec(configHz, Run(configHz, s, xs[..i]).0, xs[i])
  {
    assert xs[..i + 1][..i] == xs[..i];
  }

  /** Any run of steps keeps the window invariant; a run that raises
      nothing and has at least one step leaves a sample behind. */
  lemma {:induction false} RunKeepsInv(configHz: Option<int>, s: Estimator, xs: seq<Sample>)
    requires Inv(s)
    ensures Inv(Run(configHz, s, xs).0)
    ensures |xs| > 0 && Run(configHz, s, xs).1.None? ==> Run(configHz, s, xs).0.sampled
    decreases |xs|
  {
    if xs != [] {
      var (t, e) := Run(configHz, s, xs[..|xs| - 1]);
      RunKeepsInv(configHz, s, xs[..|xs| - 1]);
      if e.None? {
        StepKeepsInv(configHz, t, xs[|xs| - 1]);
        StepOutcome(configHz, t, xs[|xs| - 1]);
      }
    }
  }

  /** Once there is a sample, no run of steps raises the minimum or lowers
      the maximum: the extremes are sticky for the life of the estimator. */
  lemma {:induction false} RunExtremes(configHz: Option<int>, s: Estimator, xs: seq<Sample>)
    requires Inv(s) && s.sampled
    ensures Run(configHz, s, xs).0.sampled
    ensures Run(configHz, s, xs).0.minHz <= s.minHz
    ensures Run(configHz, s, xs).0.maxHz >= s.maxHz
    decreases |xs|
  {
    if xs != [] {
      var (t, e) := Run(configHz, s, xs[..|xs| - 1]);
      RunExtremes(configHz, s, xs[..|xs| - 1]);
      RunKeepsInv(configHz, s, xs[..|xs| - 1]);
      if e.None? {
        StepExtremes(configHz, t, xs[|xs| - 1]);
      }
    }
  }

  // ---------------------------------------------------------------------
  // USER_HZ and timestamps

  /** Python's `int()` on a float: truncation toward zero. */
  function Truncate(x: real): (n: int)
    ensures 0.0 <= x ==> n as real <= x < n as real + 1.0
    ensures x < 0.0 ==> n as real - 1.0 < x <= n as real
  {
    if x >= 0.0 then x.Floor else -((-x).Floor)
  }

  /** The `user_hz` property, `int(HZ + 2 // 50*50)`. By precedence the
      floor division binds first and `2 // 50` is 0, so the margin and the
      rounding to a multiple of 50 both vanish: it is HZ truncated. */
  function UserHzOf(hz: real): (userHz: int)
    ensures userHz == Truncate(hz)
  {
    Truncate(hz + ((2 / 50) * 50) as real)
  }

  /** So `user_hz` need not be a multiple of 50. */
  lemma UserHzNotRoundedTo50()
    ensures UserHzOf(249.5) == 249
  {
    assert 249.0 <= 249.5 < 250.0;
  }

  /** `jiffies_to_datetime` up to the seconds since boot: the counter is
      corrected with the estimated USER_HZ for the bias and one wrap when
      `elapsed` (the time since boot plus the current boot-time offset) is
      past 300 seconds, then divided by CONFIG_HZ. */
  function SecondsSinceBoot(j: int, userHz: int, configHz: int, elapsed: real): real
    requires configHz != 0
  {
    AdjustJiffies(j, userHz, elapsed > BiasSeconds as real) as real / configHz as real
  }

  /** For a steady counter read past 300 seconds, with USER_HZ equal to
      CONFIG_HZ, the conversion gives back the elapsed time. */
  lemma SecondsOfSteadyCounter(j: int, configHz: int, elapsed: real)
    requires configHz > 0 && elapsed > 300.0
    requires (j as real) == (Wrap as real) + (configHz as real) * (elapsed - 300.0)
    ensures SecondsSinceBoot(j, configHz, configHz, elapsed) == elapsed
  {
    var adjusted := AdjustJiffies(j, configHz, true);
    assert adjusted as real == (configHz as real) * elapsed;
  }

  /** `jiffies_to_datetime` up to seconds since the epoch, from what its
      two reads give: the current boot-time offset and the `btime` scan of
      the kernel's status file. It raises when there is no rate yet
      (USER_HZ needs one), when the offset re-read raises, when CONFIG_HZ
      was never found or is zero, and when the status file has a malformed
      `btime` line or none at all, in that order. */
  function EpochFrom(configHz: Option<int>, s: Estimator, j: int,
                     current: Result<real>, btimes: Result<Option<int>>): Result<real> {
    if !s.sampled then Err(AttributeError)
    else if current.Err? then Err(current.error)
    else if configHz.None? then Err(TypeError)
    else if configHz.value == 0 then Err(ZeroDivisionError)
    else if btimes.Err? then Err(btimes.error)
    else if btimes.value.None? then Err(UnboundLocalError)
    else
      Ok(btimes.value.value as real +
         SecondsSinceBoot(j, UserHzOf(s.hz), configHz.value, s.sinceBoot + current.value))
  }

  /** The conversion with the timer listing and the status file as lines. */
  function EpochOf(configHz: Option<int>, s: Estimator, j: int, timerList: seq<string>, stat: seq<string>): Result<real> {
    EpochFrom(configHz, s, j, Cpu0OffsetOf(timerList), BtimeScan(stat, None))
  }

  /** The wrap branch on concrete numbers: CONFIG_HZ 250, a rate of 250,
      a counter of 1,000,000 read 4100 seconds after boot with no offset and
      a boot time of 1,700,000,000 corrects the counter to
      1,000,000 + 75,000 - 2^32 before dividing by 250. */
  lemma EpochWrapExample(s: Estimator)
    requires s.sampled && s.hz == 250.0 && s.sinceBoot == 4100.0
    ensures AdjustJiffies(1000000, UserHzOf(s.hz), s.sinceBoot > 300.0) == -4293892296
    ensures EpochFrom(Some(250), s, 1000000, Ok(0.0), Ok(Some(1700000000))) ==
              Ok(1700000000.0 + (-4293892296) as real / 250.0)
  {
    assert UserHzOf(s.hz) == 250 by {
      assert 250.0 <= s.hz < 251.0;
    }
  }

  /** With a rate that truncates to CONFIG_HZ, a counter that has ticked
      steadily since 300 seconds' worth of ticks below 2^32 converts to the
      boot time plus the elapsed seconds, the elapsed time being the time
      since boot plus the current offset. */
  lemma EpochOfSteadyCounter(configHz: int, s: Estimator, j: int, current: real, btime: int)
    requires s.sampled && configHz > 0 && UserHzOf(s.hz) == configHz
    requires s.sinceBoot + current > 300.0
    requires (j as real) == (Wrap as real) + (configHz as real) * (s.sinceBoot + current - 300.0)
    ensures EpochFrom(Some(configHz), s, j, Ok(current), Ok(Some(btime))) ==
              Ok(btime as real + s.sinceBoot + current)
  {
    SecondsOfSteadyCounter(j, configHz, s.sinceBoot + current);
  }

  // ---------------------------------------------------------------------
  // The object

  /** The estimator object: CONFIG_HZ read once at construction, the
      boot-time offset, the window and its statistics, updated in place by
      each step. */
  class LKHZ {
    const configHz: Option<int>
    var offset: real
    var lastSinceBoot: real
    var sinceBoot: real
    var jiffies: Option<int>
    var sampled: bool
    var hz: real
    var window: seq<real>
    var avg: real
    var minHz: real
    var maxHz: real
    var delta: real
    var baseline: real

    function State(): Estimator
      reads this
    {
      Estimator(offset, lastSinceBoot, sinceBoot, jiffies, sampled, hz, window,
                avg, minHz, maxHz, delta, baseline)
    }

    ghost predicate Valid()
      reads this
    {
      Inv(State())
    }

    /** `configHz` is what the CONFIG_HZ scan found, if anything, and
        `offset` the boot-time offset read at construction. */
    constructor (configHz: Option<int>, offset: real)
      ensures this.configHz == configHz && State() == Initial(offset)
      ensures Valid()
    {
      this.configHz := configHz;
      this.offset := offset;
      lastSinceBoot := offset;
      sinceBoot := 0.0;
      jiffies := None;
      sampled := false;
      hz := 0.0;
      window := [];
      avg, minHz, maxHz, delta := 0.0, 0.0, 0.0, 0.0;
      baseline := 0.0;
    }

    /** Writes every field of the estimator at once. */
    method Set(t: Estimator)
      modifies this
      ensures State() == t
    {
      offset := t.offset;
      lastSinceBoot := t.lastSinceBoot;
      sinceBoot := t.sinceBoot;
      jiffies := t.jiffies;
      sampled := t.sampled;
      hz := t.hz;
      window := t.window;
      avg := t.avg;
      minHz := t.minHz;
      maxHz := t.maxHz;
      delta := t.delta;
      baseline := t.baseline;
    }

    /** The time since boot, with the offset read again after a jump;
        `raised` is the exception of that re-read, if any. */
    method SinceBoot(x: Sample) returns (raised: Option<Error>)
      modifies this
      ensures raised.None? <==> Recalibrate(old(State()), x).Ok?
      ensures raised.None? ==> State() == Recalibrate(old(State()), x).value
      ensures raised.Some? ==> raised.value == Recalibrate(old(State()), x).error &&
                               State() == old(State()).(sinceBoot := x.uptime)
    {
      var s := State();
      var since := x.uptime - s.offset;
      var newOffset := s.offset;
      if Abs(since - s.lastSinceBoot) > 1.0 {
        since := since + s.offset;
        var reread := Cpu0Offset(x.timerList);
        if reread.Err? {
          Set(s.(sinceBoot := since));
          return Some(reread.error);
        }
        newOffset := reread.value;
        since := since - newOffset;
      }
      Set(s.(offset := newOffset, sinceBoot := since, lastSinceBoot := since));
      return None;
    }

    /** Folds the instantaneous rate `h` into the window and its
        statistics. */
    method Fold(h: real)
      modifies this
      ensures State() == Absorb(old(State()), h)
    {
      var s := State();
      var kept := LastN(s.window + [h], Count);
      var average := Mean(kept);
      var extended := if s.sampled then kept + [s.minHz, s.maxHz] else kept;
      var lo, hi := SeqMin(extended), SeqMax(extended);
      Set(s.(hz := h, window := extended, avg := average, minHz := lo, maxHz := hi,
             delta := hi - lo, sampled := true));
    }

    /** The rate from the counter and the time since boot, folded into
        the window; `raised` is the exception on the way, if any. */
    method TakeRate() returns (raised: Option<Error>)
      modifies this
      ensures (State(), raised) == Sampled(configHz, old(State()))
    {
      if jiffies.None? {
        return Some(AttributeError);
      }
      if configHz.None? {
        return Some(TypeError);
      }
      var adjusted := AdjustJiffies(jiffies.value, configHz.value, sinceBoot > BiasSeconds as real);
      if sinceBoot == 0.0 {
        return Some(ZeroDivisionError);
      }
      Fold(adjusted as real / sinceBoot);
      return None;
    }

    /** Reads the counter from the snapshot, then takes the rate. */
    method Measure(snapshot: seq<string>) returns (raised: Option<Error>)
      modifies this
      ensures (State(), raised) == Measured(configHz, old(State()), snapshot)
    {
      var read := ScanJiffies(snapshot, jiffies);
      if read.Err? {
        return Some(read.error);
      }
      jiffies := read.value;
      raised := TakeRate();
    }

    /** One estimation step (`_gv`) on an injected sample; `raised` is the
        exception the step raises, if any. */
    method Step(x: Sample) returns (raised: Option<Error>)
      requires Valid()
      modifies this
      ensures Valid()
      ensures (State(), raised) == StepSpec(configHz, old(State()), x)
    {
      ghost var s := State();
      StepKeepsInv(configHz, s, x);
      raised := SinceBoot(x);
      if raised.Some? {
        return;
      }
      raised := Measure(x.snapshot);
    }

    /** `calibrate`: `Count` steps, then the average is kept as the
        baseline that drift is measured against. */
    method Calibrate(xs: seq<Sample>) returns (raised: Option<Error>)
      requires Valid() && |xs| == Count
      modifies this
      ensures Valid()
      ensures raised == Run(configHz, old(State()), xs).1
      ensures raised.Some? ==> State() == Run(configHz, old(State()), xs).0
      ensures raised.None? ==> State() == Calibrated(Run(configHz, old(State()), xs).0)
    {
      ghost var s := State();
      var i := 0;
      while i < |xs|
        invariant 0 <= i <= |xs| && Valid()
        invariant Run(configHz, s, xs[..i]) == (State(), None)
      {
        RunLast(configHz, s, xs, i);
        raised := Step(xs[i]);
        if raised.Some? {
          RunStops(configHz, s, xs, i + 1);
          return;
        }
        i := i + 1;
      }
      assert xs[..i] == xs;
      raised := None;
      Set(Calibrated(State()));
    }

    /** `jiffies_to_datetime` up to seconds since the epoch, with the
        current timer listing and the kernel's status file as lines. */
    method JiffiesToEpoch(j: int, timerList: seq<string>, stat: seq<string>) returns (r: Result<real>)
      ensures r == EpochOf(configHz, State(), j, timerList, stat)
    {
      if !sampled {
        return Err(AttributeError);
      }
      var adjusted := j + BiasSeconds * UserHzOf(hz);
      var current := Cpu0Offset(timerList);
      if current.Err? {
        return Err(current.error);
      }
      if sinceBoot + current.value > BiasSeconds as real {
        adjusted := adjusted - Wrap;
      }
      if configHz.None? {
        return Err(TypeError);
      }
      if configHz.value == 0 {
        return Err(ZeroDivisionError);
      }
      var secondsSinceBoot := adjusted as real / configHz.value as real;
      var btime := ReadBtime(stat);
      if btime.Err? {
        return Err(btime.error);
      }
      if btime.value.None? {
        return Err(UnboundLocalError);
      }
      r := Ok(btime.value.value as real + secondsSinceBoot);
    }
  }

  /** Construction: CONFIG_HZ from the kernel configuration's lines (None
      when no line gives it) and the boot-time offset from the timer
      listing; either scan can raise, and then there is no object. */
  method Open(config: seq<string>, timerList: seq<string>) returns (r: Result<LKHZ>)
    ensures r.Ok? <==> FirstIntField(config, ConfigPrefix, "=").Ok? && Cpu0OffsetOf(timerList).Ok?
    ensures r.Err? && FirstIntField(config, ConfigPrefix, "=").Err? ==>
              r.error == FirstIntField(config, ConfigPrefix, "=").error
    ensures r.Err? && FirstIntField(config, ConfigPrefix, "=").Ok? ==>
              r.error == Cpu0OffsetOf(timerList).error
    ensures r.Ok? ==> fresh(r.value) && r.value.Valid() &&
                      r.value.configHz == FirstIntField(config, ConfigPrefix, "=").value &&
                      r.value.State() == Initial(Cpu0OffsetOf(timerList).value)
  {
    var hz := ReadConfigHz(config);
    if hz.Err? {
      return Err(hz.error);
    }
    var offset := Cpu0Offset(timerList);
    if offset.Err? {
      return Err(offset.error);
    }
    var k := new LKHZ(hz.value, offset.value);
    return Ok(k);
  }
}
