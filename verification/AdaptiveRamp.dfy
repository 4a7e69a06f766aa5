/** The doubling stream ramp of web/speedtest-adaptive.js. Test windows are foreign:
    the k-th ramp window's outcome and the k-th reading of the abort flag are inputs. */
module AdaptiveRamp {
  import opened Reals
  import opened TestConfig

  const MIN_STREAMS: nat := 1
  const HTTP1_MAX_STREAMS: nat := 6
  const GBPS_MEASURE_SECONDS := 4.0

  /** A window's speed; the window itself clamps it at 0. */
  type Mbps = r: real | r >= 0.0 witness 0.0

  datatype Outcome = Done(mbps: Mbps) | Threw(error: string)

  /** A ramp window that ran to completion. */
  datatype RampWindow = RampWindow(streams: nat, mbps: Mbps)

  datatype Config = Config(
    http1: bool,
    maxStreams: nat,
    measureDuration: real,
    measureDurationOverridden: bool,
    gainThreshold: real)

  datatype Phase = Saturating(streams: nat, windowIndex: nat)

  datatype Result =
    | Measured(streams: nat, duration: real, mbps: Mbps)
    | Failed(error: string)
    | Aborted

  function Pow2(k: nat): (p: nat)
    ensures p >= 1
  {
    if k == 0 then 1 else 2 * Pow2(k - 1)
  }

  function CeilLog2(n: nat): nat {
    if n <= 1 then 0 else 1 + CeilLog2((n + 1) / 2)
  }

  lemma {:induction false} CeilLog2IsLeast(n: nat)
    ensures n <= Pow2(CeilLog2(n))
    ensures n > 1 ==> CeilLog2(n) > 0 && Pow2(CeilLog2(n) - 1) < n
    ensures n <= 1 ==> CeilLog2(n) == 0
  {
    if n > 1 {
      CeilLog2IsLeast((n + 1) / 2);
    }
  }

  lemma {:induction false} Pow2Monotone(a: nat, b: nat)
    requires a <= b
    ensures Pow2(a) <= Pow2(b)
  {
    if a < b { Pow2Monotone(a, b - 1); }
  }

  lemma BelowMeansEarlier(k: nat, n: nat)
    requires Pow2(k) < n
    ensures k < CeilLog2(n)
  {
    CeilLog2IsLeast(n);
    if CeilLog2(n) <= k { Pow2Monotone(CeilLog2(n), k); }
  }

  function MinNat(a: nat, b: nat): nat { if a <= b then a else b }

  function ProtocolStreamCap(http1: bool, maxStreams: nat): nat {
    if http1 then MinNat(maxStreams, HTTP1_MAX_STREAMS) else maxStreams
  }

  function NextStreamCount(current: nat, maxStreams: nat): nat { MinNat(maxStreams, current * 2) }

  predicate ShouldStopRamping(previous: real, current: real, threshold: real) {
    previous > 0.0 && (current <= 0.0 || (current - previous) / previous < threshold)
  }

  function ResolveMeasureDuration(best: real, config: Config): real {
    if config.measureDurationOverridden then config.measureDuration
    else if best >= 10000.0 then FAST_MEASURE_SECONDS
    else if best >= 1000.0 then GBPS_MEASURE_SECONDS
    else config.measureDuration
  }

  /** The window count the progress bar is drawn against. */
  function MaxWindows(maxStreams: nat): nat { CeilLog2(maxStreams) + 1 }

  /** A ramp reaches the cap within that many windows, and not within one less. */
  lemma MaxWindowsIsLeast(maxStreams: nat)
    ensures var n := MaxWindows(maxStreams);
            1 <= n && maxStreams <= Pow2(n - 1) && (n > 1 ==> Pow2(n - 2) < maxStreams)
  {
    CeilLog2IsLeast(maxStreams);
  }

  /** Window k of a ramp capped at `maxStreams`. */
  function StreamsAt(k: nat, maxStreams: nat): nat { MinNat(maxStreams, Pow2(k)) }

  /** `b` is the first window of `tr` that no other window beats. */
  ghost predicate EarliestArgmax(tr: seq<RampWindow>, b: nat) {
    && b < |tr|
    && (forall j | 0 <= j < |tr| :: tr[j].mbps <= tr[b].mbps)
    && (forall j | 0 <= j < b :: tr[j].mbps < tr[b].mbps)
  }

  /** Windows 0 .. |tr| - 1 doubled up to the cap, each but the last gained enough to
      go on, and each but the last was below the cap. */
  ghost predicate RampTrace(tr: seq<RampWindow>, maxStreams: nat, threshold: real) {
    && (forall k | 0 <= k < |tr| :: tr[k].streams == StreamsAt(k, maxStreams))
    && (forall k | 0 < k < |tr| - 1 :: !ShouldStopRamping(tr[k - 1].mbps, tr[k].mbps, threshold))
    && (forall k | 0 <= k < |tr| - 1 :: tr[k].streams < maxStreams)
  }

  /** May the ramp go on after the last window of `tr`? */
  ghost predicate GoesOn(tr: seq<RampWindow>, maxStreams: nat, threshold: real) {
    tr == [] ||
    var last := tr[|tr| - 1];
    && last.streams < maxStreams
    && (|tr| > 1 ==> !ShouldStopRamping(tr[|tr| - 2].mbps, last.mbps, threshold))
  }

  /** The running best: a later window replaces it only by being faster. */
  function Best(tr: seq<RampWindow>): RampWindow {
    if tr == [] then RampWindow(MIN_STREAMS, 0.0)
    else
      var init, last := tr[..|tr| - 1], tr[|tr| - 1];
      if last.mbps > Best(init).mbps then last else Best(init)
  }

  lemma {:induction false} BestIsEarliestArgmax(tr: seq<RampWindow>) returns (b: nat)
    requires tr != [] && tr[0].streams == MIN_STREAMS
    ensures EarliestArgmax(tr, b) && Best(tr) == tr[b]
  {
    var init := tr[..|tr| - 1];
    if init == [] {
      b := 0;
    } else {
      b := BestIsEarliestArgmax(init);
      if tr[|tr| - 1].mbps > tr[b].mbps { b := |tr| - 1; }
    }
  }

  lemma {:induction false} BestOfNothing(tr: seq<RampWindow>)
    requires Best(tr).mbps <= 0.0
    ensures forall k | 0 <= k < |tr| :: tr[k].mbps == 0.0
  {
    if tr != [] { BestOfNothing(tr[..|tr| - 1]); }
  }

  lemma RampTraceExtends(tr: seq<RampWindow>, mbps: Mbps, maxStreams: nat, threshold: real)
    requires RampTrace(tr, maxStreams, threshold) && GoesOn(tr, maxStreams, threshold)
    ensures RampTrace(tr + [RampWindow(StreamsAt(|tr|, maxStreams), mbps)], maxStreams, threshold)
  {
  }

  lemma GoesOnIff(tr: seq<RampWindow>, w: RampWindow, maxStreams: nat, threshold: real)
    ensures var previous := if tr == [] then 0.0 else tr[|tr| - 1].mbps;
            GoesOn(tr + [w], maxStreams, threshold) ==
            (w.streams < maxStreams && !ShouldStopRamping(previous, w.mbps, threshold))
  {
    hide ShouldStopRamping;
    if tr == [] { NoStopAtFirst(w.mbps, threshold); }
  }

  lemma NoStopAtFirst(current: real, threshold: real)
    ensures !ShouldStopRamping(0.0, current, threshold)
  {
  }

  lemma DoublingStep(k: nat, maxStreams: nat)
    requires maxStreams >= MIN_STREAMS
    ensures NextStreamCount(StreamsAt(k, maxStreams), maxStreams) == StreamsAt(k + 1, maxStreams)
    ensures StreamsAt(k + 1, maxStreams) == StreamsAt(k, maxStreams) <==> StreamsAt(k, maxStreams) >= maxStreams
    ensures StreamsAt(k, maxStreams) < maxStreams ==> k + 1 < MaxWindows(maxStreams)
  {
    if Pow2(k) < maxStreams { BelowMeansEarlier(k, maxStreams); }
  }

  /** No window opens more streams than configured, or than HTTP/1 has connections, and
      the doubling stalls only there. */
  lemma StreamsFitProtocol(k: nat, http1: bool, maxStreams: nat)
    requires maxStreams >= MIN_STREAMS
    ensures var cap := ProtocolStreamCap(http1, maxStreams);
            var streams := StreamsAt(k, cap);
            && 1 <= streams <= maxStreams && (http1 ==> streams <= 6)
            && (NextStreamCount(streams, cap) == streams ==> streams == maxStreams || (http1 && streams == 6))
  {
    DoublingStep(k, ProtocolStreamCap(http1, maxStreams));
  }

  lemma NothingYet(maxStreams: nat, threshold: real)
    requires maxStreams >= MIN_STREAMS
    ensures RampTrace([], maxStreams, threshold) && GoesOn([], maxStreams, threshold)
    ensures StreamsAt(0, maxStreams) == MIN_STREAMS && 0 < MaxWindows(maxStreams)
    ensures Phases(0, maxStreams) == [] && Best([]) == RampWindow(MIN_STREAMS, 0.0)
  {
  }

  lemma FirstWindow(tr: seq<RampWindow>, maxStreams: nat, threshold: real)
    requires RampTrace(tr, maxStreams, threshold) && maxStreams >= MIN_STREAMS
    ensures tr != [] ==> tr[0].streams == MIN_STREAMS
  {
  }

  /** The progress reports of the first n windows. */
  function Phases(n: nat, maxStreams: nat): seq<Phase> {
    seq(n, k requires 0 <= k < n => Saturating(StreamsAt(k, maxStreams), k))
  }

  lemma PhasesStep(n: nat, maxStreams: nat)
    ensures Phases(n + 1, maxStreams) == Phases(n, maxStreams) + [Saturating(StreamsAt(n, maxStreams), n)]
  {
  }

  lemma BestStep(tr: seq<RampWindow>, w: RampWindow)
    ensures Best(tr + [w]) == if w.mbps > Best(tr).mbps then w else Best(tr)
  {
    assert (tr + [w])[..|tr|] == tr;
  }

  /** `tr` records the outcomes of the first windows. */
  ghost predicate Records(tr: seq<RampWindow>, ramp: nat -> Outcome) {
    forall k | 0 <= k < |tr| :: ramp(k) == Done(tr[k].mbps)
  }

  /** After a window that moved something, this one moved at least the share `threshold` more. */
  ghost predicate Gained(previous: Mbps, current: Mbps, threshold: real) {
    previous > 0.0 ==> current > 0.0 && current - previous >= threshold * previous
  }

  lemma GoesOnIffGained(previous: Mbps, current: Mbps, threshold: real)
    ensures ShouldStopRamping(previous, current, threshold) <==> !Gained(previous, current, threshold)
  {
    if previous > 0.0 {
      var gain := (current - previous) / previous;
      assert gain * previous == current - previous;
      if gain < threshold {
        ScaleStrict(gain, threshold, previous);
      } else {
        assert (gain - threshold) * previous >= 0.0;
      }
    }
  }

  lemma TraceGained(tr: seq<RampWindow>, maxStreams: nat, threshold: real)
    requires RampTrace(tr, maxStreams, threshold)
    ensures forall k | 0 < k < |tr| - 1 :: Gained(tr[k - 1].mbps, tr[k].mbps, threshold)
  {
    hide ShouldStopRamping, Gained, StreamsAt;
    forall k | 0 < k < |tr| - 1
      ensures Gained(tr[k - 1].mbps, tr[k].mbps, threshold)
    {
      GoesOnIffGained(tr[k - 1].mbps, tr[k].mbps, threshold);
    }
  }

  /** A ramp that cannot go on has reached the cap, or its last window did not gain. */
  lemma StoppedForAReason(tr: seq<RampWindow>, maxStreams: nat, threshold: real)
    requires !GoesOn(tr, maxStreams, threshold)
    ensures tr != []
    ensures tr[|tr| - 1].streams < maxStreams ==>
              |tr| > 1 && !Gained(tr[|tr| - 2].mbps, tr[|tr| - 1].mbps, threshold)
  {
    hide ShouldStopRamping, Gained;
    if |tr| > 1 { GoesOnIffGained(tr[|tr| - 2].mbps, tr[|tr| - 1].mbps, threshold); }
  }

  /** Unless the configuration fixes it, the measuring window is shorter the faster the ramp was. */
  ghost predicate LastsFor(duration: real, tr: seq<RampWindow>, config: Config) {
    if config.measureDurationOverridden then duration == config.measureDuration
    else if exists w | w in tr :: w.mbps >= 10000.0 then duration == 3.0
    else if exists w | w in tr :: w.mbps >= 1000.0 then duration == 4.0
    else duration == config.measureDuration
  }

  lemma BestSetsDuration(tr: seq<RampWindow>, b: nat, config: Config)
    requires EarliestArgmax(tr, b)
    ensures LastsFor(ResolveMeasureDuration(tr[b].mbps, config), tr, config)
  {
    assert tr[b] in tr;
    assert forall w | w in tr :: w.mbps <= tr[b].mbps;
  }

  /** The measuring window uses the streams of the earliest fastest ramp window. */
  ghost predicate MeasuresBest(tr: seq<RampWindow>, result: Result, config: Config)
    requires result.Measured?
  {
    && LastsFor(result.duration, tr, config)
    && exists b: nat | EarliestArgmax(tr, b) :: result.streams == tr[b].streams
  }

  lemma NothingRecorded(ramp: nat -> Outcome)
    ensures Records([], ramp)
  {
  }

  lemma RecordsStep(tr: seq<RampWindow>, w: RampWindow, ramp: nat -> Outcome)
    requires Records(tr, ramp) && ramp(|tr|) == Done(w.mbps)
    ensures Records(tr + [w], ramp)
  {
  }

  /** The gain or the cap ended the ramp, or its next window threw. */
  ghost predicate RampEnded(tr: seq<RampWindow>, config: Config, ramp: nat -> Outcome) {
    !GoesOn(tr, ProtocolStreamCap(config.http1, config.maxStreams), config.gainThreshold) || ramp(|tr|).Threw?
  }

  /** The whole test. `tr` holds the completed ramp windows, `phases` the progress reports. */
  method RunAdaptiveHTTPTest(config: Config, ramp: nat -> Outcome, measure: Outcome, aborted: nat -> bool)
    returns (result: Result, tr: seq<RampWindow>, phases: seq<Phase>)
    requires config.maxStreams >= MIN_STREAMS
    ensures var cap := ProtocolStreamCap(config.http1, config.maxStreams);
            && RampTrace(tr, cap, config.gainThreshold)
            && |tr| <= MaxWindows(cap)
            && Records(tr, ramp)
            && 1 <= |phases| <= MaxWindows(cap) && |tr| <= |phases| <= |tr| + 1 && phases == Phases(|phases|, cap)
            && (|phases| == |tr| && tr[|tr| - 1].streams < cap ==>
                  |tr| > 1 && !Gained(tr[|tr| - 2].mbps, tr[|tr| - 1].mbps, config.gainThreshold))
            && (|phases| == |tr| + 1 ==> result.Aborted? || ramp(|tr|).Threw?)
    ensures forall k | 0 < k < |tr| - 1 :: Gained(tr[k - 1].mbps, tr[k].mbps, config.gainThreshold)
    ensures result.Measured? ==>
              && MeasuresBest(tr, result, config)
              && measure == Done(result.mbps)
              && RampEnded(tr, config, ramp)
    ensures result.Failed? ==>
              || (measure == Threw(result.error) && RampEnded(tr, config, ramp))
              || (ramp(|tr|) == Threw(result.error) && forall k | 0 <= k < |tr| :: tr[k].mbps == 0.0)
    ensures result.Aborted? ==> exists i: nat :: i <= |tr| + 1 && aborted(i)
  {
    hide RampTrace, GoesOn, Gained, ShouldStopRamping, StreamsAt, MaxWindows, Best, Phases, NextStreamCount,
      EarliestArgmax, LastsFor, ResolveMeasureDuration, Records;
    var maxStreams := ProtocolStreamCap(config.http1, config.maxStreams);
    assert maxStreams >= MIN_STREAMS;
    hide ProtocolStreamCap;
    var best := RampWindow(MIN_STREAMS, 0.0);
    var previousMbps: real := 0.0;
    var streams := MIN_STREAMS;
    var windowIndex: nat := 0;
    var checks: nat := 0;
    tr := [];
    NothingRecorded(ramp);
    phases := [Saturating(streams, windowIndex)];
    NothingYet(maxStreams, config.gainThreshold);
    PhasesStep(0, maxStreams);
    while !aborted(checks)
      invariant windowIndex == |tr| == checks == |phases| - 1 && windowIndex < MaxWindows(maxStreams)
      invariant streams == StreamsAt(windowIndex, maxStreams)
      invariant RampTrace(tr, maxStreams, config.gainThreshold) && GoesOn(tr, maxStreams, config.gainThreshold)
      invariant Records(tr, ramp)
      invariant phases == Phases(windowIndex + 1, maxStreams)
      invariant previousMbps == if tr == [] then 0.0 else tr[|tr| - 1].mbps
      invariant best == Best(tr)
      decreases MaxWindows(maxStreams) - windowIndex
    {
      checks := checks + 1;
      var outcome := ramp(windowIndex);
      if outcome.Threw? {
        if best.mbps > 0.0 { break; }
        BestOfNothing(tr);
        TraceGained(tr, maxStreams, config.gainThreshold);
        return Failed(outcome.error), tr, phases;
      }
      var window := RampWindow(streams, outcome.mbps);
      GoesOnIff(tr, window, maxStreams, config.gainThreshold);
      DoublingStep(windowIndex, maxStreams);
      RampTraceExtends(tr, outcome.mbps, maxStreams, config.gainThreshold);
      BestStep(tr, window);
      RecordsStep(tr, window, ramp);
      PhasesStep(windowIndex + 1, maxStreams);
      tr := tr + [window];
      if window.mbps > best.mbps { best := window; }
      if ShouldStopRamping(previousMbps, window.mbps, config.gainThreshold) { break; }
      var next := NextStreamCount(streams, maxStreams);
      if next == streams { break; }
      previousMbps := window.mbps;
      streams := next;
      windowIndex := windowIndex + 1;
      phases := phases + [Saturating(streams, windowIndex)];
    }
    TraceGained(tr, maxStreams, config.gainThreshold);
    if !GoesOn(tr, maxStreams, config.gainThreshold) { StoppedForAReason(tr, maxStreams, config.gainThreshold); }
    // An aborted signal stays aborted, so this reading repeats the one that ended the loop.
    if aborted(checks) { return Aborted, tr, phases; }
    FirstWindow(tr, maxStreams, config.gainThreshold);
    ghost var b := BestIsEarliestArgmax(tr);
    BestSetsDuration(tr, b, config);
    var duration := ResolveMeasureDuration(best.mbps, config);
    match measure {
      case Threw(error) => result := Failed(error);
      case Done(mbps) => result := Measured(best.streams, duration, mbps);
    }
  }
}
