/** The warm-up and early-stop detectors of web/speedtest-http-shared.js.

    Both cut the byte stream into windows of at least 500 ms. The specification
    keeps the closed windows themselves; the classes keep only their speeds, as
    the source does. Clock readings are strictly positive, so 0 is "unset".
 */
module Detectors {
  import opened Reals

  const WINDOW_MS := 500.0
  const STABLE_WINDOWS := 3
  const WARMUP_THRESHOLD := 0.15
  const WARMUP_GRACE_RATIO := 0.3
  const WARMUP_MAX_GRACE_MS := 5000.0
  const EARLY_STOP_THRESHOLD := 0.05
  const EARLY_STOP_MIN_WINDOWS := 2

  datatype Window = Window(bytes: real, from: real, to: real)

  type ClosedWindow = w: Window | w.to - w.from >= WINDOW_MS
    witness Window(0.0, 0.0, WINDOW_MS)

  /** Bits per second. */
  function Speed(w: ClosedWindow): real {
    (w.bytes * 8.0) / ((w.to - w.from) / 1000.0)
  }

  /** The speed of a window, times how long it was open in ms, is its bits a thousand times. */
  lemma SpeedCountsBits(w: ClosedWindow)
    ensures Speed(w) * (w.to - w.from) == w.bytes * 8000.0
  {
    var seconds := (w.to - w.from) / 1000.0;
    assert Speed(w) * seconds == w.bytes * 8.0;
    assert Speed(w) * (seconds * 1000.0) == Speed(w) * seconds * 1000.0;
  }

  function Speeds(ws: seq<ClosedWindow>): (speeds: seq<real>)
    ensures |speeds| == |ws|
    ensures forall i | 0 <= i < |ws| :: speeds[i] == Speed(ws[i])
  {
    seq(|ws|, i requires 0 <= i < |ws| => Speed(ws[i]))
  }

  function LastThree<T>(xs: seq<T>): seq<T> {
    if |xs| <= STABLE_WINDOWS then xs else xs[|xs| - STABLE_WINDOWS..]
  }

  function Average(xs: seq<real>): real
    requires xs != []
  {
    Sum(xs) / |xs| as real
  }

  /** Every value deviates from `avg` by less than the share `threshold`. */
  predicate AllWithin(xs: seq<real>, avg: real, threshold: real)
    requires avg != 0.0
  {
    forall x | x in xs :: Within(x, avg, threshold)
  }

  predicate Within(x: real, avg: real, threshold: real)
    requires avg != 0.0
  {
    Abs(x - avg) / avg < threshold
  }

  /** Any two values are positive and differ by a ratio below high/low. */
  ghost predicate PairwiseRatioBelow(xs: seq<real>, low: real, high: real) {
    forall x, y | x in xs && y in xs :: RatioBelow(x, y, low, high)
  }

  ghost predicate RatioBelow(x: real, y: real, low: real, high: real) {
    0.0 < y && x * low < y * high
  }

  lemma DeviationBounds(x: real, avg: real, threshold: real)
    requires avg > 0.0 && Within(x, avg, threshold)
    ensures avg - Times(threshold, avg) < x < avg + Times(threshold, avg)
  {
    var d := Abs(x - avg) / avg;
    ScaleStrict(d, threshold, avg);
    assert d * avg == Abs(x - avg);
  }

  lemma ShareOfAverage(avg: real, threshold: real)
    requires avg > 0.0 && threshold < 1.0
    ensures Times(threshold, avg) < avg
  {
    ScaleStrict(threshold, 1.0, avg);
  }

  lemma CrossScale(avg: real, threshold: real, upper: real, lower: real, low: real, high: real)
    requires low == 1.0 - threshold && high == 1.0 + threshold
    requires upper == avg + Times(threshold, avg) && lower == avg - Times(threshold, avg)
    ensures Times(upper, low) == Times(lower, high)
  {
    assert (avg + threshold * avg) * (1.0 - threshold) == (avg - threshold * avg) * (1.0 + threshold);
  }

  lemma RatioFromBounds(x: real, y: real, upper: real, lower: real, low: real, high: real)
    requires x < upper && 0.0 < lower < y && low > 0.0 && high > 0.0
    requires Times(upper, low) == Times(lower, high)
    ensures RatioBelow(x, y, low, high)
  {
    ScaleStrict(x, upper, low);
    ScaleStrict(lower, y, high);
  }

  lemma PairRatio(x: real, y: real, avg: real, threshold: real, low: real, high: real)
    requires avg > 0.0 && 0.0 < threshold < 1.0 && low == 1.0 - threshold && high == 1.0 + threshold
    requires Within(x, avg, threshold) && Within(y, avg, threshold)
    ensures RatioBelow(x, y, low, high)
  {
    hide Times, RatioBelow, Within;
    DeviationBounds(x, avg, threshold);
    DeviationBounds(y, avg, threshold);
    ShareOfAverage(avg, threshold);
    var upper, lower := avg + Times(threshold, avg), avg - Times(threshold, avg);
    CrossScale(avg, threshold, upper, lower, low, high);
    RatioFromBounds(x, y, upper, lower, low, high);
  }

  lemma WithinBoundsRatio(xs: seq<real>, avg: real, threshold: real, low: real, high: real)
    requires avg > 0.0 && 0.0 < threshold < 1.0 && low == 1.0 - threshold && high == 1.0 + threshold
    requires AllWithin(xs, avg, threshold)
    ensures PairwiseRatioBelow(xs, low, high)
  {
    hide Within, RatioBelow;
    forall x, y | x in xs && y in xs
      ensures RatioBelow(x, y, low, high)
    {
      PairRatio(x, y, avg, threshold, low, high);
    }
  }

  lemma SpeedsNonNegative(ws: seq<ClosedWindow>)
    requires forall w | w in ws :: w.bytes >= 0.0
    ensures forall s | s in Speeds(ws) :: s >= 0.0
  {
    forall s | s in Speeds(ws)
      ensures s >= 0.0
    {
      var i :| 0 <= i < |ws| && Speeds(ws)[i] == s;
      assert ws[i] in ws;
    }
  }

  lemma StableSpeeds(ws: seq<ClosedWindow>)
    requires |ws| >= STABLE_WINDOWS && forall w | w in ws :: w.bytes >= 0.0
    requires var recent := LastThree(Speeds(ws));
             Average(recent) == 0.0 || AllWithin(recent, Average(recent), WARMUP_THRESHOLD)
    ensures var recent := LastThree(Speeds(ws));
            (forall s | s in recent :: s == 0.0) || PairwiseRatioBelow(recent, 0.85, 1.15)
  {
    hide AllWithin, PairwiseRatioBelow, Speed, Speeds, Sum;
    var recent := LastThree(Speeds(ws));
    SpeedsNonNegative(ws);
    assert forall s | s in recent :: s in Speeds(ws);
    SumNonNegative(recent);
    AverageOfThree(recent);
    if Average(recent) != 0.0 {
      WithinBoundsRatio(recent, Average(recent), WARMUP_THRESHOLD, 0.85, 1.15);
    }
  }

  lemma AverageOfThree(recent: seq<real>)
    requires |recent| == STABLE_WINDOWS && Sum(recent) >= 0.0
    ensures Average(recent) >= 0.0 && (Average(recent) == 0.0 <==> Sum(recent) == 0.0)
  {
    hide Sum;
    assert Average(recent) == Sum(recent) / 3.0;
  }

  // ----- warm-up -----

  datatype WarmUp = WarmUp(
    windowBytes: real,
    windowStart: real,
    detectorStart: real,
    windows: seq<ClosedWindow>,
    settled: bool)

  const FreshWarmUp := WarmUp(0.0, 0.0, 0.0, [], false)

  function MaxGrace(durationMs: real): real {
    Min(durationMs * WARMUP_GRACE_RATIO, WARMUP_MAX_GRACE_MS)
  }

  /** Does closing the newest window of `ws` at time `now` end the warm-up? */
  predicate SettlesNow(ws: seq<ClosedWindow>, detectorStart: real, maxGrace: real, now: real) {
    var recent := LastThree(Speeds(ws));
    || (|ws| >= STABLE_WINDOWS
        && (Average(recent) == 0.0 || AllWithin(recent, Average(recent), WARMUP_THRESHOLD)))
    || now - detectorStart > maxGrace
  }

  /** The open window of `w` closes at `now`. */
  function CloseWindow(w: WarmUp, maxGrace: real, now: real): WarmUp
    requires now - w.windowStart >= WINDOW_MS
  {
    var windows := w.windows + [Window(w.windowBytes, w.windowStart, now)];
    w.(windowBytes := 0.0, windowStart := now, windows := windows,
       settled := SettlesNow(windows, w.detectorStart, maxGrace, now))
  }

  function WarmRecord(w: WarmUp, maxGrace: real, bytes: real, now: real): WarmUp {
    if w.settled then w
    else
      var w1 := if w.detectorStart == 0.0 then w.(detectorStart := now, windowStart := now) else w;
      var w2 := w1.(windowBytes := w1.windowBytes + bytes);
      if now - w2.windowStart >= WINDOW_MS then CloseWindow(w2, maxGrace, now) else w2
  }

  datatype Record = Record(bytes: real, now: real)

  ghost predicate ValidRecords(recs: seq<Record>) {
    forall r | r in recs :: r.bytes >= 0.0 && r.now > 0.0
  }

  function WarmRun(maxGrace: real, recs: seq<Record>): WarmUp {
    if recs == [] then FreshWarmUp
    else
      var last := recs[|recs| - 1];
      WarmRecord(WarmRun(maxGrace, recs[..|recs| - 1]), maxGrace, last.bytes, last.now)
  }

  /** How many of the records the detector takes in: all of them up to and
      including the one that settles it. */
  function Taken(maxGrace: real, recs: seq<Record>): (n: nat)
    ensures n <= |recs|
  {
    if recs == [] then 0
    else if WarmRun(maxGrace, recs[..|recs| - 1]).settled then Taken(maxGrace, recs[..|recs| - 1])
    else |recs|
  }

  function BytesOf(recs: seq<Record>): real {
    if recs == [] then 0.0 else BytesOf(recs[..|recs| - 1]) + recs[|recs| - 1].bytes
  }

  function WindowBytes(ws: seq<ClosedWindow>): real {
    if ws == [] then 0.0 else WindowBytes(ws[..|ws| - 1]) + ws[|ws| - 1].bytes
  }

  /** Everything a warm-up run keeps: the closed windows tile the time since the
      first record, and no unsettled close is past the grace period. */
  ghost predicate WarmInv(w: WarmUp, maxGrace: real, recs: seq<Record>) {
    && (w.detectorStart == 0.0 <==> recs == [])
    && (recs == [] ==> w == FreshWarmUp)
    && (recs != [] ==> w.detectorStart == recs[0].now && w.windowStart > 0.0)
    && w.windowBytes >= 0.0
    && (forall v | v in w.windows :: v.bytes >= 0.0)
    && (forall i | 0 <= i < |w.windows| - 1 :: w.windows[i].to == w.windows[i + 1].from)
    && (w.windows != [] ==> w.windows[0].from == w.detectorStart && w.windows[|w.windows| - 1].to == w.windowStart)
    && (w.windows == [] ==> w.windowStart == w.detectorStart)
    && (!w.settled ==> w.windowStart - w.detectorStart <= maxGrace)
    && (w.settled ==> w.windowBytes == 0.0)
  }

  lemma {:induction false} WarmRunInv(maxGrace: real, recs: seq<Record>)
    requires ValidRecords(recs) && maxGrace >= 0.0
    ensures WarmInv(WarmRun(maxGrace, recs), maxGrace, recs)
  {
    if recs != [] {
      var init, last := recs[..|recs| - 1], recs[|recs| - 1];
      assert recs == init + [last];
      WarmRunInv(maxGrace, init);
      assert last in recs;
    }
  }

  /** Settled is latched: once a prefix of the run has settled, the rest changes nothing. */
  lemma {:induction false} WarmUpLatches(maxGrace: real, recs: seq<Record>, k: nat)
    requires k <= |recs| && WarmRun(maxGrace, recs[..k]).settled
    ensures WarmRun(maxGrace, recs) == WarmRun(maxGrace, recs[..k])
    decreases |recs|
  {
    if k < |recs| {
      var init := recs[..|recs| - 1];
      assert init[..k] == recs[..k];
      WarmUpLatches(maxGrace, init, k);
    } else {
      assert recs[..k] == recs;
    }
  }

  lemma RecordAddsBytes(w: WarmUp, maxGrace: real, bytes: real, now: real)
    requires !w.settled
    ensures var n := WarmRecord(w, maxGrace, bytes, now);
            WindowBytes(n.windows) + n.windowBytes == WindowBytes(w.windows) + w.windowBytes + bytes
  {
    hide SettlesNow;
    var n := WarmRecord(w, maxGrace, bytes, now);
    if n.windows != w.windows {
      assert n.windows[..|n.windows| - 1] == w.windows;
    }
  }

  /** Bytes in closed windows plus the open window are exactly the bytes taken in. */
  lemma {:induction false} WarmUpConservesBytes(maxGrace: real, recs: seq<Record>)
    ensures var w := WarmRun(maxGrace, recs);
            && WindowBytes(w.windows) + w.windowBytes == BytesOf(recs[..Taken(maxGrace, recs)])
            && (!w.settled ==> Taken(maxGrace, recs) == |recs|)
  {
    if recs != [] {
      var init, last := recs[..|recs| - 1], recs[|recs| - 1];
      WarmUpConservesBytes(maxGrace, init);
      var before := WarmRun(maxGrace, init);
      SettledIgnores(before, maxGrace, last.bytes, last.now);
      hide WarmRecord, WindowBytes;
      if before.settled {
        assert recs[..Taken(maxGrace, recs)] == init[..Taken(maxGrace, init)];
      } else {
        assert init[..Taken(maxGrace, init)] == init;
        assert recs[..|recs|] == recs;
        RecordAddsBytes(before, maxGrace, last.bytes, last.now);
      }
    }
  }

  lemma SettledIgnores(w: WarmUp, maxGrace: real, bytes: real, now: real)
    ensures w.settled ==> WarmRecord(w, maxGrace, bytes, now) == w
  {
  }

  /** A record that leaves the detector unsettled is less than the grace period
      plus one window after the first record, whatever order the times come in. */
  lemma UnsettledIsRecent(maxGrace: real, recs: seq<Record>)
    requires ValidRecords(recs) && maxGrace >= 0.0 && recs != []
    requires !WarmRun(maxGrace, recs).settled
    ensures recs[|recs| - 1].now - recs[0].now < maxGrace + WINDOW_MS
  {
    var init := recs[..|recs| - 1];
    assert forall r | r in init :: r in recs;
    WarmRunInv(maxGrace, init);
    WarmRunInv(maxGrace, recs);
  }

  /** If a record settles the detector inside the grace period, then either the
      last three windows are all empty, or all three speeds are positive and any
      two of them differ by a ratio below 1.15/0.85. */
  lemma SettlesOnStability(maxGrace: real, recs: seq<Record>)
    requires ValidRecords(recs) && maxGrace >= 0.0 && recs != []
    requires !WarmRun(maxGrace, recs[..|recs| - 1]).settled && WarmRun(maxGrace, recs).settled
    requires recs[|recs| - 1].now - recs[0].now <= maxGrace
    ensures var speeds := LastThree(Speeds(WarmRun(maxGrace, recs).windows));
            && |speeds| == STABLE_WINDOWS
            && ((forall s | s in speeds :: s == 0.0) || PairwiseRatioBelow(speeds, 0.85, 1.15))
  {
    var init := recs[..|recs| - 1];
    assert forall r | r in init :: r in recs;
    WarmRunInv(maxGrace, init);
    WarmRunInv(maxGrace, recs);
    var w := WarmRun(maxGrace, recs);
    var speeds := LastThree(Speeds(w.windows));
    assert SettlesNow(w.windows, w.detectorStart, maxGrace, recs[|recs| - 1].now);
    assert |w.windows| >= STABLE_WINDOWS;
    StableSpeeds(w.windows);
  }

  /** The grace period of a window of `durationMs`: a record that leaves the detector
      unsettled comes within 30% of it, and within 5 s, plus one detector window; and what
      settles it within both is a stable speed. */
  lemma {:induction false} WarmUpOfWindow(durationMs: real, recs: seq<Record>)
    requires ValidRecords(recs) && durationMs >= 0.0 && recs != []
    ensures var w := WarmRun(MaxGrace(durationMs), recs);
            var elapsed := recs[|recs| - 1].now - recs[0].now;
            && (!w.settled ==> elapsed < 0.3 * durationMs + WINDOW_MS && elapsed < 5000.0 + WINDOW_MS)
            && (w.settled && !WarmRun(MaxGrace(durationMs), recs[..|recs| - 1]).settled
                && elapsed <= 0.3 * durationMs && elapsed <= 5000.0 ==>
                  var speeds := LastThree(Speeds(w.windows));
                  && |speeds| == STABLE_WINDOWS
                  && ((forall s | s in speeds :: s == 0.0) || PairwiseRatioBelow(speeds, 0.85, 1.15)))
  {
    hide WarmRun, LastThree, Speeds, PairwiseRatioBelow, ValidRecords;
    var grace := MaxGrace(durationMs);
    if !WarmRun(grace, recs).settled {
      UnsettledIsRecent(grace, recs);
    } else if !WarmRun(grace, recs[..|recs| - 1]).settled && recs[|recs| - 1].now - recs[0].now <= grace {
      SettlesOnStability(grace, recs);
    }
  }

  class WarmUpDetector {
    const maxGraceMs: real
    var windowBytes: real
    var windowStart: real
    var detectorStart: real
    var recentSpeeds: seq<real>
    var settled: bool
    ghost var windows: seq<ClosedWindow>

    ghost predicate Valid()
      reads this
    {
      recentSpeeds == Speeds(windows)
    }

    ghost function View(): WarmUp
      reads this
    {
      WarmUp(windowBytes, windowStart, detectorStart, windows, settled)
    }

    constructor (durationMs: real)
      ensures Valid() && View() == FreshWarmUp && maxGraceMs == MaxGrace(durationMs)
    {
      maxGraceMs := Min(durationMs * WARMUP_GRACE_RATIO, WARMUP_MAX_GRACE_MS);
      windowBytes, windowStart, detectorStart := 0.0, 0.0, 0.0;
      recentSpeeds, settled, windows := [], false, [];
    }

    method Record(bytes: real, now: real)
      requires Valid()
      modifies this
      ensures Valid() && View() == WarmRecord(old(View()), maxGraceMs, bytes, now)
    {
      hide CloseWindow;
      if settled { return; }
      if detectorStart == 0.0 {
        detectorStart := now;
        windowStart := now;
      }
      windowBytes := windowBytes + bytes;
      if now - windowStart >= WINDOW_MS {
        Close(now);
      }
    }

    method Close(now: real)
      requires Valid() && !settled && now - windowStart >= WINDOW_MS
      modifies this
      ensures Valid() && View() == CloseWindow(old(View()), maxGraceMs, now)
    {
      recentSpeeds := recentSpeeds + [Speed(Window(windowBytes, windowStart, now))];
      windows := windows + [Window(windowBytes, windowStart, now)];
      assert recentSpeeds == Speeds(windows);
      windowBytes := 0.0;
      windowStart := now;
      if |recentSpeeds| >= STABLE_WINDOWS {
        var recent := LastThree(recentSpeeds);
        var avg := Average(recent);
        if avg == 0.0 {
          settled := true;
          return;
        }
        if AllWithin(recent, avg, WARMUP_THRESHOLD) { settled := true; }
      }
      if now - detectorStart > maxGraceMs { settled := true; }
    }
  }

  lemma SteadyAverage(recent: seq<real>, v: real)
    requires |recent| == STABLE_WINDOWS && forall s | s in recent :: s == v
    ensures Average(recent) == v
  {
    assert recent[0] in recent && recent[1] in recent && recent[2] in recent;
    assert recent[0] == v && recent[1] == v && recent[2] == v;
    var one, two := recent[..1], recent[..2];
    assert one[..0] == [] && two[..1] == one;
    assert Sum(one) == v;
    assert Sum(two) == v + v;
    assert Sum(recent) == v + v + v;
  }

  /** Three windows in a row at the same speed, which may be 0, always end the warm-up. */
  lemma SteadySpeedSettles(ws: seq<ClosedWindow>, v: real, detectorStart: real, maxGrace: real, now: real)
    requires |ws| >= STABLE_WINDOWS && v >= 0.0 && forall s | s in LastThree(Speeds(ws)) :: s == v
    ensures SettlesNow(ws, detectorStart, maxGrace, now)
  {
    SteadyAverage(LastThree(Speeds(ws)), v);
  }

  // ----- early stop -----

  datatype EarlyStop = EarlyStop(windowBytes: real, windowStart: real, windows: seq<ClosedWindow>)

  const FreshEarlyStop := EarlyStop(0.0, 0.0, [])

  predicate Fires(ws: seq<ClosedWindow>) {
    var recent := LastThree(Speeds(ws));
    && |ws| >= STABLE_WINDOWS
    && Average(recent) > 0.0
    && AllWithin(recent, Average(recent), EARLY_STOP_THRESHOLD)
  }

  /** The record and whether it asks to stop; ignored while warm-up is not settled. */
  function EarlyRecord(e: EarlyStop, settled: bool, bytes: real, now: real): (EarlyStop, bool) {
    if !settled then (e, false)
    else
      var start := if e.windowStart == 0.0 then now else e.windowStart;
      if now - start < WINDOW_MS then (EarlyStop(e.windowBytes + bytes, start, e.windows), false)
      else
        var windows := e.windows + [Window(e.windowBytes + bytes, start, now)];
        (EarlyStop(0.0, now, windows), Fires(windows))
  }

  function EarlyRun(recs: seq<Record>): (EarlyStop, bool) {
    if recs == [] then (FreshEarlyStop, false)
    else
      var last := recs[|recs| - 1];
      EarlyRecord(EarlyRun(recs[..|recs| - 1]).0, true, last.bytes, last.now)
  }

  ghost predicate EarlyInv(e: EarlyStop, recs: seq<Record>) {
    && (e.windowStart == 0.0 <==> recs == [])
    && (recs != [] ==> recs[0].now + WINDOW_MS * |e.windows| as real <= e.windowStart)
  }

  lemma {:induction false} EarlyRunInv(recs: seq<Record>)
    requires ValidRecords(recs)
    ensures EarlyInv(EarlyRun(recs).0, recs)
  {
    if recs != [] {
      var init, last := recs[..|recs| - 1], recs[|recs| - 1];
      assert recs == init + [last];
      EarlyRunInv(init);
      assert last in recs;
    }
  }

  /** The early-stop windows hold all bytes recorded, tile the time since the first record,
      and close at a record 500 ms or more after they opened. It fires exactly at a record
      that closes a window and leaves the last three speeds stable. */
  lemma {:induction false} EarlyStopConservesBytes(recs: seq<Record>)
    requires ValidRecords(recs) && recs != []
    ensures var e, last := EarlyRun(recs).0, recs[|recs| - 1];
            && WindowBytes(e.windows) + e.windowBytes == BytesOf(recs)
            && EarlyTiles(e, recs[0].now)
            && last.now - e.windowStart < WINDOW_MS
            && (EarlyRun(recs).1 <==> |e.windows| > |EarlyRun(recs[..|recs| - 1]).0.windows| && Fires(e.windows))
  {
    hide WindowBytes, Fires, EarlyTiles, EarlyInv;
    var init, last := recs[..|recs| - 1], recs[|recs| - 1];
    assert recs == init + [last] && last in recs;
    EarlyRunStarts(init);
    if init != [] {
      EarlyStopConservesBytes(init);
    } else {
      NoBytesYet();
    }
    EarlyRecordAddsBytes(EarlyRun(init).0, last.bytes, last.now);
    EarlyRecordTiles(EarlyRun(init).0, recs[0].now, last.bytes, last.now);
  }

  ghost predicate EarlyTiles(e: EarlyStop, first: real) {
    && (forall i | 0 <= i < |e.windows| - 1 :: e.windows[i].to == e.windows[i + 1].from)
    && (if e.windows == [] then e.windowStart == first
        else e.windows[0].from == first && e.windows[|e.windows| - 1].to == e.windowStart)
  }

  lemma EarlyRunStarts(recs: seq<Record>)
    requires ValidRecords(recs)
    ensures EarlyRun(recs).0.windowStart == 0.0 <==> recs == []
    ensures recs == [] ==> EarlyRun(recs).0 == FreshEarlyStop
  {
    EarlyRunInv(recs);
  }

  lemma EarlyRecordTiles(e: EarlyStop, first: real, bytes: real, now: real)
    requires if e == FreshEarlyStop then now == first else e.windowStart != 0.0 && EarlyTiles(e, first)
    ensures EarlyTiles(EarlyRecord(e, true, bytes, now).0, first)
  {
    hide Fires;
  }

  lemma NoBytesYet()
    ensures WindowBytes([]) == 0.0 && BytesOf([]) == 0.0
  {
  }

  lemma EarlyRecordAddsBytes(e: EarlyStop, bytes: real, now: real)
    ensures var n := EarlyRecord(e, true, bytes, now).0;
            WindowBytes(n.windows) + n.windowBytes == WindowBytes(e.windows) + e.windowBytes + bytes
  {
    hide Fires;
    var n := EarlyRecord(e, true, bytes, now).0;
    if n.windows != e.windows {
      assert n.windows[..|n.windows| - 1] == e.windows;
    }
  }

  /** The early stop fires only on three positive window speeds any two of which
      differ by a ratio below 1.05/0.95, and at least 1500 ms after its first record. */
  lemma {:induction false} EarlyStopIsStable(recs: seq<Record>)
    requires ValidRecords(recs) && EarlyRun(recs).1
    ensures recs != [] && recs[|recs| - 1].now >= recs[0].now + 3.0 * WINDOW_MS
    ensures var speeds := LastThree(Speeds(EarlyRun(recs).0.windows));
            |speeds| == STABLE_WINDOWS && PairwiseRatioBelow(speeds, 0.95, 1.05)
  {
    EarlyRunInv(recs);
    var e := EarlyRun(recs).0;
    var speeds := LastThree(Speeds(e.windows));
    WithinBoundsRatio(speeds, Average(speeds), EARLY_STOP_THRESHOLD, 0.95, 1.05);
  }

  /** Three windows in a row at the same positive speed always ask to stop. */
  lemma SteadySpeedStops(ws: seq<ClosedWindow>, v: real)
    requires |ws| >= STABLE_WINDOWS && v > 0.0 && forall s | s in LastThree(Speeds(ws)) :: s == v
    ensures Fires(ws)
  {
    SteadyAverage(LastThree(Speeds(ws)), v);
  }

  class EarlyStopDetector {
    var windowBytes: real
    var windowStart: real
    var recentSpeeds: seq<real>
    ghost var windows: seq<ClosedWindow>

    ghost predicate Valid()
      reads this
    {
      recentSpeeds == Speeds(windows)
    }

    ghost function View(): EarlyStop
      reads this
    {
      EarlyStop(windowBytes, windowStart, windows)
    }

    constructor ()
      ensures Valid() && View() == FreshEarlyStop
    {
      windowBytes, windowStart, recentSpeeds, windows := 0.0, 0.0, [], [];
    }

    /** `settled` is the reading of the warm-up detector at the call. */
    method Record(settled: bool, bytes: real, now: real) returns (stop: bool)
      requires Valid()
      modifies this
      ensures Valid() && (View(), stop) == EarlyRecord(old(View()), settled, bytes, now)
      ensures !settled ==> !stop && View() == old(View())
    {
      if !settled { return false; }
      if windowStart == 0.0 { windowStart := now; }
      windowBytes := windowBytes + bytes;
      var elapsed := now - windowStart;
      if elapsed < WINDOW_MS { return false; }
      recentSpeeds := recentSpeeds + [Speed(Window(windowBytes, windowStart, now))];
      windows := windows + [Window(windowBytes, windowStart, now)];
      assert recentSpeeds == Speeds(windows);
      windowBytes := 0.0;
      windowStart := now;
      var recent := LastThree(recentSpeeds);
      if |recentSpeeds| < EARLY_STOP_MIN_WINDOWS || |recent| < STABLE_WINDOWS { return false; }
      var avg := Average(recent);
      if avg <= 0.0 { return false; }
      return AllWithin(recent, avg, EARLY_STOP_THRESHOLD);
    }
  }
}
