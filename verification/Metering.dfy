/** Byte accounting of one test window: the tick functions of
    web/speedtest-http-shared.js, for download and for upload. */
module Metering {
  import opened Options
  import opened Reals
  import opened Detectors

  /** What one tick changes: the byte counters, the detectors and the shared deadline. */
  datatype Meter = Meter(
    allBytes: real,
    totalBytes: real,
    measureStart: real,
    warm: WarmUp,
    early: EarlyStop,
    endTime: real)

  function FreshMeter(endTime: real): Meter {
    Meter(0.0, 0.0, 0.0, FreshWarmUp, FreshEarlyStop, endTime)
  }

  /** A completed upload request. */
  datatype Request = Request(bytes: real, start: real, end: real)

  // ----- the two ticks -----

  function WarmUpTick(m: Meter, maxGrace: real, bytes: real, now: real): Meter {
    var warm := WarmRecord(m.warm, maxGrace, bytes, now);
    if warm.settled then
      m.(allBytes := m.allBytes + bytes, warm := warm, totalBytes := 0.0, measureStart := now)
    else
      m.(allBytes := m.allBytes + bytes, warm := warm)
  }

  function EarlyStopTick(m: Meter, bytes: real, now: real): Meter {
    var (early, stop) := EarlyRecord(m.early, true, bytes, now);
    m.(early := early, endTime := if stop then Min(now, m.endTime) else m.endTime)
  }

  function DownloadTick(m: Meter, maxGrace: real, bytes: real, now: real): Meter {
    if !m.warm.settled then WarmUpTick(m, maxGrace, bytes, now)
    else
      EarlyStopTick(m.(allBytes := m.allBytes + bytes, totalBytes := m.totalBytes + bytes), bytes, now)
  }

  function MeasuredIntervalBytes(bytes: real, start: real, end: real, measureStart: real, measureEnd: real): (r: real)
    ensures bytes >= 0.0 ==> 0.0 <= r <= bytes
  {
    if bytes <= 0.0 then 0.0
    else if end - start <= 0.0 then 0.0
    else
      var overlapStart, overlapEnd := Max(start, measureStart), Min(end, measureEnd);
      if overlapEnd <= overlapStart then 0.0
      else
        var share := (overlapEnd - overlapStart) / (end - start);
        ShareOfInterval(bytes, overlapEnd - overlapStart, end - start);
        bytes * share
  }

  lemma ShareOfInterval(bytes: real, part: real, whole: real)
    requires bytes > 0.0 && 0.0 < part <= whole
    ensures 0.0 <= bytes * (part / whole) <= bytes
  {
    var share := part / whole;
    assert 0.0 <= share <= 1.0;
  }

  /** The credit is proportional: it adds up over adjacent windows, so nothing is counted
      twice or lost between them, and a request wholly inside the window counts in full. */
  lemma MeasuredIntervalSplits(bytes: real, start: real, end: real, from: real, mid: real, to: real)
    requires from <= mid <= to
    ensures MeasuredIntervalBytes(bytes, start, end, from, to)
         == MeasuredIntervalBytes(bytes, start, end, from, mid) + MeasuredIntervalBytes(bytes, start, end, mid, to)
    ensures bytes >= 0.0 && from <= start < end <= to ==> MeasuredIntervalBytes(bytes, start, end, from, to) == bytes
  {
    if bytes > 0.0 && start < end {
      CreditOf(bytes, start, end, from, to);
      CreditOf(bytes, start, end, from, mid);
      CreditOf(bytes, start, end, mid, to);
      SharesAdd(bytes / (end - start), Overlap(start, end, from, mid), Overlap(start, end, mid, to));
      assert bytes / (end - start) * (end - start) == bytes;
    }
  }

  function Overlap(start: real, end: real, from: real, to: real): real {
    Max(0.0, Min(end, to) - Max(start, from))
  }

  lemma CreditOf(bytes: real, start: real, end: real, from: real, to: real)
    requires bytes > 0.0 && start < end
    ensures MeasuredIntervalBytes(bytes, start, end, from, to) == bytes / (end - start) * Overlap(start, end, from, to)
  {
    ShareCommutes(bytes, Overlap(start, end, from, to), end - start);
  }

  lemma ShareCommutes(bytes: real, part: real, whole: real)
    requires whole > 0.0
    ensures bytes * (part / whole) == bytes / whole * part
  {
    var x, y := part / whole, bytes / whole;
    assert x * whole == part && y * whole == bytes;
    assert bytes * x == y * whole * x == y * part;
  }

  lemma SharesAdd(speed: real, a: real, b: real)
    ensures speed * (a + b) == speed * a + speed * b
  {
  }

  function UploadTick(m: Meter, maxGrace: real, r: Request): Meter {
    if !m.warm.settled then WarmUpTick(m, maxGrace, r.bytes, r.end)
    else
      var measureStart := if m.measureStart > 0.0 then m.measureStart else r.start;
      var measured := MeasuredIntervalBytes(r.bytes, r.start, r.end, measureStart, m.endTime);
      var counted := m.(allBytes := m.allBytes + r.bytes, totalBytes := m.totalBytes + measured);
      if measured > 0.0 then EarlyStopTick(counted, measured, r.end) else counted
  }

  // ----- runs of download ticks, in whatever order the clock readings come -----

  function DownloadRun(endTime: real, maxGrace: real, ticks: seq<Record>): Meter {
    if ticks == [] then FreshMeter(endTime)
    else
      var last := ticks[|ticks| - 1];
      DownloadTick(DownloadRun(endTime, maxGrace, ticks[..|ticks| - 1]), maxGrace, last.bytes, last.now)
  }

  /** What one download tick does. */
  lemma DownloadTickFrame(m: Meter, maxGrace: real, bytes: real, now: real)
    ensures var n := DownloadTick(m, maxGrace, bytes, now);
            && n.warm == WarmRecord(m.warm, maxGrace, bytes, now)
            && n.allBytes == m.allBytes + bytes && n.endTime <= m.endTime
            && (m.warm.settled ==> n.totalBytes == m.totalBytes + bytes && n.measureStart == m.measureStart)
            && (!m.warm.settled ==> n.endTime == m.endTime)
            && (!m.warm.settled && n.warm.settled ==> n.measureStart == now && n.totalBytes == 0.0)
            && (!n.warm.settled ==> n.measureStart == m.measureStart && n.totalBytes == m.totalBytes)
  {
    hide EarlyRecord, CloseWindow;
  }

  /** allBytes is the bytes up to and including the settling tick plus totalBytes;
      the measurement starts once, at the settling tick; the deadline only moves back. */
  lemma {:induction false} DownloadConserves(endTime: real, maxGrace: real, ticks: seq<Record>)
    requires ValidRecords(ticks)
    ensures var m, k := DownloadRun(endTime, maxGrace, ticks), Taken(maxGrace, ticks);
            && m.warm == WarmRun(maxGrace, ticks)
            && m.allBytes == BytesOf(ticks)
            && m.allBytes == BytesOf(ticks[..k]) + m.totalBytes
            && (!m.warm.settled ==> m.measureStart == 0.0 && m.totalBytes == 0.0 && m.endTime == endTime)
            && (m.warm.settled ==> 0 < k && m.measureStart == ticks[k - 1].now)
            && m.endTime <= endTime
  {
    hide WarmRecord, DownloadTick, WindowBytes;
    if ticks != [] {
      var init, last := ticks[..|ticks| - 1], ticks[|ticks| - 1];
      assert last in ticks && forall r | r in init :: r in ticks;
      DownloadConserves(endTime, maxGrace, init);
      DownloadTickFrame(DownloadRun(endTime, maxGrace, init), maxGrace, last.bytes, last.now);
      SettledIgnores(WarmRun(maxGrace, init), maxGrace, last.bytes, last.now);
      var k0, k := Taken(maxGrace, init), Taken(maxGrace, ticks);
      if WarmRun(maxGrace, init).settled {
        assert ticks[..k] == init[..k0];
      } else {
        WarmUpConservesBytes(maxGrace, init);
        assert init[..k0] == init && ticks[..k] == ticks;
      }
    }
  }

  /** `deadline` is the least of `initial` and the times at which the early stop fires on `recs`. */
  ghost predicate LeastDeadline(deadline: real, initial: real, recs: seq<Record>) {
    && deadline <= initial
    && (forall n | 0 <= n < |recs| && FiresAt(recs, n) :: deadline <= recs[n].now)
    && (deadline < initial ==> exists n | 0 <= n < |recs| && FiresAt(recs, n) :: deadline == recs[n].now)
  }

  /** The early-stop detector asks to stop at record n. */
  ghost predicate FiresAt(recs: seq<Record>, n: nat)
    requires n < |recs|
  {
    EarlyRun(recs[..n + 1]).1
  }

  lemma FiresAtExtends(recs: seq<Record>, r: Record)
    ensures forall n | 0 <= n < |recs| :: FiresAt(recs + [r], n) <==> FiresAt(recs, n)
    ensures FiresAt(recs + [r], |recs|) <==> EarlyRecord(EarlyRun(recs).0, true, r.bytes, r.now).1
    ensures EarlyRun(recs + [r]) == EarlyRecord(EarlyRun(recs).0, true, r.bytes, r.now)
  {
    hide EarlyRecord;
    var longer := recs + [r];
    assert longer[..|recs| + 1] == longer && longer[..|recs|] == recs;
    forall n | 0 <= n < |recs|
      ensures FiresAt(longer, n) <==> FiresAt(recs, n)
    {
      assert longer[..n + 1] == recs[..n + 1];
    }
  }

  /** One more record: its early stop moves the deadline to it, unless it is earlier already. */
  lemma EarlyStopTickKeepsLeast(m: Meter, initial: real, recs: seq<Record>, r: Record)
    requires m.early == EarlyRun(recs).0 && LeastDeadline(m.endTime, initial, recs)
    ensures var n := EarlyStopTick(m, r.bytes, r.now);
            n.early == EarlyRun(recs + [r]).0 && LeastDeadline(n.endTime, initial, recs + [r])
  {
    hide EarlyRecord, EarlyRun, FiresAt;
    FiresAtExtends(recs, r);
    var n, longer := EarlyStopTick(m, r.bytes, r.now), recs + [r];
    assert longer[|recs|] == r && forall i | 0 <= i < |recs| :: longer[i] == recs[i];
  }

  lemma NothingFires(endTime: real)
    ensures FreshMeter(endTime).early == EarlyRun([]).0 && LeastDeadline(endTime, endTime, [])
  {
  }

  lemma MeasuringDownloadTick(m: Meter, maxGrace: real, bytes: real, now: real)
    ensures var n, stopped := DownloadTick(m, maxGrace, bytes, now), EarlyStopTick(m, bytes, now);
            && (m.warm.settled ==> n.early == stopped.early && n.endTime == stopped.endTime)
            && (!m.warm.settled ==> n.early == m.early && n.endTime == m.endTime)
  {
    hide EarlyRecord, WarmRecord;
  }

  /** The deadline is lowered by the early stops and by nothing else: the detector sees the
      ticks after the settling one, and the deadline is the least of the initial one and the
      times of the ticks at which it asks to stop. */
  lemma {:induction false} DownloadStopsEarly(endTime: real, maxGrace: real, ticks: seq<Record>)
    requires ValidRecords(ticks)
    ensures var m, k := DownloadRun(endTime, maxGrace, ticks), Taken(maxGrace, ticks);
            m.early == EarlyRun(ticks[k..]).0 && LeastDeadline(m.endTime, endTime, ticks[k..])
  {
    hide WarmRecord, DownloadTick, EarlyStopTick, EarlyRun, LeastDeadline, BytesOf;
    NothingFires(endTime);
    if ticks != [] {
      var init, last := ticks[..|ticks| - 1], ticks[|ticks| - 1];
      assert forall r | r in init :: r in ticks;
      DownloadStopsEarly(endTime, maxGrace, init);
      DownloadConserves(endTime, maxGrace, init);
      WarmUpConservesBytes(maxGrace, init);
      var m, k := DownloadRun(endTime, maxGrace, init), Taken(maxGrace, init);
      MeasuringDownloadTick(m, maxGrace, last.bytes, last.now);
      if m.warm.settled {
        EarlyStopTickKeepsLeast(m, endTime, init[k..], last);
        assert ticks[k..] == init[k..] + [last];
      } else {
        assert init[k..] == [] && ticks[|ticks|..] == [];
      }
    }
  }

  lemma {:induction false} CountedIsNonNegative(recs: seq<Record>, k: nat)
    requires ValidRecords(recs) && k <= |recs|
    ensures BytesOf(recs[..k]) <= BytesOf(recs)
    decreases |recs|
  {
    if k < |recs| {
      var init := recs[..|recs| - 1];
      assert init[..k] == recs[..k] && recs[|recs| - 1] in recs && forall r | r in init :: r in recs;
      CountedIsNonNegative(init, k);
    } else {
      assert recs[..k] == recs;
    }
  }

  /** Later ticks never raise the deadline and never move the start of the measurement. */
  lemma {:induction false} DownloadDeadlineAndStartAreFixed(
      endTime: real, maxGrace: real, ticks: seq<Record>, k: nat)
    requires ValidRecords(ticks) && k <= |ticks|
    ensures var before, after := DownloadRun(endTime, maxGrace, ticks[..k]), DownloadRun(endTime, maxGrace, ticks);
            && after.endTime <= before.endTime
            && (before.measureStart != 0.0 ==> after.measureStart == before.measureStart)
    decreases |ticks|
  {
    if k == |ticks| {
      assert ticks[..k] == ticks;
    } else {
      var init := ticks[..|ticks| - 1];
      assert init[..k] == ticks[..k];
      assert forall r | r in init :: r in ticks;
      DownloadDeadlineAndStartAreFixed(endTime, maxGrace, init, k);
      DownloadConserves(endTime, maxGrace, init);
    }
  }

  // ----- runs of upload ticks -----

  function UploadRun(endTime: real, maxGrace: real, ticks: seq<Request>): Meter {
    if ticks == [] then FreshMeter(endTime)
    else UploadTick(UploadRun(endTime, maxGrace, ticks[..|ticks| - 1]), maxGrace, ticks[|ticks| - 1])
  }

  ghost predicate ValidRequests(ticks: seq<Request>) {
    forall r | r in ticks :: r.bytes >= 0.0 && 0.0 < r.start <= r.end
  }

  /** Upload completions are sampled at the tick, so their ends never go back. */
  ghost predicate EndsInOrder(ticks: seq<Request>) {
    forall i, j | 0 <= i <= j < |ticks| :: ticks[i].end <= ticks[j].end
  }

  lemma InOrderSplit(ticks: seq<Request>)
    requires ticks != [] && EndsInOrder(ticks) && ValidRequests(ticks)
    ensures var init, last := ticks[..|ticks| - 1], ticks[|ticks| - 1];
            EndsInOrder(init) && ValidRequests(init) && forall r | r in init :: r.end <= last.end
  {
    var init, last := ticks[..|ticks| - 1], ticks[|ticks| - 1];
    assert forall i | 0 <= i < |init| :: init[i] == ticks[i] && ticks[i].end <= last.end;
  }

  function Completions(ticks: seq<Request>): (recs: seq<Record>)
    ensures |recs| == |ticks|
  {
    seq(|ticks|, i requires 0 <= i < |ticks| => Record(ticks[i].bytes, ticks[i].end))
  }

  /** What an observer who knows the whole measured window from the start would count. */
  function OfflineBytes(ticks: seq<Request>, measureStart: real, measureEnd: real): real {
    if ticks == [] then 0.0
    else
      var last := ticks[|ticks| - 1];
      OfflineBytes(ticks[..|ticks| - 1], measureStart, measureEnd)
      + MeasuredIntervalBytes(last.bytes, last.start, last.end, measureStart, measureEnd)
  }

  /** What one upload tick does, apart from how much it counts. */
  lemma UploadTickFrame(m: Meter, maxGrace: real, r: Request)
    ensures var n := UploadTick(m, maxGrace, r);
            && n.warm == WarmRecord(m.warm, maxGrace, r.bytes, r.end)
            && n.allBytes == m.allBytes + r.bytes
            && (m.warm.settled ==> n.warm == m.warm && n.measureStart == m.measureStart)
            && (m.warm.settled ==> n.endTime == m.endTime || n.endTime == Min(r.end, m.endTime))
            && (!m.warm.settled ==> n.endTime == m.endTime)
            && (!m.warm.settled && n.warm.settled ==> n.measureStart == r.end && n.totalBytes == 0.0)
            && (!n.warm.settled ==> n.measureStart == m.measureStart && n.totalBytes == m.totalBytes)
  {
    hide EarlyRecord, MeasuredIntervalBytes, CloseWindow;
  }

  /** While measuring, a tick counts its share of the window as it stands afterwards. */
  lemma MeasuringTickCounts(m: Meter, maxGrace: real, r: Request)
    requires m.warm.settled && m.measureStart > 0.0
    ensures var n := UploadTick(m, maxGrace, r);
            n.totalBytes == m.totalBytes + MeasuredIntervalBytes(r.bytes, r.start, r.end, m.measureStart, n.endTime)
  {
    hide EarlyRecord, WarmRecord;
  }

  lemma {:induction false} OfflineIgnoresLaterDeadline(
      ticks: seq<Request>, measureStart: real, measureEnd: real, cut: real)
    requires forall r | r in ticks :: r.end <= cut
    ensures OfflineBytes(ticks, measureStart, measureEnd) == OfflineBytes(ticks, measureStart, Min(cut, measureEnd))
  {
    if ticks != [] {
      var init, last := ticks[..|ticks| - 1], ticks[|ticks| - 1];
      hide MeasuredIntervalBytes;
      assert last in ticks && forall r | r in init :: r in ticks;
      OfflineIgnoresLaterDeadline(init, measureStart, measureEnd, cut);
      EndsBeforeDeadline(last, measureStart, measureEnd, cut);
    }
  }

  lemma EndsBeforeDeadline(r: Request, measureStart: real, measureEnd: real, cut: real)
    requires r.end <= cut
    ensures MeasuredIntervalBytes(r.bytes, r.start, r.end, measureStart, measureEnd)
         == MeasuredIntervalBytes(r.bytes, r.start, r.end, measureStart, Min(cut, measureEnd))
  {
    assert Min(r.end, measureEnd) == Min(r.end, Min(cut, measureEnd));
  }

  /** Adding the latest completion, possibly together with an earlier deadline. */
  lemma OfflineStep(ticks: seq<Request>, last: Request, measureStart: real, endBefore: real, endAfter: real)
    requires forall r | r in ticks :: r.end <= last.end
    requires endAfter == endBefore || endAfter == Min(last.end, endBefore)
    ensures OfflineBytes(ticks + [last], measureStart, endAfter)
         == OfflineBytes(ticks, measureStart, endBefore)
            + MeasuredIntervalBytes(last.bytes, last.start, last.end, measureStart, endAfter)
  {
    hide MeasuredIntervalBytes;
    OfflineIgnoresLaterDeadline(ticks, measureStart, endBefore, last.end);
    assert (ticks + [last])[..|ticks|] == ticks;
  }

  /** Where an upload run stands, without the total. */
  lemma {:induction false} UploadProgress(endTime: real, maxGrace: real, ticks: seq<Request>)
    requires ValidRequests(ticks)
    ensures var m, k := UploadRun(endTime, maxGrace, ticks), Taken(maxGrace, Completions(ticks));
            && m.warm == WarmRun(maxGrace, Completions(ticks))
            && m.allBytes == BytesOf(Completions(ticks))
            && (!m.warm.settled ==>
                  k == |ticks| && m.measureStart == 0.0 && m.totalBytes == 0.0 && m.endTime == endTime)
            && (m.warm.settled ==> 0 < k <= |ticks| && m.measureStart == ticks[k - 1].end)
            && m.endTime <= endTime
  {
    hide WarmRecord, UploadTick;
    if ticks != [] {
      var init, last := ticks[..|ticks| - 1], ticks[|ticks| - 1];
      assert last in ticks && forall r | r in init :: r in ticks;
      UploadProgress(endTime, maxGrace, init);
      UploadTickFrame(UploadRun(endTime, maxGrace, init), maxGrace, last);
      assert Completions(ticks)[..|ticks| - 1] == Completions(init);
      WarmUpConservesBytes(maxGrace, Completions(init));
    }
  }

  lemma TakenStep(maxGrace: real, ticks: seq<Request>)
    requires ticks != []
    ensures var init := Completions(ticks[..|ticks| - 1]);
            Taken(maxGrace, Completions(ticks)) == if WarmRun(maxGrace, init).settled then Taken(maxGrace, init)
              else |ticks|
  {
    assert Completions(ticks)[..|ticks| - 1] == Completions(ticks[..|ticks| - 1]);
  }

  lemma CountedTickIsOffline(m: Meter, maxGrace: real, ticks: seq<Request>, last: Request)
    requires m.warm.settled && m.measureStart > 0.0 && forall r | r in ticks :: r.end <= last.end
    requires m.totalBytes == OfflineBytes(ticks, m.measureStart, m.endTime)
    ensures var n := UploadTick(m, maxGrace, last);
            n.measureStart == m.measureStart && n.totalBytes == OfflineBytes(ticks + [last], n.measureStart, n.endTime)
  {
    hide UploadTick, OfflineBytes, MeasuredIntervalBytes;
    UploadTickFrame(m, maxGrace, last);
    MeasuringTickCounts(m, maxGrace, last);
    OfflineStep(ticks, last, m.measureStart, m.endTime, UploadTick(m, maxGrace, last).endTime);
  }

  /** The same for upload: later requests never raise the deadline and never move the
      start of the measurement. */
  lemma {:induction false} UploadDeadlineAndStartAreFixed(
      endTime: real, maxGrace: real, ticks: seq<Request>, k: nat)
    requires ValidRequests(ticks) && k <= |ticks|
    ensures var before, after := UploadRun(endTime, maxGrace, ticks[..k]), UploadRun(endTime, maxGrace, ticks);
            && after.endTime <= before.endTime
            && (before.measureStart != 0.0 ==> after.measureStart == before.measureStart)
    decreases |ticks|
  {
    hide UploadTick, WarmRecord;
    if k == |ticks| {
      assert ticks[..k] == ticks;
    } else {
      var init, last := ticks[..|ticks| - 1], ticks[|ticks| - 1];
      assert init[..k] == ticks[..k];
      assert forall r | r in init :: r in ticks;
      UploadDeadlineAndStartAreFixed(endTime, maxGrace, init, k);
      UploadProgress(endTime, maxGrace, init);
      UploadTickFrame(UploadRun(endTime, maxGrace, init), maxGrace, last);
    }
  }

  /** What the early-stop detector of an upload gets to see: for each request after settling
      with a positive credit in the window as it stood then, the credit and the end. */
  function Credited(endTime: real, maxGrace: real, ticks: seq<Request>): seq<Record> {
    if ticks == [] then []
    else
      var init, last := ticks[..|ticks| - 1], ticks[|ticks| - 1];
      var m := UploadRun(endTime, maxGrace, init);
      var credit := MeasuredIntervalBytes(last.bytes, last.start, last.end, m.measureStart, m.endTime);
      Credited(endTime, maxGrace, init) + if m.warm.settled && credit > 0.0 then [Record(credit, last.end)] else []
  }

  lemma MeasuringUploadTick(m: Meter, maxGrace: real, r: Request)
    requires m.warm.settled ==> m.measureStart > 0.0
    ensures var n := UploadTick(m, maxGrace, r);
            var credit := MeasuredIntervalBytes(r.bytes, r.start, r.end, m.measureStart, m.endTime);
            var stopped := EarlyStopTick(m, credit, r.end);
            if m.warm.settled && credit > 0.0 then n.early == stopped.early && n.endTime == stopped.endTime
            else n.early == m.early && n.endTime == m.endTime
  {
    hide EarlyRecord, WarmRecord, MeasuredIntervalBytes;
  }

  /** The same for upload: the detector sees the credited requests, and the deadline is the
      least of the initial one and the ends of those at which it asks to stop. */
  lemma {:induction false} UploadStopsEarly(endTime: real, maxGrace: real, ticks: seq<Request>)
    requires ValidRequests(ticks)
    ensures var m, seen := UploadRun(endTime, maxGrace, ticks), Credited(endTime, maxGrace, ticks);
            m.early == EarlyRun(seen).0 && LeastDeadline(m.endTime, endTime, seen)
  {
    hide WarmRecord, UploadTick, EarlyStopTick, EarlyRun, LeastDeadline, MeasuredIntervalBytes, WarmRun, Completions;
    NothingFires(endTime);
    if ticks != [] {
      var init, last := ticks[..|ticks| - 1], ticks[|ticks| - 1];
      assert forall r | r in init :: r in ticks;
      UploadStopsEarly(endTime, maxGrace, init);
      SettlesWithStart(endTime, maxGrace, init);
      var m, seen := UploadRun(endTime, maxGrace, init), Credited(endTime, maxGrace, init);
      MeasuringUploadTick(m, maxGrace, last);
      var credit := MeasuredIntervalBytes(last.bytes, last.start, last.end, m.measureStart, m.endTime);
      EarlyStopTickKeepsLeast(m, endTime, seen, Record(credit, last.end));
      assert seen + [] == seen;
    }
  }

  /** The requests completed after the warm-up has settled. */
  function Counted(maxGrace: real, ticks: seq<Request>): seq<Request> {
    ticks[Taken(maxGrace, Completions(ticks))..]
  }

  lemma CountedStep(maxGrace: real, ticks: seq<Request>)
    requires ticks != []
    ensures var init, last := ticks[..|ticks| - 1], ticks[|ticks| - 1];
            && Counted(maxGrace, ticks) == (if WarmRun(maxGrace, Completions(init)).settled
                                            then Counted(maxGrace, init) + [last] else [])
            && forall r | r in Counted(maxGrace, init) :: r in init
  {
    hide Taken, Completions, WarmRun;
    TakenStep(maxGrace, ticks);
  }

  lemma NothingCounted(maxGrace: real, measureStart: real, measureEnd: real)
    ensures Counted(maxGrace, []) == [] && OfflineBytes([], measureStart, measureEnd) == 0.0
    ensures FreshMeter(measureEnd).totalBytes == 0.0
  {
  }

  lemma {:induction false} TotalIsCounted(endTime: real, maxGrace: real, ticks: seq<Request>)
    requires ValidRequests(ticks) && EndsInOrder(ticks)
    ensures var m := UploadRun(endTime, maxGrace, ticks);
            m.totalBytes == OfflineBytes(Counted(maxGrace, ticks), m.measureStart, m.endTime)
  {
    hide WarmRecord, UploadTick, MeasuredIntervalBytes, WarmRun, BytesOf, OfflineBytes, EndsInOrder, ValidRequests,
      Taken, Completions, Counted;
    var m := UploadRun(endTime, maxGrace, ticks);
    NothingCounted(maxGrace, m.measureStart, m.endTime);
    if ticks != [] {
      var init, last := ticks[..|ticks| - 1], ticks[|ticks| - 1];
      InOrderSplit(ticks);
      TotalIsCounted(endTime, maxGrace, init);
      CountedStep(maxGrace, ticks);
      SettlesWithStart(endTime, maxGrace, init);
      SettlesWithStart(endTime, maxGrace, ticks);
      var before := UploadRun(endTime, maxGrace, init);
      if before.warm.settled {
        CountedTickIsOffline(before, maxGrace, Counted(maxGrace, init), last);
      } else {
        UploadTickFrame(before, maxGrace, last);
      }
    }
  }

  lemma SettlesWithStart(endTime: real, maxGrace: real, ticks: seq<Request>)
    requires ValidRequests(ticks)
    ensures var m := UploadRun(endTime, maxGrace, ticks);
            && m.warm.settled == WarmRun(maxGrace, Completions(ticks)).settled
            && (m.warm.settled ==> m.measureStart > 0.0)
            && (!m.warm.settled ==> m.totalBytes == 0.0)
  {
    hide UploadRun, WarmRun, BytesOf;
    UploadProgress(endTime, maxGrace, ticks);
    if WarmRun(maxGrace, Completions(ticks)).settled {
      assert ticks[Taken(maxGrace, Completions(ticks)) - 1] in ticks;
    }
  }

  /** The online total, accumulated while the deadline was still moving, equals the
      offline count over the window between the settling tick and the final deadline. */
  lemma UploadTotalIsOffline(endTime: real, maxGrace: real, ticks: seq<Request>)
    requires ValidRequests(ticks) && EndsInOrder(ticks)
    ensures var m, k := UploadRun(endTime, maxGrace, ticks), Taken(maxGrace, Completions(ticks));
            m.totalBytes == OfflineBytes(ticks[k..], m.measureStart, m.endTime)
  {
    hide UploadRun, Taken, Completions, OfflineBytes, EndsInOrder, ValidRequests;
    TotalIsCounted(endTime, maxGrace, ticks);
  }

  lemma {:induction false} OfflineAtMostBytes(ticks: seq<Request>, measureStart: real, measureEnd: real)
    requires ValidRequests(ticks)
    ensures 0.0 <= OfflineBytes(ticks, measureStart, measureEnd) <= BytesOf(Completions(ticks))
  {
    if ticks != [] {
      var init, last := ticks[..|ticks| - 1], ticks[|ticks| - 1];
      assert last in ticks && forall r | r in init :: r in ticks;
      OfflineAtMostBytes(init, measureStart, measureEnd);
      assert Completions(ticks)[..|ticks| - 1] == Completions(init);
    }
  }

  /** totalBytes never exceeds what the requests completed after settling moved. */
  lemma UploadTotalAtMostPostSettle(endTime: real, maxGrace: real, ticks: seq<Request>)
    requires ValidRequests(ticks) && EndsInOrder(ticks)
    ensures var k := Taken(maxGrace, Completions(ticks));
            0.0 <= UploadRun(endTime, maxGrace, ticks).totalBytes <= BytesOf(Completions(ticks[k..]))
  {
    UploadTotalIsOffline(endTime, maxGrace, ticks);
    var m, k := UploadRun(endTime, maxGrace, ticks), Taken(maxGrace, Completions(ticks));
    assert forall r | r in ticks[k..] :: r in ticks;
    OfflineAtMostBytes(ticks[k..], m.measureStart, m.endTime);
  }

  // ----- closing a window -----

  const MIN_MEASURE_SECONDS := 0.001

  datatype Error = NetworkError | Overloaded | NoStreams | Other

  datatype Outcome = Speed(mbps: real) | Failed(error: Error)

  /** The error raised when nothing was counted, if any; network errors win over overload. */
  function ThrowIfZeroBytes(sawNetworkError: bool, sawOverload: bool, successfulStreams: nat,
    totalBytes: real): Option<Error> {
    if totalBytes > 0.0 then None
    else if sawNetworkError then Some(NetworkError)
    else if sawOverload then Some(Overloaded)
    else if successfulStreams == 0 then Some(NoStreams)
    else None
  }

  /** How long a window that opened at `startTime` and closes at `t` measured. */
  function MeasureSeconds(m: Meter, startTime: real, t: real): real {
    var endNow := Min(t, m.endTime);
    var actualStart := if m.measureStart > 0.0 then m.measureStart else startTime;
    Max(MIN_MEASURE_SECONDS, (endNow - actualStart) / 1000.0)
  }

  lemma MeasuresSomething(m: Meter, startTime: real, t: real)
    ensures MeasureSeconds(m, startTime, t) >= MIN_MEASURE_SECONDS
  {
  }

  /** What a window returns once all its streams have ended without throwing. */
  function CloseWindowAt(m: Meter, startTime: real, t: real, sawNetworkError: bool, sawOverload: bool,
                         successfulStreams: nat, isRamp: bool): Outcome {
    var avgSpeed := (m.totalBytes * 8.0) / MeasureSeconds(m, startTime, t) / 1000000.0;
    var error := ThrowIfZeroBytes(sawNetworkError, sawOverload, successfulStreams, m.totalBytes);
    if error.Some? then Failed(error.value)
    else if isRamp && sawOverload then Failed(Overloaded)
    else Speed(Max(avgSpeed, 0.0))
  }

  /** `mbps` is `bytes` over the time from `from` to `to`, or over 1 ms if that is shorter. */
  ghost predicate SpeedOver(mbps: real, bytes: real, from: real, to: real) {
    mbps * Max(1.0, to - from) * 1000.0 == bytes * 8.0
  }

  /** A window fails exactly when a ramp met overload, or when it counted nothing and its
      streams saw an error or none of them succeeded. A reported speed is the counted bytes
      over the time from the start of the measurement, or of the window if there is none,
      to the closing or the deadline, whichever is earlier: streams that drain past the
      deadline do not dilute it. */
  lemma WindowFailsIff(m: Meter, startTime: real, t: real, sawNetworkError: bool, sawOverload: bool,
                       successfulStreams: nat, isRamp: bool)
    requires m.totalBytes >= 0.0
    ensures var r := CloseWindowAt(m, startTime, t, sawNetworkError, sawOverload, successfulStreams, isRamp);
            && (r.Failed? <==>
                  || (isRamp && sawOverload)
                  || (m.totalBytes == 0.0 && (sawNetworkError || sawOverload || successfulStreams == 0)))
            && (r.Failed? && m.totalBytes == 0.0 ==>
                  r.error == if sawNetworkError then NetworkError else if sawOverload then Overloaded else NoStreams)
            && (r.Failed? && m.totalBytes > 0.0 ==> r.error == Overloaded)
            && (r.Speed? ==>
                  SpeedOver(r.mbps, m.totalBytes, if m.measureStart > 0.0 then m.measureStart else startTime,
                            Min(t, m.endTime)))
            && (t >= m.endTime ==>
                  r == CloseWindowAt(m, startTime, m.endTime, sawNetworkError, sawOverload, successfulStreams, isRamp))
  {
    MeasuresSomething(m, startTime, t);
    SpeedTimesSeconds(m.totalBytes, MeasureSeconds(m, startTime, t));
  }

  lemma NoBytesNoSpeed(mbps: real, from: real, to: real)
    requires SpeedOver(mbps, 0.0, from, to)
    ensures mbps == 0.0
  {
  }

  lemma SpeedTimesSeconds(total: real, seconds: real)
    requires total >= 0.0 && seconds > 0.0
    ensures var mbps := (total * 8.0) / seconds / 1000000.0;
            mbps >= 0.0 && mbps * seconds * 1000000.0 == total * 8.0
  {
    var bps := (total * 8.0) / seconds;
    assert bps * seconds == total * 8.0;
  }

  // ----- the mutable objects the two tick functions work on -----

  class MetricsState {
    var allBytes: real
    var totalBytes: real
    var measureStartTime: real

    constructor ()
      ensures allBytes == totalBytes == measureStartTime == 0.0
    {
      allBytes, totalBytes, measureStartTime := 0.0, 0.0, 0.0;
    }
  }

  class EndTimeRef {
    var value: real

    constructor (value: real)
      ensures this.value == value
    {
      this.value := value;
    }
  }

  ghost function MeterOf(metrics: MetricsState, warmUp: WarmUpDetector, earlyStop: EarlyStopDetector,
    endTimeRef: EndTimeRef): Meter
    reads metrics, warmUp, earlyStop, endTimeRef
  {
    Meter(metrics.allBytes, metrics.totalBytes, metrics.measureStartTime,
          warmUp.View(), earlyStop.View(), endTimeRef.value)
  }

  /** Returns the byte count handed to the progress callback. */
  method ApplyHttpMeasureTick(
      metrics: MetricsState, warmUp: WarmUpDetector, byteCount: real, now: real,
      earlyStop: EarlyStopDetector, endTimeRef: EndTimeRef)
    returns (displayBytes: real)
    requires warmUp.Valid() && earlyStop.Valid()
    modifies metrics, warmUp, earlyStop, endTimeRef
    ensures warmUp.Valid() && earlyStop.Valid()
    ensures MeterOf(metrics, warmUp, earlyStop, endTimeRef)
         == DownloadTick(old(MeterOf(metrics, warmUp, earlyStop, endTimeRef)), warmUp.maxGraceMs, byteCount, now)
    ensures var stop := old(warmUp.settled) && EarlyRecord(old(earlyStop.View()), true, byteCount, now).1;
            endTimeRef.value == if stop then Min(now, old(endTimeRef.value)) else old(endTimeRef.value)
    ensures displayBytes == if old(warmUp.settled) then metrics.totalBytes else metrics.allBytes
  {
    hide WarmRecord, EarlyRecord;
    var measuring := warmUp.settled;
    metrics.allBytes := metrics.allBytes + byteCount;
    if measuring {
      metrics.totalBytes := metrics.totalBytes + byteCount;
    } else {
      warmUp.Record(byteCount, now);
      if warmUp.settled {
        metrics.totalBytes := 0.0;
        metrics.measureStartTime := now;
      }
    }
    if measuring {
      var stop := earlyStop.Record(warmUp.settled, byteCount, now);
      if stop { endTimeRef.value := Min(now, endTimeRef.value); }
    }
    displayBytes := if measuring then metrics.totalBytes else metrics.allBytes;
  }

  method ApplyHttpMeasureIntervalTick(
      metrics: MetricsState, warmUp: WarmUpDetector, byteCount: real, intervalStart: real, intervalEnd: real,
      earlyStop: EarlyStopDetector, endTimeRef: EndTimeRef)
    returns (displayBytes: real)
    requires warmUp.Valid() && earlyStop.Valid()
    modifies metrics, warmUp, earlyStop, endTimeRef
    ensures warmUp.Valid() && earlyStop.Valid()
    ensures MeterOf(metrics, warmUp, earlyStop, endTimeRef)
         == UploadTick(old(MeterOf(metrics, warmUp, earlyStop, endTimeRef)), warmUp.maxGraceMs,
                       Request(byteCount, intervalStart, intervalEnd))
    ensures old(warmUp.settled) && old(metrics.measureStartTime) > 0.0 ==>
              var measured := metrics.totalBytes - old(metrics.totalBytes);
              var stop := measured > 0.0 && EarlyRecord(old(earlyStop.View()), true, measured, intervalEnd).1;
              endTimeRef.value == if stop then Min(intervalEnd, old(endTimeRef.value)) else old(endTimeRef.value)
    ensures displayBytes == if old(warmUp.settled) then metrics.totalBytes else metrics.allBytes
  {
    hide WarmRecord, EarlyRecord, MeasuredIntervalBytes;
    var wasMeasuring := warmUp.settled;
    metrics.allBytes := metrics.allBytes + byteCount;
    if wasMeasuring {
      var measureStart := if metrics.measureStartTime > 0.0 then metrics.measureStartTime else intervalStart;
      var measuredBytes :=
        MeasuredIntervalBytes(byteCount, intervalStart, intervalEnd, measureStart, endTimeRef.value);
      metrics.totalBytes := metrics.totalBytes + measuredBytes;
      if measuredBytes > 0.0 {
        var stop := earlyStop.Record(warmUp.settled, measuredBytes, intervalEnd);
        if stop { endTimeRef.value := Min(intervalEnd, endTimeRef.value); }
      }
    } else {
      warmUp.Record(byteCount, intervalEnd);
      if warmUp.settled {
        metrics.totalBytes := 0.0;
        metrics.measureStartTime := intervalEnd;
      }
    }
    displayBytes := if wasMeasuring then metrics.totalBytes else metrics.allBytes;
  }
}
