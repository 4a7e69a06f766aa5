/** One download window of web/speedtest-http-download.js: several read loops that share
    one meter. A loop samples the clock before the read it waits for, so the times that
    reach the meter may be out of order across streams. */
module DownloadWindow {
  import opened Options
  import opened Reals
  import opened Detectors
  import opened Metering

  /** `reading[i]` is the clock sample of stream i's pending read, if it has one. */
  datatype Session = Session(
    startTime: real,
    maxGrace: real,
    now: real,
    aborted: bool,
    reading: seq<Option<real>>,
    meter: Meter,
    log: seq<Record>)

  /** What can happen at time `t`; `i` is the stream it happens to. */
  datatype Event =
    | Sample(i: nat, t: real)
    | Chunk(i: nat, bytes: real, t: real)
    | EndRead(i: nat, t: real)
    | Abort(t: real)

  function OpenWindow(startTime: real, duration: real, streams: nat): Session {
    Session(startTime, MaxGrace(duration * 1000.0), startTime, false, seq(streams, i => None),
           FreshMeter(startTime + duration * 1000.0), [])
  }

  predicate Enabled(w: Session, e: Event) {
    && w.now <= e.t
    && (!e.Abort? ==> e.i < |w.reading|)
    && match e {
         case Sample(i, _) => w.reading[i].None?
         case Chunk(i, bytes, _) => w.reading[i].Some? && bytes >= 0.0
         case EndRead(i, _) => w.reading[i].Some?
         case Abort(_) => true
       }
  }

  /** One scheduling step. A loop that finds the signal aborted, or the deadline passed,
      reads no further; a new request of the stream would only come back to the same test. */
  function Step(w: Session, e: Event): Session {
    if !Enabled(w, e) then w
    else
      var w1 := w.(now := e.t);
      match e {
        case Sample(i, t) =>
          if w.aborted || t >= w.meter.endTime then w1 else w1.(reading := w.reading[i := Some(t)])
        case Chunk(i, bytes, _) =>
          var now := w.reading[i].value;
          w1.(reading := w.reading[i := None],
              meter := DownloadTick(w.meter, w.maxGrace, bytes, now),
              log := w.log + [Record(bytes, now)])
        case EndRead(i, _) => w1.(reading := w.reading[i := None])
        case Abort(_) => w1.(aborted := true)
      }
  }

  function Run(w: Session, events: seq<Event>): Session {
    if events == [] then w else Step(Run(w, events[..|events| - 1]), events[|events| - 1])
  }

  // ----- what every run keeps -----

  ghost predicate Inv(w: Session, endTime: real) {
    && 0.0 < w.startTime <= w.now
    && ValidRecords(w.log)
    && w.meter == DownloadRun(endTime, w.maxGrace, w.log)
    && (forall i | 0 <= i < |w.reading| && w.reading[i].Some? :: 0.0 < w.reading[i].value <= w.now)
  }

  lemma StepKeepsInv(w: Session, endTime: real, e: Event)
    requires Inv(w, endTime)
    ensures Inv(Step(w, e), endTime)
  {
    hide DownloadTick;
    if Enabled(w, e) && e.Chunk? {
      assert Step(w, e).log[..|w.log|] == w.log;
    }
  }

  lemma {:induction false} RunKeepsInv(w: Session, endTime: real, events: seq<Event>)
    requires Inv(w, endTime)
    ensures Inv(Run(w, events), endTime)
  {
    if events != [] {
      RunKeepsInv(w, endTime, events[..|events| - 1]);
      StepKeepsInv(Run(w, events[..|events| - 1]), endTime, events[|events| - 1]);
    }
  }

  /** Over every interleaving, the chunks read are all accounted for: those up to and
      including the one that settled the warm-up, and the counted total. The reported
      speed is the counted bytes over the time from the settling read to the closing or the
      deadline; nothing is reported without settling, and closing late changes nothing. */
  lemma DownloadAccounts(startTime: real, duration: real, streams: nat, events: seq<Event>, t: real,
                         sawNetworkError: bool, sawOverload: bool, successfulStreams: nat, isRamp: bool)
    requires startTime > 0.0
    ensures var w := Run(OpenWindow(startTime, duration, streams), events);
            var k := Taken(w.maxGrace, w.log);
            var r := CloseWindowAt(w.meter, w.startTime, t, sawNetworkError, sawOverload, successfulStreams, isRamp);
            && k <= |w.log|
            && w.meter.allBytes == BytesOf(w.log) == BytesOf(w.log[..k]) + w.meter.totalBytes
            && LeastDeadline(w.meter.endTime, startTime + duration * 1000.0, w.log[k..])
            && (w.meter.warm.settled ==> k > 0 && w.meter.measureStart == w.log[k - 1].now)
            && (!w.meter.warm.settled ==> w.meter.totalBytes == 0.0)
            && (r.Speed? && w.meter.warm.settled ==>
                  SpeedOver(r.mbps, BytesOf(w.log) - BytesOf(w.log[..k]), w.log[k - 1].now, Min(t, w.meter.endTime)))
            && (r.Speed? && !w.meter.warm.settled ==> r.mbps == 0.0)
            && (t >= w.meter.endTime ==>
                  r == CloseWindowAt(w.meter, w.startTime, w.meter.endTime, sawNetworkError, sawOverload,
                                     successfulStreams, isRamp))
  {
    hide Run, Step, OpenWindow, DownloadRun, BytesOf, ValidRecords, CloseWindowAt, SpeedOver, LeastDeadline;
    var w0 := OpenWindow(startTime, duration, streams);
    OpenWindowInv(startTime, duration, streams);
    RunKeepsInv(w0, startTime + duration * 1000.0, events);
    var w := Run(w0, events);
    DownloadConserves(startTime + duration * 1000.0, w.maxGrace, w.log);
    DownloadStopsEarly(startTime + duration * 1000.0, w.maxGrace, w.log);
    CountedIsNonNegative(w.log, Taken(w.maxGrace, w.log));
    if w.meter.warm.settled { SettledReadIsLate(w); }
    WindowFailsIff(w.meter, w.startTime, t, sawNetworkError, sawOverload, successfulStreams, isRamp);
    var r := CloseWindowAt(w.meter, w.startTime, t, sawNetworkError, sawOverload, successfulStreams, isRamp);
    if r.Speed? && !w.meter.warm.settled { NoBytesNoSpeed(r.mbps, w.startTime, Min(t, w.meter.endTime)); }
  }

  lemma SettledReadIsLate(w: Session)
    requires ValidRecords(w.log) && 0 < Taken(w.maxGrace, w.log)
    ensures w.log[Taken(w.maxGrace, w.log) - 1].now > 0.0
  {
    assert w.log[Taken(w.maxGrace, w.log) - 1] in w.log;
  }

  lemma OpenWindowInv(startTime: real, duration: real, streams: nat)
    requires startTime > 0.0
    ensures Inv(OpenWindow(startTime, duration, streams), startTime + duration * 1000.0)
  {
  }

  // ----- the window ends -----

  function Pending(reading: seq<Option<real>>): nat {
    if reading == [] then 0 else Pending(reading[..|reading| - 1]) + if reading[|reading| - 1].Some? then 1 else 0
  }

  lemma {:induction false} PendingUpdate(reading: seq<Option<real>>, i: nat, r: Option<real>)
    requires i < |reading|
    ensures Pending(reading[i := r]) == Pending(reading) - (if reading[i].Some? then 1 else 0) + if r.Some? then 1
        else 0
  {
    var n := |reading| - 1;
    if i == n {
      assert reading[i := r][..n] == reading[..n];
    } else {
      assert reading[i := r][..n] == reading[..n][i := r];
      PendingUpdate(reading[..n], i, r);
    }
  }

  ghost predicate Closed(w: Session) { w.aborted || w.now >= w.meter.endTime }

  lemma DeadlineNeverRises(m: Meter, maxGrace: real, bytes: real, now: real)
    ensures DownloadTick(m, maxGrace, bytes, now).endTime <= m.endTime
  {
  }

  /** Once the deadline has passed or the signal is aborted, what is still counted is at
      most the one read each stream was already waiting for. */
  lemma {:induction false} ClosedWindowDrains(w: Session, events: seq<Event>)
    requires Closed(w)
    ensures var z := Run(w, events);
            Closed(z) && |z.log| + Pending(z.reading) <= |w.log| + Pending(w.reading) && w.log <= z.log
  {
    if events != [] {
      hide DownloadTick, Pending;
      ClosedWindowDrains(w, events[..|events| - 1]);
      var y, e := Run(w, events[..|events| - 1]), events[|events| - 1];
      if Enabled(y, e) && !e.Abort? {
        PendingUpdate(y.reading, e.i, None);
        if e.Chunk? { DeadlineNeverRises(y.meter, y.maxGrace, e.bytes, y.reading[e.i].value); }
      }
    }
  }

  /** Any time is open to any scheduling: a stream may look at the clock, a pending read
      may bring any bytes or none, and the signal may be aborted. */
  lemma StreamsCanAlwaysGoOn(w: Session, i: nat, bytes: real, t: real)
    requires i < |w.reading| && w.now <= t && bytes >= 0.0
    ensures Enabled(w, Abort(t))
    ensures w.reading[i].None? <==> Enabled(w, Sample(i, t))
    ensures w.reading[i].Some? <==> Enabled(w, Chunk(i, bytes, t))
    ensures w.reading[i].Some? <==> Enabled(w, EndRead(i, t))
    ensures w.reading[i].None? ==>
              (Step(w, Sample(i, t)).reading[i] == Some(t) <==> !Closed(w.(now := t)))
  {
  }

  // ----- the window told by what happened in it -----

  /** The events that took place, in order. */
  function History(w: Session, events: seq<Event>): seq<Event> {
    if events == [] then []
    else
      var init, e := events[..|events| - 1], events[|events| - 1];
      History(w, init) + if Enabled(Run(w, init), e) then [e] else []
  }

  predicate Of(e: Event, i: nat) { !e.Abort? && e.i == i }

  /** The clock sample stream i has taken and not yet used for a read. */
  function Sampled(h: seq<Event>, i: nat): Option<real> {
    if h == [] then None
    else
      var last := h[|h| - 1];
      if !Of(last, i) then Sampled(h[..|h| - 1], i)
      else if last.Sample? then Some(last.t)
      else None
  }

  /** The chunks read, each at the clock sample taken before its read. */
  function LogOf(h: seq<Event>): seq<Record> {
    if h == [] then []
    else
      var init, last := h[..|h| - 1], h[|h| - 1];
      LogOf(init) + if last.Chunk? && Sampled(init, last.i).Some?
                    then [Record(last.bytes, Sampled(init, last.i).value)] else []
  }

  ghost predicate Follows(w: Session, h: seq<Event>) {
    && w.log == LogOf(h)
    && (w.aborted <==> exists e | e in h :: e.Abort?)
    && (forall i | 0 <= i < |w.reading| ::
          w.reading[i] == Sampled(h, i) || (w.reading[i] == None && Closed(w)))
  }

  lemma Appended(h: seq<Event>, e: Event)
    ensures (h + [e])[..|h|] == h && (h + [e])[|h|] == e
    ensures forall x :: x in h + [e] <==> x in h || x == e
  {
  }

  lemma StepFollows(w: Session, h: seq<Event>, e: Event)
    requires Follows(w, h) && Enabled(w, e)
    ensures Follows(Step(w, e), h + [e])
  {
    hide DownloadTick;
    Appended(h, e);
    assert e in h + [e];
    if e.Chunk? { DeadlineNeverRises(w.meter, w.maxGrace, e.bytes, w.reading[e.i].value); }
  }

  lemma {:induction false} RunFollows(w: Session, events: seq<Event>)
    requires Follows(w, [])
    ensures var z := Run(w, events);
            Follows(z, History(w, events)) && z.maxGrace == w.maxGrace && |z.reading| == |w.reading|
  {
    if events != [] {
      var init, e := events[..|events| - 1], events[|events| - 1];
      hide Follows, DownloadTick;
      RunFollows(w, init);
      if Enabled(Run(w, init), e) {
        StepFollows(Run(w, init), History(w, init), e);
      } else {
        assert History(w, init) + [] == History(w, init);
      }
    }
  }

  /** Over every interleaving the window is what its history says: an open one has exactly the
      reads under way that were begun and have not ended, the log holds the chunks at the
      samples taken before their reads, and the meter counts that log from the duration's
      deadline and grace period on. */
  lemma DownloadFollowsHistory(startTime: real, duration: real, streams: nat, events: seq<Event>)
    requires startTime > 0.0
    ensures var w0 := OpenWindow(startTime, duration, streams);
            var w, h := Run(w0, events), History(w0, events);
            && Follows(w, h)
            && w.meter == DownloadRun(startTime + duration * 1000.0, MaxGrace(duration * 1000.0), LogOf(h))
  {
    hide Run, Step, DownloadRun, LogOf, Sampled, ValidRecords;
    var w0 := OpenWindow(startTime, duration, streams);
    OpenWindowInv(startTime, duration, streams);
    RunKeepsInv(w0, startTime + duration * 1000.0, events);
    OpenFollows(w0);
    RunFollows(w0, events);
  }

  lemma OpenFollows(w: Session)
    requires w.log == [] && !w.aborted && forall i | 0 <= i < |w.reading| :: w.reading[i] == None
    ensures Follows(w, [])
  {
  }
}
