/** Upload windows told by what happened in them: the log, the error flags, the retries of
    each stream and the outcome as functions of the events that took place. */
module UploadHistory {
  import opened Options
  import opened Reals
  import opened TestConfig
  import opened Detectors
  import opened Metering
  import opened UploadWindow

  /** The events that took place, in order. */
  function History(w: Session, events: seq<Event>): seq<Event> {
    if events == [] then []
    else
      var init, e := events[..|events| - 1], events[|events| - 1];
      History(w, init) + if Enabled(Run(w, init), e) then [e] else []
  }

  predicate Of(e: Event, i: nat) { !e.Abort? && e.i == i }

  predicate Fails(e: Event) { e.RefuseOther? || e.LoseNetwork? }

  /** How many times in a row stream i has failed, waiting and beginning again in between. */
  function InARow(h: seq<Event>, i: nat): nat {
    if h == [] then 0
    else
      var init, last := h[..|h| - 1], h[|h| - 1];
      if Of(last, i) && last.Complete? then 0
      else InARow(init, i) + if Of(last, i) && Fails(last) then 1 else 0
  }

  /** When stream i last began a request. */
  function LastBegin(h: seq<Event>, i: nat): real {
    if h == [] then 0.0
    else if Of(h[|h| - 1], i) && h[|h| - 1].Begin? then h[|h| - 1].t
    else LastBegin(h[..|h| - 1], i)
  }

  /** The completed requests: what the server acknowledged, from the begin to the completion. */
  function LogOf(h: seq<Event>, payload: real): seq<Completed>
    requires payload >= 0.0
  {
    if h == [] then []
    else
      var init, last := h[..|h| - 1], h[|h| - 1];
      LogOf(init, payload) +
      if !last.Complete? then []
      else [Completed(last.i, Request(ReadUploadResponseBytes(last.reply, payload), LastBegin(init, last.i), last.t))]
  }

  /** The errors the streams threw: crashes, and networks lost once too often in a row. */
  function Rejections(h: seq<Event>): seq<Error> {
    if h == [] then []
    else
      var init, last := h[..|h| - 1], h[|h| - 1];
      Rejections(init) +
      if last.Crash? then [Other]
      else if last.LoseNetwork? && InARow(h, last.i) > MAX_NETWORK_RETRIES then [NetworkError]
      else []
  }

  ghost predicate SawOverload(h: seq<Event>) { exists e | e in h :: e.RefuseOverload? }

  ghost predicate SawNetworkLoss(h: seq<Event>) { exists e | e in h :: e.LoseNetwork? }

  ghost predicate SawAbort(h: seq<Event>) { exists e | e in h :: e.Abort? }

  /** Stream i was refused for overload, aborted or crashed, or failed once too often. */
  ghost predicate Ended(h: seq<Event>, i: nat) {
    || InARow(h, i) > MAX_NETWORK_RETRIES
    || exists e | e in h && Of(e, i) :: e.RefuseOverload? || e.LoseAborted? || e.Crash?
  }

  ghost predicate Closed(w: Session) { w.aborted || w.now >= w.meter.endTime }

  // ----- the state is a function of the history -----

  ghost predicate FlagsFollow(w: Session, h: seq<Event>) {
    && (w.sawOverload <==> SawOverload(h))
    && (w.sawNetworkError <==> SawNetworkLoss(h))
    && (w.aborted <==> SawAbort(h))
  }

  /** A stream that has not stopped counts its failures in a row; one that has stopped was
      ended by something, or found the window closed. */
  ghost predicate StreamFollows(w: Session, h: seq<Event>, i: nat)
    requires i < |w.streams|
  {
    match w.streams[i]
    case Waiting(errors) => errors == InARow(h, i) && !Ended(h, i)
    case InFlight(errors, start) => errors == InARow(h, i) && !Ended(h, i) && start == LastBegin(h, i)
    case Stopped => Ended(h, i) || Closed(w)
  }

  ghost predicate LogFollows(w: Session, h: seq<Event>) {
    && w.log == LogOf(h, Max(w.blobSize, 0.0))
    && w.successfulStreams == |w.log|
    && w.thrown == Rejections(h)
  }

  ghost predicate Follows(w: Session, h: seq<Event>) {
    && FlagsFollow(w, h)
    && LogFollows(w, h)
    && forall i | 0 <= i < |w.streams| :: StreamFollows(w, h, i)
  }

  lemma Appended(h: seq<Event>, e: Event)
    ensures (h + [e])[..|h|] == h && (h + [e])[|h|] == e
    ensures forall x :: x in h + [e] <==> x in h || x == e
  {
  }

  lemma FlagsStep(w: Session, h: seq<Event>, e: Event)
    requires FlagsFollow(w, h) && Enabled(w, e)
    ensures FlagsFollow(Step(w, e), h + [e])
  {
    hide Enabled, UploadTick, AfterFailure;
    Appended(h, e);
    assert e in h + [e];
  }

  lemma {:induction false} InARowStep(h: seq<Event>, e: Event, i: nat)
    ensures InARow(h + [e], i) == if Of(e, i) && e.Complete? then 0
                                  else InARow(h, i) + if Of(e, i) && Fails(e) then 1 else 0
    ensures LastBegin(h + [e], i) == if Of(e, i) && e.Begin? then e.t else LastBegin(h, i)
  {
    Appended(h, e);
  }

  lemma LogStep(w: Session, h: seq<Event>, e: Event)
    requires LogFollows(w, h) && Enabled(w, e)
    requires !e.Abort? ==> StreamFollows(w, h, e.i)
    ensures LogFollows(Step(w, e), h + [e])
  {
    hide UploadTick, Ended, ReadUploadResponseBytes, InARow, LastBegin;
    Appended(h, e);
    if !e.Abort? { InARowStep(h, e, e.i); }
  }

  lemma {:induction false} EndedStep(h: seq<Event>, e: Event, i: nat)
    ensures Ended(h + [e], i) <==>
            || InARow(h + [e], i) > MAX_NETWORK_RETRIES
            || (Of(e, i) && (e.RefuseOverload? || e.LoseAborted? || e.Crash?))
            || (exists x | x in h && Of(x, i) :: x.RefuseOverload? || x.LoseAborted? || x.Crash?)
  {
    hide InARow;
    Appended(h, e);
    assert e in h + [e];
  }

  /** A window that is closed stays closed. */
  lemma ClosedStaysClosed(w: Session, e: Event)
    requires Closed(w)
    ensures Closed(Step(w, e))
  {
    if Enabled(w, e) && e.Complete? {
      hide UploadTick, ReadUploadResponseBytes;
      var r := Request(ReadUploadResponseBytes(e.reply, Max(w.blobSize, 0.0)), w.streams[e.i].start, e.t);
      UploadTickFrame(w.meter, w.maxGrace, r);
    } else {
      hide UploadTick, AfterFailure;
    }
  }

  lemma StreamStep(w: Session, h: seq<Event>, e: Event, i: nat)
    requires Enabled(w, e) && i < |w.streams| && StreamFollows(w, h, i)
    ensures i < |Step(w, e).streams| && StreamFollows(Step(w, e), h + [e], i)
  {
    hide UploadTick, InARow, LastBegin, ReadUploadResponseBytes, Closed;
    InARowStep(h, e, i);
    EndedStep(h, e, i);
    if Closed(w) { ClosedStaysClosed(w, e); }
    LeaveMeansClosed(w, e);
  }

  lemma LeaveMeansClosed(w: Session, e: Event)
    requires Enabled(w, e)
    ensures e.Leave? ==> Closed(Step(w, e))
  {
  }

  lemma StepFollows(w: Session, h: seq<Event>, e: Event)
    requires Follows(w, h) && Enabled(w, e)
    ensures Follows(Step(w, e), h + [e]) && |Step(w, e).streams| == |w.streams|
  {
    StreamsStay(w, e);
    hide Step, FlagsFollow, LogFollows, StreamFollows;
    FlagsStep(w, h, e);
    InRange(w, e);
    LogStep(w, h, e);
    forall i | 0 <= i < |w.streams|
      ensures StreamFollows(Step(w, e), h + [e], i)
    {
      StreamStep(w, h, e, i);
    }
  }

  lemma InRange(w: Session, e: Event)
    requires Enabled(w, e)
    ensures !e.Abort? ==> e.i < |w.streams|
  {
  }

  lemma StreamsStay(w: Session, e: Event)
    ensures |Step(w, e).streams| == |w.streams| && Step(w, e).maxGrace == w.maxGrace
    ensures Step(w, e).blobSize == w.blobSize && Step(w, e).startTime == w.startTime
  {
    hide UploadTick, AfterFailure;
  }

  lemma {:induction false} RunFollows(w: Session, events: seq<Event>)
    requires Follows(w, [])
    ensures var z := Run(w, events);
            && Follows(z, History(w, events))
            && |z.streams| == |w.streams| && z.maxGrace == w.maxGrace && z.blobSize == w.blobSize
            && z.startTime == w.startTime
  {
    if events != [] {
      hide Step, Follows, Enabled;
      var init, e := events[..|events| - 1], events[|events| - 1];
      RunFollows(w, init);
      StreamsStay(Run(w, init), e);
      if Enabled(Run(w, init), e) {
        StepFollows(Run(w, init), History(w, init), e);
      } else {
        NotEnabledStays(Run(w, init), e);
        assert History(w, init) + [] == History(w, init);
      }
    }
  }

  lemma NotEnabledStays(w: Session, e: Event)
    requires !Enabled(w, e)
    ensures Step(w, e) == w
  {
  }

  lemma OpenFollows(startTime: real, duration: real, streams: nat, blobSize: real)
    ensures Follows(OpenWindow(startTime, duration, streams, blobSize), [])
  {
  }

  /** Over every interleaving the state of the window is what its history says: the log, the
      meter with the deadline and grace period of the duration, the flags, the rejections and,
      for each stream, its failures in a row. A stream stops exactly when something ended it
      or it finds the window closed. */
  lemma UploadFollowsHistory(startTime: real, duration: real, streams: nat, blobSize: real, events: seq<Event>)
    requires startTime > 0.0
    ensures var w0 := OpenWindow(startTime, duration, streams, blobSize);
            var w, h := Run(w0, events), History(w0, events);
            && Follows(w, h) && |w.streams| == streams && w.blobSize == blobSize && w.startTime == startTime
            && w.maxGrace == MaxGrace(duration * 1000.0)
            && w.meter == UploadRun(startTime + duration * 1000.0, MaxGrace(duration * 1000.0),
                                    Requests(LogOf(h, Max(blobSize, 0.0))))
  {
    hide Run, Step, UploadRun, LogInv, StreamsInv, FlagsFollow, StreamFollows, LogOf, Rejections, Requests;
    var w0 := OpenWindow(startTime, duration, streams, blobSize);
    OpenFollows(startTime, duration, streams, blobSize);
    RunFollows(w0, events);
    ReachedInv(startTime, duration, streams, blobSize, events);
  }

  /** What the caller gets, from the history alone: the first rejection if there is one;
      otherwise an error exactly when a ramp saw overload, or nothing was counted and there
      was a network loss, an overload or no completed request. */
  lemma UploadOutcome(startTime: real, duration: real, streams: nat, blobSize: real, events: seq<Event>,
                      isRamp: bool, t: real)
    requires startTime > 0.0
    ensures var w0 := OpenWindow(startTime, duration, streams, blobSize);
            var h, total := History(w0, events), Run(w0, events).meter.totalBytes;
            var r := Finish(Run(w0, events), isRamp, t);
            if Rejections(h) != [] then r == Failed(Rejections(h)[0])
            else if total > 0.0 then r.Failed? <==> isRamp && SawOverload(h)
            else if SawNetworkLoss(h) then r == Failed(NetworkError)
            else if SawOverload(h) then r == Failed(Overloaded)
            else if LogOf(h, Max(blobSize, 0.0)) == [] then r == Failed(NoStreams)
            else r == Speed(0.0)
  {
    hide Run, Step, UploadRun, StreamsInv, LogInv, StreamFollows, LogOf, Rejections, SawOverload, SawNetworkLoss,
      History, MeasureSeconds;
    UploadFollowsHistory(startTime, duration, streams, blobSize, events);
    ReachedInv(startTime, duration, streams, blobSize, events);
    var w0 := OpenWindow(startTime, duration, streams, blobSize);
    var w := Run(w0, events);
    TotalIsNonNegative(w, startTime + duration * 1000.0);
    MeasuresSomething(w.meter, w.startTime, t);
  }

  lemma TotalIsNonNegative(w: Session, endTime: real)
    requires Inv(w, endTime)
    ensures w.meter.totalBytes >= 0.0
  {
    hide UploadRun, EndsInOrder, Disjoint, StreamsInv;
    UploadTotalAtMostPostSettle(endTime, w.maxGrace, Requests(w.log));
  }

  // ----- the window ends -----

  function InFlights(streams: seq<Stream>): nat {
    if streams == [] then 0
    else InFlights(streams[..|streams| - 1]) + if streams[|streams| - 1].InFlight? then 1 else 0
  }

  lemma {:induction false} InFlightsUpdate(streams: seq<Stream>, i: nat, s: Stream)
    requires i < |streams|
    ensures InFlights(streams[i := s])
         == InFlights(streams) - (if streams[i].InFlight? then 1 else 0) + if s.InFlight? then 1 else 0
  {
    var n := |streams| - 1;
    if i == n {
      assert streams[i := s][..n] == streams[..n];
    } else {
      assert streams[i := s][..n] == streams[..n][i := s];
      InFlightsUpdate(streams[..n], i, s);
    }
  }

  /** Once the deadline has passed or the signal is aborted no request begins: what is still
      completed is at most the one request each stream had under way. */
  lemma {:induction false} ClosedWindowDrains(w: Session, events: seq<Event>)
    requires Closed(w)
    ensures var z := Run(w, events);
            Closed(z) && |z.log| + InFlights(z.streams) <= |w.log| + InFlights(w.streams)
  {
    if events != [] {
      hide Step, Closed, InFlights;
      var init, e := events[..|events| - 1], events[|events| - 1];
      ClosedWindowDrains(w, init);
      ClosedStaysClosed(Run(w, init), e);
      ClosedStepDrains(Run(w, init), e);
    }
  }

  lemma ClosedStepDrains(w: Session, e: Event)
    requires Closed(w)
    ensures |Step(w, e).log| + InFlights(Step(w, e).streams) <= |w.log| + InFlights(w.streams)
  {
    hide UploadTick, InFlights, ReadUploadResponseBytes;
    if Enabled(w, e) && !e.Abort? { InFlightsUpdate(w.streams, e.i, Step(w, e).streams[e.i]); }
  }

  function Unfinished(streams: seq<Stream>): nat {
    if streams == [] then 0
    else Unfinished(streams[..|streams| - 1]) + if streams[|streams| - 1].Stopped? then 0 else 1
  }

  lemma {:induction false} StoppingOne(streams: seq<Stream>, i: nat)
    requires i < |streams| && !streams[i].Stopped?
    ensures Unfinished(streams[i := Stopped]) == Unfinished(streams) - 1
  {
    var n := |streams| - 1;
    if i == n {
      assert streams[i := Stopped][..n] == streams[..n];
    } else {
      assert streams[i := Stopped][..n] == streams[..n][i := Stopped];
      StoppingOne(streams[..n], i);
    }
  }

  lemma {:induction false} RunAfterStep(w: Session, e: Event, rest: seq<Event>)
    ensures Run(w, [e] + rest) == Run(Step(w, e), rest)
  {
    hide Step;
    if rest == [] {
      assert ([e] + rest)[..0] == [] && Run(w, []) == w;
    } else {
      var init := rest[..|rest| - 1];
      assert ([e] + rest)[..|rest|] == [e] + init;
      RunAfterStep(w, e, init);
    }
  }

  /** Any time is open to any scheduling: the signal may be aborted, a request under way may
      end in every way, and a waiting stream has exactly one of two ways to go. */
  lemma StreamsCanAlwaysGoOn(w: Session, i: nat, reply: Reply, t: real)
    requires i < |w.streams| && w.now <= t
    ensures Enabled(w, Abort(t))
    ensures w.streams[i].InFlight? ==>
              && Enabled(w, Complete(i, reply, t)) && Enabled(w, RefuseOverload(i, t)) && Enabled(w, RefuseOther(i, t))
              && Enabled(w, LoseNetwork(i, t)) && Enabled(w, LoseAborted(i, t)) && Enabled(w, Crash(i, t))
    ensures w.streams[i].Waiting? ==> (Enabled(w, Begin(i, t, t)) <==> !Enabled(w, Leave(i, t)))
    ensures Enabled(w, Leave(i, t)) ==> Closed(Step(w, Leave(i, t)))
  {
    if Enabled(w, Leave(i, t)) { LeaveMeansClosed(w, Leave(i, t)); }
  }

  /** Nothing can keep a window from ending: from any state, some events stop every stream. */
  lemma {:induction false} EveryWindowCanEnd(w: Session) returns (events: seq<Event>)
    ensures forall s | s in Run(w, events).streams :: s.Stopped?
    decreases Unfinished(w.streams)
  {
    if s :| s in w.streams && !s.Stopped? {
      var i :| 0 <= i < |w.streams| && w.streams[i] == s;
      var e := if s.InFlight? then LoseAborted(i, w.now) else Leave(i, Max(w.now, w.meter.endTime));
      StoppingOne(w.streams, i);
      var rest := EveryWindowCanEnd(Step(w, e));
      RunAfterStep(w, e, rest);
      events := [e] + rest;
    } else {
      events := [];
    }
  }
}
