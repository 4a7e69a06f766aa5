/** One upload window of web/speedtest-http-upload.js: several request loops that
    share one meter, interleaved at every await. */
module UploadWindow {
  import opened Options
  import opened Reals
  import opened TestConfig
  import opened Detectors
  import opened Metering

  const RANDOM_CHUNK_BYTES := 65536
  const MIN_PAYLOAD_BYTES := 8 * 1024 * 1024
  const MAX_PAYLOAD_BYTES := 64 * 1024 * 1024
  const TARGET_REQUEST_MS := 500

  // ----- payload size -----

  function Ceil(x: real): int { -((-x).Floor) }

  function RoundPayloadSize(bytes: real): int {
    Ceil(bytes / RANDOM_CHUNK_BYTES as real) * RANDOM_CHUNK_BYTES
  }

  /** `bestMbps` is the ramp's best speed; anything not above 0 stands for "unknown". */
  function ResolveUploadPayloadSize(chunkSize: nat, duration: real, bestMbps: real, streams: nat): int {
    if duration < FAST_MEASURE_SECONDS then chunkSize
    else
      var minPayload := if chunkSize >= MIN_PAYLOAD_BYTES then chunkSize else MIN_PAYLOAD_BYTES;
      if bestMbps <= 0.0 then minPayload
      else
        var perStreamBytesPerMs := bestMbps * 1000000.0 / 8.0 / (if streams == 0 then 1 else streams) as real / 1000.0;
        var target := perStreamBytesPerMs * TARGET_REQUEST_MS as real;
        RoundPayloadSize(Min(MAX_PAYLOAD_BYTES as real, Max(minPayload as real, target)))
  }

  lemma RoundingIsTight(bytes: real)
    ensures RoundPayloadSize(bytes) % RANDOM_CHUNK_BYTES == 0
    ensures bytes <= RoundPayloadSize(bytes) as real < bytes + RANDOM_CHUNK_BYTES as real
  {
    var units := bytes / RANDOM_CHUNK_BYTES as real;
    assert units <= Ceil(units) as real < units + 1.0;
  }

  /** Windows shorter than 3 s send the 1 MiB chunk; in longer ones rounding up never leaves
      [8 MiB, 64 MiB]. Either way the payload is whole random chunks. */
  lemma PayloadStaysInRange(duration: real, bestMbps: real, streams: nat)
    ensures var size := ResolveUploadPayloadSize(1024 * 1024, duration, bestMbps, streams);
            && size % RANDOM_CHUNK_BYTES == 0
            && (if duration < FAST_MEASURE_SECONDS then size == 1024 * 1024
                else 8 * 1024 * 1024 <= size <= 64 * 1024 * 1024)
  {
    if bestMbps > 0.0 && duration >= FAST_MEASURE_SECONDS {
      var perStreamBytesPerMs := bestMbps * 1000000.0 / 8.0 / (if streams == 0 then 1 else streams) as real / 1000.0;
      var target := perStreamBytesPerMs * TARGET_REQUEST_MS as real;
      var clamped := Min(MAX_PAYLOAD_BYTES as real, Max(MIN_PAYLOAD_BYTES as real, target));
      RoundingIsTight(clamped);
      var size := RoundPayloadSize(clamped);
      assert size as real < (MAX_PAYLOAD_BYTES + RANDOM_CHUNK_BYTES) as real;
      assert size == (size / RANDOM_CHUNK_BYTES) * RANDOM_CHUNK_BYTES;
    }
  }

  /** Unless the limits cut it, the payload is what all streams together move in half a
      second at the best speed, rounded up by less than one chunk. */
  lemma PayloadLastsHalfASecond(duration: real, bestMbps: real, streams: nat)
    requires duration >= FAST_MEASURE_SECONDS && bestMbps > 0.0 && streams >= 1
    ensures var size := ResolveUploadPayloadSize(1024 * 1024, duration, bestMbps, streams);
            var target := bestMbps * 62500.0 / streams as real;
            && (size != MAX_PAYLOAD_BYTES ==> size as real >= target)
            && (size != MIN_PAYLOAD_BYTES ==> size as real < target + RANDOM_CHUNK_BYTES as real)
  {
    var n := streams as real;
    var target := bestMbps * 1000000.0 / 8.0 / n / 1000.0 * TARGET_REQUEST_MS as real;
    HalfASecond(bestMbps, n);
    var clamped := Min(MAX_PAYLOAD_BYTES as real, Max(MIN_PAYLOAD_BYTES as real, target));
    RoundingIsTight(clamped);
    PayloadStaysInRange(duration, bestMbps, streams);
  }

  lemma HalfASecond(bestMbps: real, n: real)
    requires n > 0.0
    ensures bestMbps * 1000000.0 / 8.0 / n / 1000.0 * 500.0 == bestMbps * 62500.0 / n
  {
    var q := bestMbps * 1000000.0 / 8.0 / n;
    assert q * n == bestMbps * 125000.0;
    var r := bestMbps * 62500.0 / n;
    assert r * n == bestMbps * 62500.0;
    assert (q / 2.0 - r) * n == 0.0;
  }

  // ----- the window as a state machine -----

  /** The server's answer to a completed upload; `Reported` is a finite number. */
  datatype Reply = Unreadable | Reported(bytes: real)

  function ReadUploadResponseBytes(reply: Reply, fallback: real): (bytes: real)
    requires fallback >= 0.0
    ensures 0.0 <= bytes <= fallback
    ensures bytes != fallback ==> reply == Reported(bytes)
    ensures reply.Reported? && 0.0 <= reply.bytes <= fallback ==> bytes == reply.bytes
  {
    if reply.Reported? && reply.bytes >= 0.0 then Min(reply.bytes, fallback) else fallback
  }

  datatype Stream =
    | Waiting(errors: nat)
    | InFlight(errors: nat, start: real)
    | Stopped

  datatype Completed = Completed(stream: nat, request: Request)

  datatype Session = Session(
    startTime: real,
    maxGrace: real,
    blobSize: real,
    now: real,
    aborted: bool,
    streams: seq<Stream>,
    meter: Meter,
    sawNetworkError: bool,
    sawOverload: bool,
    successfulStreams: nat,
    thrown: seq<Error>,
    log: seq<Completed>)

  /** What can happen at time `t`; `i` is the stream it happens to. */
  datatype Event =
    | Begin(i: nat, checked: real, t: real)
    | Complete(i: nat, reply: Reply, t: real)
    | RefuseOverload(i: nat, t: real)
    | RefuseOther(i: nat, t: real)
    | LoseNetwork(i: nat, t: real)
    | LoseAborted(i: nat, t: real)
    | Crash(i: nat, t: real)
    | Leave(i: nat, t: real)
    | Abort(t: real)

  function OpenWindow(startTime: real, duration: real, streams: nat, blobSize: real): Session {
    Session(startTime, MaxGrace(duration * 1000.0), blobSize, startTime, false,
           seq(streams, i => Waiting(0)), FreshMeter(startTime + duration * 1000.0),
           false, false, 0, [], [])
  }

  predicate Enabled(w: Session, e: Event) {
    && w.now <= e.t
    && (!e.Abort? ==> e.i < |w.streams|)
    && match e {
         case Begin(i, checked, t) =>
           w.streams[i].Waiting? && w.now <= checked <= t && checked < w.meter.endTime && !w.aborted
         case Leave(i, t) => w.streams[i].Waiting? && (t >= w.meter.endTime || w.aborted)
         case Abort(_) => true
         case _ => w.streams[e.i].InFlight?
       }
  }

  /** One more failed attempt: the loop waits and retries, or gives up. */
  function AfterFailure(errors: nat): Stream {
    if errors + 1 > MAX_NETWORK_RETRIES then Stopped else Waiting(errors + 1)
  }

  /** One scheduling step; an event that cannot happen in `w` changes nothing. */
  function Step(w: Session, e: Event): Session {
    if !Enabled(w, e) then w
    else
      var w1 := w.(now := e.t);
      match e {
        case Begin(i, _, t) => w1.(streams := w.streams[i := InFlight(w.streams[i].errors, t)])
        case Complete(i, reply, t) =>
          var r := Request(ReadUploadResponseBytes(reply, Max(w.blobSize, 0.0)), w.streams[i].start, t);
          w1.(streams := w.streams[i := Waiting(0)],
              meter := UploadTick(w.meter, w.maxGrace, r),
              successfulStreams := w.successfulStreams + 1,
              log := w.log + [Completed(i, r)])
        case RefuseOverload(i, _) => w1.(streams := w.streams[i := Stopped], sawOverload := true)
        case RefuseOther(i, _) => w1.(streams := w.streams[i := AfterFailure(w.streams[i].errors)])
        case LoseNetwork(i, _) =>
          var next := AfterFailure(w.streams[i].errors);
          w1.(streams := w.streams[i := next], sawNetworkError := true,
              thrown := if next.Stopped? then w.thrown + [NetworkError] else w.thrown)
        case LoseAborted(i, _) => w1.(streams := w.streams[i := Stopped])
        case Crash(i, _) => w1.(streams := w.streams[i := Stopped], thrown := w.thrown + [Other])
        case Leave(i, _) => w1.(streams := w.streams[i := Stopped])
        case Abort(_) => w1.(aborted := true)
      }
  }

  function Run(w: Session, events: seq<Event>): Session {
    if events == [] then w else Step(Run(w, events[..|events| - 1]), events[|events| - 1])
  }

  // ----- closing the window -----

  /** The window's result at time `t`, once every stream has stopped. */
  function Finish(w: Session, isRamp: bool, t: real): Outcome {
    if w.thrown != [] then Failed(w.thrown[0])
    else CloseWindowAt(w.meter, w.startTime, t, w.sawNetworkError, w.sawOverload, w.successfulStreams, isRamp)
  }

  // ----- what every run keeps -----

  function Requests(log: seq<Completed>): (ticks: seq<Request>)
    ensures |ticks| == |log|
  {
    seq(|log|, i requires 0 <= i < |log| => log[i].request)
  }

  /** No stream ever has two requests under way at once. */
  ghost predicate Disjoint(log: seq<Completed>) {
    forall i, j | 0 <= i < j < |log| && log[i].stream == log[j].stream ::
      log[i].request.end <= log[j].request.start
  }

  ghost predicate LogInv(log: seq<Completed>, streams: nat, now: real) {
    && ValidRequests(Requests(log))
    && EndsInOrder(Requests(log))
    && Disjoint(log)
    && (forall c | c in log :: c.stream < streams && c.request.end <= now)
  }

  /** A request under way started after everything its stream completed. */
  ghost predicate StreamsInv(streams: seq<Stream>, log: seq<Completed>, now: real) {
    forall i | 0 <= i < |streams| && streams[i].InFlight? ::
      && 0.0 < streams[i].start <= now
      && forall c | c in log && c.stream == i :: c.request.end <= streams[i].start
  }

  ghost predicate Inv(w: Session, endTime: real) {
    && 0.0 < w.startTime <= w.now
    && w.meter == UploadRun(endTime, w.maxGrace, Requests(w.log))
    && LogInv(w.log, |w.streams|, w.now)
    && StreamsInv(w.streams, w.log, w.now)
  }

  lemma AppendKeepsLogInv(log: seq<Completed>, streams: nat, now: real, c: Completed)
    requires LogInv(log, streams, now)
    requires c.stream < streams && now <= c.request.end && c.request.bytes >= 0.0
        && 0.0 < c.request.start <= c.request.end
    requires forall d | d in log && d.stream == c.stream :: d.request.end <= c.request.start
    ensures LogInv(log + [c], streams, c.request.end)
    ensures Requests(log + [c]) == Requests(log) + [c.request]
  {
    hide ValidRequests, EndsInOrder, Disjoint;
    assert Requests(log + [c]) == Requests(log) + [c.request];
    forall r | r in Requests(log)
      ensures r.end <= c.request.end
    {
      var k :| 0 <= k < |log| && Requests(log)[k] == r;
      assert log[k] in log;
    }
    AppendRequest(Requests(log), c.request);
    AppendKeepsDisjoint(log, c);
    assert forall d | d in log + [c] :: d in log || d == c;
  }

  lemma AppendRequest(ticks: seq<Request>, r: Request)
    requires ValidRequests(ticks) && EndsInOrder(ticks)
    requires r.bytes >= 0.0 && 0.0 < r.start <= r.end && forall q | q in ticks :: q.end <= r.end
    ensures ValidRequests(ticks + [r]) && EndsInOrder(ticks + [r])
  {
    assert forall q | q in ticks + [r] :: q in ticks || q == r;
    assert forall i | 0 <= i < |ticks| :: ticks[i] in ticks;
  }

  lemma AppendKeepsDisjoint(log: seq<Completed>, c: Completed)
    requires Disjoint(log) && forall d | d in log && d.stream == c.stream :: d.request.end <= c.request.start
    ensures Disjoint(log + [c])
  {
    assert forall i | 0 <= i < |log| :: log[i] in log;
  }

  lemma CompleteKeepsInv(w: Session, endTime: real, i: nat, reply: Reply, t: real)
    requires Inv(w, endTime) && Enabled(w, Complete(i, reply, t))
    ensures Inv(Step(w, Complete(i, reply, t)), endTime)
  {
    hide UploadTick, UploadRun, LogInv, StreamsInv, ReadUploadResponseBytes, Requests;
    var n := Step(w, Complete(i, reply, t));
    var c := n.log[|w.log|];
    InFlightFacts(w.streams, w.log, w.now, i);
    AppendKeepsLogInv(w.log, |w.streams|, w.now, c);
    RunOneMore(endTime, w.maxGrace, Requests(w.log), c.request);
    CompleteKeepsStreamsInv(w.streams, w.log, w.now, c);
  }

  lemma InFlightFacts(streams: seq<Stream>, log: seq<Completed>, now: real, i: nat)
    requires StreamsInv(streams, log, now) && i < |streams| && streams[i].InFlight?
    ensures 0.0 < streams[i].start <= now
    ensures forall d | d in log && d.stream == i :: d.request.end <= streams[i].start
  {
  }

  lemma RunOneMore(endTime: real, maxGrace: real, ticks: seq<Request>, r: Request)
    ensures UploadRun(endTime, maxGrace, ticks + [r]) == UploadTick(UploadRun(endTime, maxGrace, ticks), maxGrace, r)
  {
    hide UploadTick;
    assert (ticks + [r])[..|ticks|] == ticks;
  }

  lemma CompleteKeepsStreamsInv(streams: seq<Stream>, log: seq<Completed>, now: real, c: Completed)
    requires StreamsInv(streams, log, now) && c.stream < |streams| && now <= c.request.end
    ensures StreamsInv(streams[c.stream := Waiting(0)], log + [c], c.request.end)
  {
    assert forall d | d in log + [c] :: d in log || d == c;
  }

  lemma LogInvLater(log: seq<Completed>, streams: nat, now: real, t: real)
    requires LogInv(log, streams, now) && now <= t
    ensures LogInv(log, streams, t)
  {
    hide ValidRequests, EndsInOrder, Disjoint;
  }

  lemma StepKeepsInv(w: Session, endTime: real, e: Event)
    requires Inv(w, endTime)
    ensures Inv(Step(w, e), endTime)
  {
    if Enabled(w, e) {
      if e.Complete? {
        CompleteKeepsInv(w, endTime, e.i, e.reply, e.t);
      } else {
        hide UploadTick, UploadRun, LogInv, AfterFailure, ReadUploadResponseBytes, Requests;
        LogInvLater(w.log, |w.streams|, w.now, e.t);
      }
    }
  }

  lemma {:induction false} RunKeepsInv(w: Session, endTime: real, events: seq<Event>)
    requires Inv(w, endTime)
    ensures Inv(Run(w, events), endTime) && |Run(w, events).streams| == |w.streams|
  {
    if events != [] {
      RunKeepsInv(w, endTime, events[..|events| - 1]);
      StepKeepsInv(Run(w, events[..|events| - 1]), endTime, events[|events| - 1]);
    }
  }

  lemma OpenWindowInv(startTime: real, duration: real, streams: nat, blobSize: real)
    requires startTime > 0.0
    ensures Inv(OpenWindow(startTime, duration, streams, blobSize), startTime + duration * 1000.0)
  {
  }

  // ----- no inflation -----

  /** How far into the measured window time `x` reaches. */
  function Reach(x: real, from: real, to: real): real { Max(0.0, Min(x, to) - from) }

  /** Per stream, the end of its latest completed request. */
  function Frontiers(log: seq<Completed>, streams: nat): (f: seq<real>)
    requires forall c | c in log :: c.stream < streams
    ensures |f| == streams
  {
    if log == [] then seq(streams, i => 0.0)
    else
      var init, last := log[..|log| - 1], log[|log| - 1];
      assert last in log && forall c | c in init :: c in log;
      Frontiers(init, streams)[last.stream := last.request.end]
  }

  function TotalReach(f: seq<real>, from: real, to: real): real {
    if f == [] then 0.0 else TotalReach(f[..|f| - 1], from, to) + Reach(f[|f| - 1], from, to)
  }

  lemma {:induction false} TotalReachUpdate(f: seq<real>, i: nat, x: real, from: real, to: real)
    requires i < |f|
    ensures TotalReach(f[i := x], from, to) == TotalReach(f, from, to) - Reach(f[i], from, to) + Reach(x, from, to)
  {
    var n := |f| - 1;
    if i == n {
      assert f[i := x][..n] == f[..n];
    } else {
      assert f[i := x][..n] == f[..n][i := x];
      TotalReachUpdate(f[..n], i, x, from, to);
    }
  }

  lemma ReachMonotone(x: real, y: real, from: real, to: real)
    requires x <= y
    ensures 0.0 <= Reach(x, from, to) <= Reach(y, from, to)
  {
  }

  lemma {:induction false} TotalReachBound(f: seq<real>, bound: real, from: real, to: real)
    requires forall x | x in f :: x <= bound
    ensures 0.0 <= TotalReach(f, from, to) <= Times(|f| as real, Reach(bound, from, to))
  {
    if f == [] {
      assert Times(0.0, Reach(bound, from, to)) == 0.0;
    } else {
      hide Reach, Times;
      var init := f[..|f| - 1];
      var last := f[|f| - 1];
      assert last in f && forall x | x in init :: x in f;
      TotalReachBound(init, bound, from, to);
      ReachMonotone(last, bound, from, to);
      TimesOneMore(|init|, Reach(bound, from, to));
    }
  }

  /** The fastest any request may go, in bytes per ms. */
  ghost predicate RateAtMost(log: seq<Completed>, rate: real) {
    forall c | c in log :: NotFaster(c.request, rate)
  }

  /** A request over an empty interval is never counted, so it may carry anything. */
  ghost predicate NotFaster(r: Request, rate: real) {
    r.end > r.start ==> r.bytes <= rate * (r.end - r.start)
  }

  lemma MeasuredAtRate(r: Request, rate: real, from: real, to: real)
    requires r.start <= r.end && rate >= 0.0
    requires NotFaster(r, rate)
    ensures MeasuredIntervalBytes(r.bytes, r.start, r.end, from, to)
         <= Times(rate, Reach(r.end, from, to) - Reach(r.start, from, to))
  {
    var part, whole := Min(r.end, to) - Max(r.start, from), r.end - r.start;
    if r.bytes > 0.0 && whole > 0.0 && part > 0.0 {
      assert Reach(r.end, from, to) - Reach(r.start, from, to) == part;
      ShareAtRate(r.bytes, rate, part, whole);
    } else {
      assert Reach(r.end, from, to) - Reach(r.start, from, to) >= 0.0;
    }
  }

  lemma ShareAtRate(bytes: real, rate: real, part: real, whole: real)
    requires 0.0 < part <= whole && bytes <= rate * whole
    ensures bytes * (part / whole) <= rate * part
  {
    var share := part / whole;
    assert share > 0.0 && share * whole == part;
    assert (rate * whole - bytes) * share >= 0.0;
    assert rate * whole * share == rate * part;
  }

  lemma {:induction false} FrontierIsEarlier(log: seq<Completed>, streams: nat, i: nat, bound: real)
    requires i < streams && bound >= 0.0
    requires forall c | c in log :: c.stream < streams
    requires forall c | c in log && c.stream == i :: c.request.end <= bound
    ensures Frontiers(log, streams)[i] <= bound
  {
    if log != [] {
      var init, last := log[..|log| - 1], log[|log| - 1];
      assert last in log && forall c | c in init :: c in log;
      FrontierIsEarlier(init, streams, i, bound);
    }
  }

  ghost predicate LogOk(log: seq<Completed>, streams: nat, rate: real) {
    && (forall c | c in log :: c.stream < streams && 0.0 < c.request.start <= c.request.end)
    && Disjoint(log)
    && RateAtMost(log, rate)
  }

  lemma LogOkSplit(log: seq<Completed>, streams: nat, rate: real)
    requires log != [] && LogOk(log, streams, rate)
    ensures var init, last := log[..|log| - 1], log[|log| - 1];
            && LogOk(init, streams, rate)
            && last in log
            && (forall c | c in init :: c.stream < streams)
            && (forall c | c in init && c.stream == last.stream :: c.request.end <= last.request.start)
  {
    var init, last := log[..|log| - 1], log[|log| - 1];
    assert forall c | c in init :: c in log;
    forall c | c in init && c.stream == last.stream
      ensures c.request.end <= last.request.start
    {
      var k :| 0 <= k < |init| && init[k] == c;
      assert log[k].stream == log[|log| - 1].stream;
    }
  }

  /** One more completed request, against the reach its stream gains by it. */
  lemma RequestWithinReach(f: seq<real>, c: Completed, rate: real, from: real, to: real, sum: real)
    requires c.stream < |f| && f[c.stream] <= c.request.start <= c.request.end
    requires NotFaster(c.request, rate)
    requires rate >= 0.0 && sum <= Times(rate, TotalReach(f, from, to))
    ensures sum + MeasuredIntervalBytes(c.request.bytes, c.request.start, c.request.end, from, to)
         <= Times(rate, TotalReach(f[c.stream := c.request.end], from, to))
  {
    hide MeasuredIntervalBytes, Reach, TotalReach, Times, NotFaster;
    var r := c.request;
    ReachMonotone(f[c.stream], r.start, from, to);
    MeasuredAtRate(r, rate, from, to);
    TotalReachUpdate(f, c.stream, r.end, from, to);
    var gained := Reach(r.end, from, to) - Reach(f[c.stream], from, to);
    TimesMonotone(rate, Reach(r.end, from, to) - Reach(r.start, from, to), gained);
    TimesAdds(rate, TotalReach(f, from, to), gained);
  }

  lemma {:induction false} OfflineWithinReach(log: seq<Completed>, streams: nat, rate: real, from: real, to: real)
    requires LogOk(log, streams, rate) && rate >= 0.0 && from > 0.0
    ensures OfflineBytes(Requests(log), from, to) <= Times(rate, TotalReach(Frontiers(log, streams), from, to))
  {
    if log == [] {
      TotalReachBound(Frontiers(log, streams), 0.0, from, to);
      TimesZero(rate);
      TimesMonotone(rate, 0.0, TotalReach(Frontiers(log, streams), from, to));
    } else {
      hide MeasuredIntervalBytes, TotalReach, Reach, Disjoint, NotFaster, Times;
      var init, last := log[..|log| - 1], log[|log| - 1];
      LogOkSplit(log, streams, rate);
      assert Requests(log)[..|init|] == Requests(init);
      OfflineWithinReach(init, streams, rate, from, to);
      FrontierIsEarlier(init, streams, last.stream, last.request.start);
      RequestWithinReach(Frontiers(init, streams), last, rate, from, to, OfflineBytes(Requests(init), from, to));
    }
  }

  lemma SuffixOk(log: seq<Completed>, streams: nat, now: real, k: nat, rate: real)
    requires LogInv(log, streams, now) && RateAtMost(log, rate) && k <= |log|
    ensures LogOk(log[k..], streams, rate)
    ensures Requests(log[k..]) == Requests(log)[k..]
  {
    hide EndsInOrder, NotFaster;
    var rest := log[k..];
    forall c | c in rest
      ensures c in log && 0.0 < c.request.start <= c.request.end
    {
      var j :| 0 <= j < |rest| && rest[j] == c;
      assert Requests(log)[k + j] in Requests(log);
    }
  }

  lemma FrontiersBefore(log: seq<Completed>, streams: nat, t: real)
    requires t >= 0.0 && forall c | c in log :: c.stream < streams && c.request.end <= t
    ensures forall x | x in Frontiers(log, streams) :: x <= t
  {
    var f := Frontiers(log, streams);
    forall x | x in f
      ensures x <= t
    {
      var i :| 0 <= i < |f| && f[i] == x;
      FrontierIsEarlier(log, streams, i, t);
    }
  }

  /** Everything an upload window counts was moved inside the measured window. */
  lemma TotalWithinMeasuredWindow(w: Session, endTime: real, rate: real, t: real)
    requires Inv(w, endTime) && RateAtMost(w.log, rate) && rate >= 0.0 && w.now <= t
    ensures 0.0 <= w.meter.totalBytes
         <= Times(rate, Times(|w.streams| as real, Reach(t, w.meter.measureStart, w.meter.endTime)))
  {
    hide Times, Reach, UploadRun, OfflineBytes, EndsInOrder, RateAtMost, Disjoint, Taken, WarmRun;
    var ticks := Requests(w.log);
    var from, to, n := w.meter.measureStart, w.meter.endTime, |w.streams|;
    UploadProgress(endTime, w.maxGrace, ticks);
    UploadTotalIsOffline(endTime, w.maxGrace, ticks);
    UploadTotalAtMostPostSettle(endTime, w.maxGrace, ticks);
    if w.meter.warm.settled {
      var k := Taken(w.maxGrace, Completions(ticks));
      assert ticks[k - 1] in ticks;
      var rest := w.log[k..];
      SuffixOk(w.log, n, w.now, k, rate);
      OfflineWithinReach(rest, n, rate, from, to);
      assert forall c | c in rest :: c in w.log;
      FrontiersBefore(rest, n, t);
      TotalReachBound(Frontiers(rest, n), t, from, to);
      TimesMonotone(rate, TotalReach(Frontiers(rest, n), from, to), Times(n as real, Reach(t, from, to)));
    } else {
      ReachMonotone(t, t, from, to);
      TimesZero(n as real);
      TimesMonotone(n as real, 0.0, Reach(t, from, to));
      TimesZero(rate);
      TimesMonotone(rate, 0.0, Times(n as real, Reach(t, from, to)));
    }
  }

  lemma SpeedFromBytes(total: real, rate: real, streams: real, ms: real, seconds: real)
    requires total <= Times(rate, Times(streams, ms)) && 0.0 < seconds && ms <= seconds * 1000.0
    requires rate >= 0.0 && streams >= 0.0
    ensures (total * 8.0) / seconds / 1000000.0 <= streams * rate * 8.0 / 1000.0
  {
    TimesMonotone(streams, ms, seconds * 1000.0);
    TimesMonotone(rate, Times(streams, ms), Times(streams, seconds * 1000.0));
    assert Times(rate, Times(streams, seconds * 1000.0)) == streams * rate * 1000.0 * seconds;
    assert total * 8.0 <= (streams * rate * 8000.0) * seconds;
    assert (total * 8.0) / seconds <= streams * rate * 8000.0;
  }

  lemma ReachedInv(startTime: real, duration: real, streams: nat, blobSize: real, events: seq<Event>)
    requires startTime > 0.0
    ensures var w := Run(OpenWindow(startTime, duration, streams, blobSize), events);
            Inv(w, startTime + duration * 1000.0) && |w.streams| == streams
  {
    hide Inv;
    OpenWindowInv(startTime, duration, streams, blobSize);
    RunKeepsInv(OpenWindow(startTime, duration, streams, blobSize), startTime + duration * 1000.0, events);
  }

  lemma ReachWithinSeconds(w: Session, t: real)
    requires w.meter.measureStart > 0.0
    ensures Reach(t, w.meter.measureStart, w.meter.endTime) <= MeasureSeconds(w.meter, w.startTime, t) * 1000.0
  {
  }

  lemma FinishBound(w: Session, endTime: real, isRamp: bool, t: real, rate: real)
    requires Inv(w, endTime) && RateAtMost(w.log, rate) && rate >= 0.0 && w.now <= t
    requires Finish(w, isRamp, t).Speed?
    ensures 0.0 <= Finish(w, isRamp, t).mbps <= |w.streams| as real * rate * 8.0 / 1000.0
  {
    hide UploadRun, LogInv, StreamsInv, RateAtMost, Requests, Reach, Times, MeasureSeconds;
    TotalWithinMeasuredWindow(w, endTime, rate, t);
    var seconds := MeasureSeconds(w.meter, w.startTime, t);
    var ms := Reach(t, w.meter.measureStart, w.meter.endTime);
    MeasuresSomething(w.meter, w.startTime, t);
    if w.meter.measureStart > 0.0 {
      ReachWithinSeconds(w, t);
      SpeedFromBytes(w.meter.totalBytes, rate, |w.streams| as real, ms, seconds);
    } else {
      SettledHasStart(w, endTime);
      TimesZero(|w.streams| as real);
      TimesZero(rate);
      SpeedFromBytes(w.meter.totalBytes, rate, |w.streams| as real, 0.0, seconds);
    }
  }

  lemma SettledHasStart(w: Session, endTime: real)
    requires Inv(w, endTime)
    ensures w.meter.warm.settled ==> w.meter.measureStart > 0.0
    ensures !w.meter.warm.settled ==> w.meter.totalBytes == 0.0
  {
    hide UploadRun, EndsInOrder, Disjoint;
    var ticks := Requests(w.log);
    UploadProgress(endTime, w.maxGrace, ticks);
    if w.meter.warm.settled {
      assert ticks[Taken(w.maxGrace, Completions(ticks)) - 1] in ticks;
    }
  }

  /** The headline claim. For every interleaving of requests, failures, settling and
      early stops: if no completed request moved more than `rate` bytes per ms, the
      reported speed is at most streams × rate, here in Mbps. */
  lemma UploadIsNeverInflated(
      startTime: real, duration: real, streams: nat, blobSize: real,
      events: seq<Event>, isRamp: bool, t: real, rate: real)
    requires startTime > 0.0 && rate >= 0.0
    ensures var w := Run(OpenWindow(startTime, duration, streams, blobSize), events);
            w.now <= t && RateAtMost(w.log, rate) && Finish(w, isRamp, t).Speed? ==>
              0.0 <= Finish(w, isRamp, t).mbps <= streams as real * rate * 8.0 / 1000.0
  {
    hide *;
    var w := Run(OpenWindow(startTime, duration, streams, blobSize), events);
    ReachedInv(startTime, duration, streams, blobSize, events);
    if w.now <= t && RateAtMost(w.log, rate) && Finish(w, isRamp, t).Speed? {
      FinishBound(w, startTime + duration * 1000.0, isRamp, t, rate);
    }
  }

  /** What the window reports is exact, not just bounded: the bytes of the requests completed
      after settling, weighted by their overlap with the final window, over the time from the
      end of the request that settled the warm-up to the closing or the deadline, which early
      stops alone lower. Nothing is reported for a warm-up that never settled, and closing
      after the deadline changes nothing. */
  lemma ReportedSpeedIsOffline(
      startTime: real, duration: real, streams: nat, blobSize: real,
      events: seq<Event>, isRamp: bool, t: real)
    requires startTime > 0.0
    ensures var w := Run(OpenWindow(startTime, duration, streams, blobSize), events);
            var ticks := Requests(w.log);
            var k := Taken(w.maxGrace, Completions(ticks));
            var r := Finish(w, isRamp, t);
            && (r.Speed? && w.meter.warm.settled ==>
                  && k > 0
                  && var from := ticks[k - 1].end;
                     SpeedOver(r.mbps, OfflineBytes(ticks[k..], from, w.meter.endTime), from, Min(t, w.meter.endTime)))
            && (r.Speed? && !w.meter.warm.settled ==> r.mbps == 0.0)
            && LeastDeadline(w.meter.endTime, startTime + duration * 1000.0,
                             Credited(startTime + duration * 1000.0, w.maxGrace, ticks))
            && (t >= w.meter.endTime ==> r == Finish(w, isRamp, w.meter.endTime))
  {
    hide Run, Step, OpenWindow, UploadRun, EndsInOrder, Disjoint, ValidRequests, Requests, OfflineBytes,
      BytesOf, CloseWindowAt, SpeedOver, LeastDeadline, Credited;
    var endTime := startTime + duration * 1000.0;
    ReachedInv(startTime, duration, streams, blobSize, events);
    var w := Run(OpenWindow(startTime, duration, streams, blobSize), events);
    UploadProgress(endTime, w.maxGrace, Requests(w.log));
    UploadStopsEarly(endTime, w.maxGrace, Requests(w.log));
    SettledHasStart(w, endTime);
    UploadTotalIsOffline(endTime, w.maxGrace, Requests(w.log));
    UploadTotalAtMostPostSettle(endTime, w.maxGrace, Requests(w.log));
    WindowFailsIff(w.meter, w.startTime, t, w.sawNetworkError, w.sawOverload, w.successfulStreams, isRamp);
    if !w.meter.warm.settled && Finish(w, isRamp, t).Speed? {
      NoBytesNoSpeed(Finish(w, isRamp, t).mbps, w.startTime, Min(t, w.meter.endTime));
    }
  }
}
