/** The retry loop of one download stream, web/speedtest-http-download.js:23-65. */
module DownloadStream {
  import opened TestConfig

  const PREFERRED_FALLBACK := 256 * 1024
  const SMALLEST_FALLBACK := 65536

  /** 256 KiB and 64 KiB. */
  ghost predicate IsFallback(size: int) { size == 262144 || size == 65536 }

  ghost predicate Decreasing(sizes: seq<int>) {
    forall i, j | 0 <= i < j < |sizes| :: sizes[i] > sizes[j]
  }

  /** The chunk size itself, then every smaller fallback, largest first. */
  method BuildDownloadChunkAttempts(chunkSize: int) returns (attempts: seq<int>)
    ensures attempts != [] && attempts[0] == chunkSize && |attempts| <= 3
    ensures forall size :: size in attempts <==> size == chunkSize || (IsFallback(size) && size < chunkSize)
    ensures Decreasing(attempts)
  {
    attempts := [chunkSize];
    if PREFERRED_FALLBACK < chunkSize { attempts := attempts + [PREFERRED_FALLBACK]; }
    if SMALLEST_FALLBACK < attempts[|attempts| - 1] { attempts := attempts + [SMALLEST_FALLBACK]; }
  }

  /** How one request ended: the body was read, the server refused it, it threw, or the
      signal was found aborted afterwards. */
  datatype Reply = Delivered | Refused | AbortError | Overload | NetworkLoss | OtherError

  datatype Ending = Success | Aborted | Overloaded | Failed

  class StreamState {
    var sawNetworkError: bool
    var sawOverload: bool
    var successfulStreams: nat

    constructor ()
      ensures !sawNetworkError && !sawOverload && successfulStreams == 0
    {
      sawNetworkError, sawOverload, successfulStreams := false, false, 0;
    }
  }

  datatype Request = Request(size: int, reply: Reply)

  /** Replies after which the stream goes on with another request. */
  predicate Retryable(reply: Reply) { reply.Refused? || reply.NetworkLoss? || reply.OtherError? }

  /** Which of the sizes is next, and how often it has been retried: a lost connection
      is retried with the same size, anything else moves on to the next. */
  function Position(sent: seq<Request>): (p: (nat, nat))
    ensures p.1 <= MAX_NETWORK_RETRIES
  {
    if sent == [] then (0, 0)
    else
      var (attempt, retry) := Position(sent[..|sent| - 1]);
      if sent[|sent| - 1].reply.NetworkLoss? && retry < MAX_NETWORK_RETRIES then (attempt, retry + 1)
        else (attempt + 1, 0)
  }

  ghost predicate AllRetryable(sent: seq<Request>) {
    forall r | r in sent :: Retryable(r.reply)
  }

  /** Every request has the size its predecessors call for. */
  ghost predicate FollowsPlan(sent: seq<Request>, attempts: seq<int>)
    decreases |sent|
  {
    sent != [] ==>
      var init, last := sent[..|sent| - 1], sent[|sent| - 1];
      && FollowsPlan(init, attempts) && AllRetryable(init)
      && Position(init).0 < |attempts| && last.size == attempts[Position(init).0]
  }

  lemma PlanStep(sent: seq<Request>, attempts: seq<int>, r: Request)
    requires FollowsPlan(sent, attempts) && AllRetryable(sent)
    requires Position(sent).0 < |attempts| && r.size == attempts[Position(sent).0]
    ensures FollowsPlan(sent + [r], attempts)
    ensures var (attempt, retry) := Position(sent);
            Position(sent + [r])
              == if r.reply.NetworkLoss? && retry < MAX_NETWORK_RETRIES then (attempt, retry + 1) else (attempt + 1, 0)
    ensures Retryable(r.reply) ==> AllRetryable(sent + [r])
  {
    hide AllRetryable, Retryable;
    assert (sent + [r])[..|sent|] == sent;
    assert Retryable(r.reply) ==> AllRetryable(sent + [r]) by { RetryableStep(sent, r); }
  }

  lemma RetryableStep(sent: seq<Request>, r: Request)
    requires AllRetryable(sent)
    ensures Retryable(r.reply) ==> AllRetryable(sent + [r])
  {
    assert forall q | q in sent + [r] :: q in sent || q == r;
  }

  /** At most three requests go out for each size. */
  lemma {:induction false} PlanCount(sent: seq<Request>, attempts: seq<int>)
    requires FollowsPlan(sent, attempts)
    ensures var (attempt, retry) := Position(sent);
            && attempt <= |attempts| && (attempt == |attempts| ==> retry == 0)
            && |sent| <= attempt * (MAX_NETWORK_RETRIES + 1) + retry
            && |sent| <= |attempts| * (MAX_NETWORK_RETRIES + 1)
    decreases |sent|
  {
    if sent != [] { PlanCount(sent[..|sent| - 1], attempts); }
  }

  /** A stream has tried every size before the one it is at; one that gives up, all of them. */
  lemma {:induction false} PlanTriesAll(sent: seq<Request>, attempts: seq<int>, i: nat)
    requires FollowsPlan(sent, attempts) && i < Position(sent).0
    ensures i < |attempts| && exists r :: r in sent && r.size == attempts[i]
    decreases |sent|
  {
    var init, last := sent[..|sent| - 1], sent[|sent| - 1];
    assert last in sent && forall r | r in init :: r in sent;
    if i < Position(init).0 { PlanTriesAll(init, attempts, i); }
  }

  lemma {:induction false} PlanIsAt(sent: seq<Request>, attempts: seq<int>)
    requires FollowsPlan(sent, attempts) && Decreasing(attempts)
    ensures Position(sent).0 < |attempts| ==> forall r | r in sent :: r.size >= attempts[Position(sent).0]
    decreases |sent|
  {
    if sent != [] {
      var init, last := sent[..|sent| - 1], sent[|sent| - 1];
      PlanIsAt(init, attempts);
      assert forall r | r in sent :: r in init || r == last;
    }
  }

  /** The sizes of a stream never grow again. */
  lemma {:induction false} PlanNeverGrows(sent: seq<Request>, attempts: seq<int>)
    requires FollowsPlan(sent, attempts) && Decreasing(attempts)
    ensures forall i, j | 0 <= i < j < |sent| :: sent[i].size >= sent[j].size
    decreases |sent|
  {
    if sent != [] {
      var init := sent[..|sent| - 1];
      PlanNeverGrows(init, attempts);
      PlanIsAt(init, attempts);
      assert forall i | 0 <= i < |init| :: sent[i] == init[i] && init[i] in init;
    }
  }

  lemma {:induction false} PlanOfPrefix(sent: seq<Request>, attempts: seq<int>, k: nat)
    requires FollowsPlan(sent, attempts) && k <= |sent|
    ensures FollowsPlan(sent[..k], attempts)
    decreases |sent|
  {
    if k == |sent| {
      assert sent[..k] == sent;
    } else {
      assert sent[..|sent| - 1][..k] == sent[..k];
      PlanOfPrefix(sent[..|sent| - 1], attempts, k);
    }
  }

  /** The last requests are lost connections at the current size, as many as it was retried,
      and the one before them was at the size before. */
  lemma {:induction false} RetriesAreTrailing(sent: seq<Request>, attempts: seq<int>)
    requires FollowsPlan(sent, attempts)
    ensures var (attempt, retry) := Position(sent);
            && retry <= |sent|
            && (forall j | |sent| - retry <= j < |sent| ::
                  sent[j].reply.NetworkLoss? && attempt < |attempts| && sent[j].size == attempts[attempt])
            && (|sent| > retry ==> 0 < attempt <= |attempts| && sent[|sent| - retry - 1].size == attempts[attempt - 1])
    decreases |sent|
  {
    if sent != [] {
      var init := sent[..|sent| - 1];
      RetriesAreTrailing(init, attempts);
      assert forall j | 0 <= j < |init| :: sent[j] == init[j];
    }
  }

  /** Request k goes on with the size of the one before if and only if that lost its
      connection and was not the third in a row to do so at this size. */
  lemma {:induction false} PlanRetriesLosses(sent: seq<Request>, attempts: seq<int>, k: nat)
    requires FollowsPlan(sent, attempts) && Decreasing(attempts) && 0 < k < |sent|
    ensures sent[k].size == sent[k - 1].size <==>
            && sent[k - 1].reply.NetworkLoss?
            && !(k >= 3 && sent[k - 2].reply.NetworkLoss? && sent[k - 3].reply.NetworkLoss?
                 && sent[k - 3].size == sent[k - 2].size == sent[k - 1].size)
  {
    var before := sent[..k - 1];
    PlanOfPrefix(sent, attempts, k);
    PlanOfPrefix(sent, attempts, k + 1);
    assert sent[..k + 1][..k] == sent[..k] && sent[..k][..k - 1] == before;
    PlanOfPrefix(sent, attempts, k - 1);
    RetriesAreTrailing(before, attempts);
    assert forall j | 0 <= j < |before| :: before[j] == sent[j];
    hide FollowsPlan;
  }

  predicate Thrown(reply: Reply) { !reply.Delivered? && !reply.Refused? }

  /** How often the abort signal is read: before every request, and again when it threw. */
  function Readings(sent: seq<Request>): nat {
    if sent == [] then 0
    else
      var last := sent[|sent| - 1].reply;
      Readings(sent[..|sent| - 1]) + if last == Delivered || last == Refused then 1 else 2
  }

  /** Request i went out on a signal not aborted and got this reply, or threw and then
      found the signal aborted. */
  ghost predicate Answered(sent: seq<Request>, i: nat, reply: Reply, signalAborted: nat -> bool)
    requires i < |sent|
  {
    var n := Readings(sent[..i]);
    && !signalAborted(n + 1)
    && sent[i].reply == if reply != Delivered && reply != Refused && signalAborted(n + 2) then AbortError else reply
  }

  ghost predicate SawLoss(sent: seq<Request>) {
    exists r | r in sent :: r.reply.NetworkLoss?
  }

  lemma {:induction false} AnsweredStep(sent: seq<Request>, r: Request, reply: nat -> Reply, signalAborted: nat -> bool)
    requires forall i | 0 <= i < |sent| :: Answered(sent, i, reply(i), signalAborted)
    requires !signalAborted(Readings(sent) + 1)
    requires r.reply == if Thrown(reply(|sent|)) && signalAborted(Readings(sent) + 2) then AbortError
                        else reply(|sent|)
    ensures forall i | 0 <= i <= |sent| :: Answered(sent + [r], i, reply(i), signalAborted)
  {
    hide Answered, Thrown;
    forall i | 0 <= i <= |sent|
      ensures Answered(sent + [r], i, reply(i), signalAborted)
    {
      AnsweredStays(sent, r, i, reply(i), signalAborted);
    }
  }

  lemma {:induction false} AnsweredStays(sent: seq<Request>, r: Request, i: nat, reply: Reply,
                                         signalAborted: nat -> bool)
    requires i <= |sent|
    requires i < |sent| ==> Answered(sent, i, reply, signalAborted)
    requires i == |sent| ==> !signalAborted(Readings(sent) + 1)
    requires i == |sent| ==>
               r.reply == if Thrown(reply) && signalAborted(Readings(sent) + 2) then AbortError else reply
    ensures Answered(sent + [r], i, reply, signalAborted)
  {
    hide Readings;
    var longer := sent + [r];
    assert longer[..i] == sent[..i];
    if i == |sent| { assert sent[..i] == sent; }
  }

  lemma ReadingsStep(sent: seq<Request>, r: Request)
    ensures Readings(sent + [r]) == Readings(sent) + if Thrown(r.reply) then 2 else 1
  {
    assert (sent + [r])[..|sent|] == sent;
  }

  lemma LossStep(sent: seq<Request>, r: Request)
    ensures SawLoss(sent + [r]) <==> SawLoss(sent) || r.reply.NetworkLoss?
  {
    assert forall q | q in sent + [r] :: q in sent || q == r;
    assert r in sent + [r];
    if SawLoss(sent) {
      var q :| q in sent && q.reply.NetworkLoss?;
      assert q in sent + [r];
    }
  }

  /** A stream that has not ended yet, about to make the request at position `p`. */
  ghost predicate Going(sent: seq<Request>, attempts: seq<int>, p: (nat, nat), reply: nat -> Reply,
    signalAborted: nat -> bool) {
    && FollowsPlan(sent, attempts) && Position(sent) == p && AllRetryable(sent)
    && forall i | 0 <= i < |sent| :: Answered(sent, i, reply(i), signalAborted)
  }

  lemma NothingSent(attempts: seq<int>, reply: nat -> Reply, signalAborted: nat -> bool)
    ensures Going([], attempts, (0, 0), reply, signalAborted) && !SawLoss([]) && Readings([]) == 0
  {
  }

  /** What holds of the requests so far, should the stream stop here. */
  ghost predicate Reported(sent: seq<Request>, attempts: seq<int>, reply: nat -> Reply, signalAborted: nat -> bool) {
    && FollowsPlan(sent, attempts) && |sent| <= |attempts| * (MAX_NETWORK_RETRIES + 1)
    && forall i | 0 <= i < |sent| :: Answered(sent, i, reply(i), signalAborted)
  }

  lemma StandingStill(sent: seq<Request>, attempts: seq<int>, p: (nat, nat), reply: nat -> Reply,
    signalAborted: nat -> bool)
    requires Going(sent, attempts, p, reply, signalAborted)
    ensures Reported(sent, attempts, reply, signalAborted) && AllRetryable(sent) && Position(sent) == p
    ensures sent != [] ==> !sent[|sent| - 1].reply.Delivered? && !sent[|sent| - 1].reply.Overload?
  {
    PlanCount(sent, attempts);
  }

  lemma GoingOn(sent: seq<Request>, attempts: seq<int>, p: (nat, nat), reply: nat -> Reply, signalAborted: nat -> bool,
                r: Request)
    requires Going(sent, attempts, p, reply, signalAborted) && p.0 < |attempts| && p.1 <= MAX_NETWORK_RETRIES
    requires r.size == attempts[p.0] && !signalAborted(Readings(sent) + 1)
    requires r.reply == if Thrown(reply(|sent|)) && signalAborted(Readings(sent) + 2) then AbortError
                        else reply(|sent|)
    ensures Reported(sent + [r], attempts, reply, signalAborted)
    ensures r.reply.NetworkLoss? && p.1 < MAX_NETWORK_RETRIES ==>
              Going(sent + [r], attempts, (p.0, p.1 + 1), reply, signalAborted)
    ensures r.reply.NetworkLoss? && p.1 == MAX_NETWORK_RETRIES ==>
        Going(sent + [r], attempts, (p.0 + 1, 0), reply, signalAborted)
    ensures r.reply.Refused? || r.reply.OtherError? ==> Going(sent + [r], attempts, (p.0 + 1, 0), reply, signalAborted)
    ensures SawLoss(sent + [r]) <==> SawLoss(sent) || r.reply.NetworkLoss?
    ensures Readings(sent + [r]) == Readings(sent) + if Thrown(r.reply) then 2 else 1
  {
    hide FollowsPlan, AllRetryable, SawLoss, Answered, Thrown, Readings;
    AnsweredStep(sent, r, reply, signalAborted);
    ReadingsStep(sent, r);
    PlanStep(sent, attempts, r);
    PlanCount(sent + [r], attempts);
    LossStep(sent, r);
  }

  /** Runs one stream against the replies its requests get and the readings of the abort
      signal. `sent` is the requests made; a request that threw with the signal aborted
      counts as aborted. */
  method RunDownloadStream(chunkSize: int, reply: nat -> Reply, signalAborted: nat -> bool, state: StreamState)
    returns (ending: Ending, sent: seq<Request>, ghost attempts: seq<int>)
    modifies state
    ensures attempts != [] && attempts[0] == chunkSize && Decreasing(attempts)
    ensures forall size :: size in attempts <==> size == chunkSize || (IsFallback(size) && size < chunkSize)
    ensures |attempts| <= 3 && Reported(sent, attempts, reply, signalAborted)
    ensures ending.Success? <==> sent != [] && sent[|sent| - 1].reply.Delivered?
    ensures ending.Overloaded? <==> sent != [] && sent[|sent| - 1].reply.Overload?
    ensures ending.Failed? ==> Position(sent).0 == |attempts| && AllRetryable(sent)
    ensures ending.Aborted? ==>
              || (sent != [] && sent[|sent| - 1].reply.AbortError?)
              || (signalAborted(Readings(sent) + 1) && AllRetryable(sent))
    ensures state.sawOverload <==> old(state.sawOverload) || ending.Overloaded?
    ensures state.sawNetworkError <==> old(state.sawNetworkError) || SawLoss(sent)
    ensures state.successfulStreams == old(state.successfulStreams)
  {
    hide FollowsPlan, Position, AllRetryable, Decreasing, SawLoss, Answered, Readings, Thrown, Going, Reported,
      IsFallback;
    var sizes := BuildDownloadChunkAttempts(chunkSize);
    attempts := sizes;
    sent := [];
    NothingSent(attempts, reply, signalAborted);
    var reading := 0;
    for attemptIndex := 0 to |sizes|
      invariant Going(sent, attempts, (attemptIndex, 0), reply, signalAborted) && reading == Readings(sent)
      invariant state.sawOverload == old(state.sawOverload) && state.successfulStreams == old(state.successfulStreams)
      invariant state.sawNetworkError <==> old(state.sawNetworkError) || SawLoss(sent)
    {
      for retry := 0 to MAX_NETWORK_RETRIES + 1
        invariant retry <= MAX_NETWORK_RETRIES
        invariant Going(sent, attempts, (attemptIndex, retry), reply, signalAborted) && reading == Readings(sent)
        invariant state.sawOverload == old(state.sawOverload) && state.successfulStreams == old(state.successfulStreams)
        invariant state.sawNetworkError <==> old(state.sawNetworkError) || SawLoss(sent)
      {
        StandingStill(sent, attempts, (attemptIndex, retry), reply, signalAborted);
        reading := reading + 1;
        if signalAborted(reading) { return Aborted, sent, attempts; }
        var answer := reply(|sent|);
        if Thrown(answer) {
          reading := reading + 1;
          if signalAborted(reading) { answer := AbortError; }
        }
        GoingOn(sent, attempts, (attemptIndex, retry), reply, signalAborted, Request(sizes[attemptIndex], answer));
        sent := sent + [Request(sizes[attemptIndex], answer)];
        match answer {
          case Delivered => return Success, sent, attempts;
          case Refused => break;
          case AbortError => return Aborted, sent, attempts;
          case Overload =>
            state.sawOverload := true;
            return Overloaded, sent, attempts;
          case NetworkLoss =>
            state.sawNetworkError := true;
            if retry < MAX_NETWORK_RETRIES { continue; }
            break;
          case OtherError => break;
        }
      }
    }
    StandingStill(sent, attempts, (|sizes|, 0), reply, signalAborted);
    return Failed, sent, attempts;
  }
}
