/** The transfer-slot allocator of internal/api/speedtest.go: an atomic counter per
    direction, a per-address table under a mutex, and a rollback for each refusal.
    Requests interleave between any two atomic steps. */
module Slots {
  /** Where a request stands between its atomic steps. */
  datatype Stage =
    | Over        // its increment passed the maximum; the rollback is still due
    | Passed      // below the maximum; the per-address check is still due
    | IpRefused   // refused by the per-address check; the rollback is still due
    | Holding     // owns a slot
    | Releasing   // counter given back; the per-address release is still due
    | Gone

  datatype Request = Request(ip: string, download: bool, stage: Stage)

  datatype Policy = Policy(maxConcurrent: int, maxPerIP: int)

  type Requests = map<nat, Request>

  /** Does the policy keep a per-address count for `ip`? */
  predicate Enforced(policy: Policy, ip: string) { ip != "" && policy.maxPerIP > 0 }

  /** Between increment and decrement. */
  predicate IsActive(r: Request, download: bool) {
    r.download == download && r.stage in {Over, Passed, IpRefused, Holding}
  }

  /** Past the global check and not yet given back. */
  predicate IsPassed(r: Request, download: bool) {
    r.download == download && r.stage in {Passed, IpRefused, Holding}
  }

  predicate IsHolder(r: Request, ip: string, download: bool) {
    r.ip == ip && r.download == download && r.stage in {Holding, Releasing}
  }

  function ActiveSet(reqs: Requests, download: bool): set<nat> {
    set id | id in reqs && IsActive(reqs[id], download)
  }

  function PassedSet(reqs: Requests, download: bool): set<nat> {
    set id | id in reqs && IsPassed(reqs[id], download)
  }

  function HolderSet(reqs: Requests, ip: string, download: bool): set<nat> {
    set id | id in reqs && IsHolder(reqs[id], ip, download)
  }

  // ----- the protocol, on the requests alone -----

  datatype Action =
    | Increment(id: nat, ip: string, download: bool)
    | RollbackOver(id: nat)
    | CheckIP(id: nat)
    | RollbackIP(id: nat)
    | ReleaseCounter(id: nat)
    | ReleaseIP(id: nat)

  predicate Enabled(reqs: Requests, a: Action) {
    if a.Increment? then a.id !in reqs
    else
      a.id in reqs &&
      match a {
        case RollbackOver(id) => reqs[id].stage == Over
        case CheckIP(id) => reqs[id].stage == Passed
        case RollbackIP(id) => reqs[id].stage == IpRefused
        case ReleaseCounter(id) => reqs[id].stage == Holding
        case ReleaseIP(id) => reqs[id].stage == Releasing
      }
  }

  function Become(reqs: Requests, id: nat, stage: Stage): Requests
    requires id in reqs
  {
    reqs[id := reqs[id].(stage := stage)]
  }

  /** One atomic step, decided by who holds what; an impossible step changes nothing. */
  function Step(policy: Policy, reqs: Requests, a: Action): Requests {
    if !Enabled(reqs, a) then reqs
    else
      match a {
        case Increment(id, ip, download) =>
          var stage := if |ActiveSet(reqs, download)| + 1 > policy.maxConcurrent then Over else Passed;
          reqs[id := Request(ip, download, stage)]
        case RollbackOver(id) => Become(reqs, id, Gone)
        case CheckIP(id) =>
          var r := reqs[id];
          var full := Enforced(policy, r.ip) && |HolderSet(reqs, r.ip, r.download)| >= policy.maxPerIP;
          Become(reqs, id, if full then IpRefused else Holding)
        case RollbackIP(id) => Become(reqs, id, Gone)
        case ReleaseCounter(id) => Become(reqs, id, Releasing)
        case ReleaseIP(id) => Become(reqs, id, Gone)
      }
  }

  function Run(policy: Policy, actions: seq<Action>): Requests {
    if actions == [] then map[]
    else Step(policy, Run(policy, actions[..|actions| - 1]), actions[|actions| - 1])
  }

  function Cap(policy: Policy): nat { if policy.maxConcurrent > 0 then policy.maxConcurrent else 0 }

  /** The bounds every reachable state keeps. */
  ghost predicate Safe(policy: Policy, reqs: Requests) {
    && (forall d: bool :: |PassedSet(reqs, d)| <= Cap(policy))
    && (forall ip: string, d: bool | Enforced(policy, ip) :: |HolderSet(reqs, ip, d)| <= policy.maxPerIP)
  }

  function One(b: bool): int { if b then 1 else 0 }

  lemma SizeAfter(before: set<nat>, after: set<nat>, id: nat)
    requires before - {id} == after - {id}
    ensures |after| == |before| - One(id in before) + One(id in after)
  {
    assert before == (before - {id}) + if id in before then {id} else {};
    assert after == (after - {id}) + if id in after then {id} else {};
  }

  /** How the three counts move when one request becomes `r`. */
  lemma CountsAfter(reqs: Requests, id: nat, r: Request, ip: string, d: bool)
    ensures var n := reqs[id := r];
            && |ActiveSet(n, d)|
               == |ActiveSet(reqs, d)| - One(id in reqs && IsActive(reqs[id], d)) + One(IsActive(r, d))
            && |PassedSet(n, d)|
               == |PassedSet(reqs, d)| - One(id in reqs && IsPassed(reqs[id], d)) + One(IsPassed(r, d))
            && |HolderSet(n, ip, d)|
               == |HolderSet(reqs, ip, d)| - One(id in reqs && IsHolder(reqs[id], ip, d)) + One(IsHolder(r, ip, d))
  {
    hide IsActive, IsPassed, IsHolder;
    var n := reqs[id := r];
    SizeAfter(ActiveSet(reqs, d), ActiveSet(n, d), id);
    SizeAfter(PassedSet(reqs, d), PassedSet(n, d), id);
    SizeAfter(HolderSet(reqs, ip, d), HolderSet(n, ip, d), id);
  }

  lemma StepChangesOne(policy: Policy, reqs: Requests, a: Action)
    requires Enabled(reqs, a)
    ensures var n := Step(policy, reqs, a); a.id in n && n == reqs[a.id := n[a.id]]
  {
  }

  lemma PassedAreActive(reqs: Requests, d: bool)
    ensures |PassedSet(reqs, d)| <= |ActiveSet(reqs, d)|
  {
    assert ActiveSet(reqs, d) == PassedSet(reqs, d) + (ActiveSet(reqs, d) - PassedSet(reqs, d));
  }

  lemma StepKeepsSafe(policy: Policy, reqs: Requests, a: Action)
    requires Safe(policy, reqs)
    ensures Safe(policy, Step(policy, reqs, a))
  {
    if Enabled(reqs, a) {
      hide ActiveSet, PassedSet, HolderSet;
      var n := Step(policy, reqs, a);
      StepChangesOne(policy, reqs, a);
      forall d: bool
        ensures |PassedSet(n, d)| <= Cap(policy)
      {
        CountsAfter(reqs, a.id, n[a.id], "", d);
        PassedAreActive(reqs, d);
      }
      forall ip: string, d: bool | Enforced(policy, ip)
        ensures |HolderSet(n, ip, d)| <= policy.maxPerIP
      {
        CountsAfter(reqs, a.id, n[a.id], ip, d);
      }
    }
  }

  /** Slot safety under every interleaving: the requests past the global check never
      exceed the maximum, and no address holds more than its share per direction. */
  lemma {:induction false} RunIsSafe(policy: Policy, actions: seq<Action>)
    ensures Safe(policy, Run(policy, actions))
  {
    if actions == [] {
      forall ip: string, d: bool
        ensures PassedSet(map[], d) == {} && HolderSet(map[], ip, d) == {}
      {
      }
    } else {
      RunIsSafe(policy, actions[..|actions| - 1]);
      StepKeepsSafe(policy, Run(policy, actions[..|actions| - 1]), actions[|actions| - 1]);
    }
  }

  /** Refused by the global check, with the rollback still due. */
  function OverSet(reqs: Requests, download: bool): set<nat> {
    set id | id in reqs && reqs[id].download == download && reqs[id].stage == Over
  }

  lemma ActiveSplits(reqs: Requests, d: bool)
    ensures |ActiveSet(reqs, d)| == |PassedSet(reqs, d)| + |OverSet(reqs, d)|
  {
    assert ActiveSet(reqs, d) == PassedSet(reqs, d) + OverSet(reqs, d);
    assert PassedSet(reqs, d) !! OverSet(reqs, d);
  }

  /** What a refusal says, in any reachable state. Globally a request can be turned away
      although fewer than the maximum have passed: exactly when refused requests that have
      not rolled back yet make up the difference. With none of those, a refusal means that
      exactly the maximum have passed. Per address a refusal always means a full share. */
  lemma RefusalMeansFull(policy: Policy, actions: seq<Action>, a: Action)
    requires Enabled(Run(policy, actions), a)
    ensures a.Increment? ==>
              var reqs := Run(policy, actions);
              var refused := Step(policy, reqs, a)[a.id].stage == Over;
              var passed, over := |PassedSet(reqs, a.download)|, |OverSet(reqs, a.download)|;
              && (refused && passed < policy.maxConcurrent <==> 0 < policy.maxConcurrent - passed <= over)
              && (over == 0 ==> (refused <==> passed == Cap(policy)))
    ensures a.CheckIP? ==>
              var reqs := Run(policy, actions);
              var r := reqs[a.id];
              (Step(policy, reqs, a)[a.id].stage == IpRefused <==>
                Enforced(policy, r.ip) && |HolderSet(reqs, r.ip, r.download)| == policy.maxPerIP)
  {
    hide Run, ActiveSet, PassedSet, OverSet, HolderSet;
    RunIsSafe(policy, actions);
    if a.Increment? { ActiveSplits(Run(policy, actions), a.download); }
  }

  lemma RunExtends(policy: Policy, actions: seq<Action>, a: Action) returns (longer: seq<Action>)
    ensures longer == actions + [a]
    ensures Run(policy, longer) == Step(policy, if actions == [] then map[] else Run(policy, actions), a)
  {
    longer := actions + [a];
    assert longer[..|actions|] == actions;
  }

  /** The gap is real: with a maximum of one, a request is refused although the only
      request that passed has given its slot back, because a refused one lingers. */
  lemma RefusedWithEverySlotFree(policy: Policy, ip: string, other: string, d: bool)
    requires policy.maxConcurrent == 1
    ensures var reqs := Run(policy, [Increment(0, ip, d), Increment(1, other, d), CheckIP(0), ReleaseCounter(0)]);
            && PassedSet(reqs, d) == {}
            && 2 !in reqs && Step(policy, reqs, Increment(2, ip, d))[2].stage == Over
  {
    hide Run;
    var one := RunExtends(policy, [], Increment(0, ip, d));
    var two := RunExtends(policy, one, Increment(1, other, d));
    var three := RunExtends(policy, two, CheckIP(0));
    var four := RunExtends(policy, three, ReleaseCounter(0));
    assert ActiveSet(map[], d) == {} && HolderSet(Run(policy, two), ip, d) == {};
    assert ActiveSet(Run(policy, one), d) == {0};
    assert Run(policy, two) == map[0 := Request(ip, d, Passed), 1 := Request(other, d, Over)];
    FourthStep(policy, Run(policy, three), ip, other, d);
    assert four == [Increment(0, ip, d), Increment(1, other, d), CheckIP(0), ReleaseCounter(0)];
  }

  lemma FourthStep(policy: Policy, reqs: Requests, ip: string, other: string, d: bool)
    requires policy.maxConcurrent == 1
    requires reqs.Keys == {0, 1} && reqs[1] == Request(other, d, Over)
    requires reqs[0] == Request(ip, d, Holding) || reqs[0] == Request(ip, d, IpRefused)
    ensures reqs[0].stage == Holding ==>
              var n := Step(policy, reqs, ReleaseCounter(0));
              PassedSet(n, d) == {} && 2 !in n && Step(policy, n, Increment(2, ip, d))[2].stage == Over
  {
    if reqs[0].stage == Holding {
      var n := Step(policy, reqs, ReleaseCounter(0));
      assert ActiveSet(n, d) == {1};
    }
  }

  // ----- the counters the server keeps -----

  datatype IPCounts = IPCounts(downloads: int, uploads: int)

  datatype Counters = Counters(downloads: int, uploads: int, byIP: map<string, IPCounts>)

  /** The counters say exactly what the requests say: each direction's counter is the
      number of requests between increment and decrement, and the table has an entry
      for exactly the addresses that hold something under the policy. */
  ghost predicate Matches(policy: Policy, c: Counters, reqs: Requests) {
    && c.downloads == |ActiveSet(reqs, true)|
    && c.uploads == |ActiveSet(reqs, false)|
    && (forall ip: string :: ip in c.byIP <==>
          Enforced(policy, ip) && |HolderSet(reqs, ip, true)| + |HolderSet(reqs, ip, false)| > 0)
    && (forall ip | ip in c.byIP ::
          c.byIP[ip] == IPCounts(|HolderSet(reqs, ip, true)|, |HolderSet(reqs, ip, false)|))
  }

  /** Which counts a step moves: one direction's, one address's, by one or not at all. */
  lemma StepCounts(policy: Policy, reqs: Requests, a: Action)
    requires Enabled(reqs, a)
    ensures var n := Step(policy, reqs, a);
            var r := n[a.id];
            && |ActiveSet(n, r.download)| == |ActiveSet(reqs, r.download)|
               + (if a.Increment? then 1 else if a.CheckIP? || a.ReleaseIP? then 0 else -1)
            && |ActiveSet(n, !r.download)| == |ActiveSet(reqs, !r.download)|
            && |HolderSet(n, r.ip, r.download)| == |HolderSet(reqs, r.ip, r.download)|
               + (if a.CheckIP? && r.stage == Holding then 1 else if a.ReleaseIP? then -1 else 0)
            && forall ip: string, d: bool | ip != r.ip || d != r.download ::
                  |HolderSet(n, ip, d)| == |HolderSet(reqs, ip, d)|
  {
    hide ActiveSet, HolderSet;
    var n := Step(policy, reqs, a);
    var r := n[a.id];
    StepChangesOne(policy, reqs, a);
    CountsAfter(reqs, a.id, r, r.ip, r.download);
    CountsAfter(reqs, a.id, r, r.ip, !r.download);
    forall ip: string, d: bool | ip != r.ip || d != r.download
      ensures |HolderSet(n, ip, d)| == |HolderSet(reqs, ip, d)|
    {
      CountsAfter(reqs, a.id, r, ip, d);
    }
  }

  // ----- the server on its counters alone -----

  /** The counters, and where each request stands. */
  datatype Machine = Machine(counters: Counters, reqs: Requests)

  function Moved(c: Counters, download: bool, delta: int): Counters {
    if download then c.(downloads := c.downloads + delta) else c.(uploads := c.uploads + delta)
  }

  function AcquireIP(policy: Policy, c: Counters, ip: string, download: bool): (Counters, bool) {
    if ip == "" || policy.maxPerIP <= 0 then (c, true)
    else
      var counts := if ip in c.byIP then c.byIP[ip] else IPCounts(0, 0);
      if (if download then counts.downloads else counts.uploads) >= policy.maxPerIP then (c, false)
      else
        var more := if download then counts.(downloads := counts.downloads + 1)
          else counts.(uploads := counts.uploads + 1);
        (c.(byIP := c.byIP[ip := more]), true)
  }

  function FreeIP(c: Counters, ip: string, download: bool): Counters {
    if ip == "" || ip !in c.byIP then c
    else
      var counts := c.byIP[ip];
      var fewer :=
        if download then (if counts.downloads > 0 then counts.(downloads := counts.downloads - 1) else counts)
        else if counts.uploads > 0 then counts.(uploads := counts.uploads - 1)
        else counts;
      if fewer == IPCounts(0, 0) then c.(byIP := c.byIP - {ip}) else c.(byIP := c.byIP[ip := fewer])
  }

  /** One atomic step as the server takes it: it looks at counters, never at requests. */
  function CounterStep(policy: Policy, m: Machine, a: Action): Machine {
    if !Enabled(m.reqs, a) then m
    else
      match a {
        case Increment(id, ip, download) =>
          var c := Moved(m.counters, download, 1);
          var stage := if (if download then c.downloads else c.uploads) > policy.maxConcurrent then Over else Passed;
          Machine(c, m.reqs[id := Request(ip, download, stage)])
        case RollbackOver(id) => Machine(Moved(m.counters, m.reqs[id].download, -1), Become(m.reqs, id, Gone))
        case CheckIP(id) =>
          var (c, ok) := AcquireIP(policy, m.counters, m.reqs[id].ip, m.reqs[id].download);
          Machine(c, Become(m.reqs, id, if ok then Holding else IpRefused))
        case RollbackIP(id) => Machine(Moved(m.counters, m.reqs[id].download, -1), Become(m.reqs, id, Gone))
        case ReleaseCounter(id) => Machine(Moved(m.counters, m.reqs[id].download, -1), Become(m.reqs, id, Releasing))
        case ReleaseIP(id) =>
          Machine(FreeIP(m.counters, m.reqs[id].ip, m.reqs[id].download), Become(m.reqs, id, Gone))
      }
  }

  function CounterRun(policy: Policy, actions: seq<Action>): Machine {
    if actions == [] then Machine(Counters(0, 0, map[]), map[])
    else CounterStep(policy, CounterRun(policy, actions[..|actions| - 1]), actions[|actions| - 1])
  }

  lemma CheckIPAgrees(policy: Policy, m: Machine, id: nat)
    requires Matches(policy, m.counters, m.reqs) && Enabled(m.reqs, CheckIP(id))
    ensures var n := CounterStep(policy, m, CheckIP(id));
            n.reqs == Step(policy, m.reqs, CheckIP(id)) && Matches(policy, n.counters, n.reqs)
  {
    hide ActiveSet, HolderSet;
    StepCounts(policy, m.reqs, CheckIP(id));
  }

  lemma ReleaseIPStep(policy: Policy, m: Machine, id: nat)
    requires Enabled(m.reqs, ReleaseIP(id))
    ensures var r := m.reqs[id];
            && Step(policy, m.reqs, ReleaseIP(id)) == Become(m.reqs, id, Gone)
            && CounterStep(policy, m, ReleaseIP(id))
                  == Machine(FreeIP(m.counters, r.ip, r.download), Become(m.reqs, id, Gone))
  {
  }

  /** Giving back one of `held`, next to `other` in the other direction. */
  lemma FreeIPEffect(c: Counters, ip: string, download: bool, held: nat, other: nat)
    requires held > 0
    requires ip in c.byIP ==> c.byIP[ip] == if download then IPCounts(held, other) else IPCounts(other, held)
    requires ip == "" ==> ip !in c.byIP
    ensures var n := FreeIP(c, ip, download);
            && n == c.(byIP := n.byIP)
            && (forall k | k != ip :: (k in n.byIP <==> k in c.byIP) && (k in c.byIP ==> n.byIP[k] == c.byIP[k]))
            && (ip in n.byIP <==> ip in c.byIP && held - 1 + other > 0)
            && (ip in n.byIP ==>
                  n.byIP[ip] == if download then IPCounts(held - 1, other) else IPCounts(other, held - 1))
  {
  }

  lemma ReleaseIPAgrees(policy: Policy, m: Machine, id: nat)
    requires Matches(policy, m.counters, m.reqs) && Enabled(m.reqs, ReleaseIP(id))
    ensures var n := CounterStep(policy, m, ReleaseIP(id));
            n.reqs == Step(policy, m.reqs, ReleaseIP(id)) && Matches(policy, n.counters, n.reqs)
  {
    var r := m.reqs[id];
    assert id in HolderSet(m.reqs, r.ip, r.download);
    hide ActiveSet, HolderSet, Step, Enabled;
    StepCounts(policy, m.reqs, ReleaseIP(id));
    ReleaseIPStep(policy, m, id);
    var held, other := |HolderSet(m.reqs, r.ip, r.download)|, |HolderSet(m.reqs, r.ip, !r.download)|;
    FreeIPEffect(m.counters, r.ip, r.download, held, other);
  }

  lemma IncrementAgrees(policy: Policy, m: Machine, a: Action)
    requires Matches(policy, m.counters, m.reqs) && Enabled(m.reqs, a) && a.Increment?
    ensures var n := CounterStep(policy, m, a);
            n.reqs == Step(policy, m.reqs, a) && Matches(policy, n.counters, n.reqs)
  {
    hide ActiveSet, HolderSet;
    StepCounts(policy, m.reqs, a);
  }

  lemma GiveBackAgrees(policy: Policy, m: Machine, a: Action)
    requires Matches(policy, m.counters, m.reqs) && Enabled(m.reqs, a)
    requires a.RollbackOver? || a.RollbackIP? || a.ReleaseCounter?
    ensures var n := CounterStep(policy, m, a);
            n.reqs == Step(policy, m.reqs, a) && Matches(policy, n.counters, n.reqs)
  {
    hide ActiveSet, HolderSet;
    StepCounts(policy, m.reqs, a);
  }

  lemma CounterStepAgrees(policy: Policy, m: Machine, a: Action)
    requires Matches(policy, m.counters, m.reqs)
    ensures var n := CounterStep(policy, m, a);
            n.reqs == Step(policy, m.reqs, a) && Matches(policy, n.counters, n.reqs)
  {
    if Enabled(m.reqs, a) {
      hide CounterStep, Step, Matches;
      match a {
        case Increment(_, _, _) => IncrementAgrees(policy, m, a);
        case CheckIP(id) => CheckIPAgrees(policy, m, id);
        case ReleaseIP(id) => ReleaseIPAgrees(policy, m, id);
        case _ => GiveBackAgrees(policy, m, a);
      }
    }
  }

  /** Deciding on counters is deciding on requests: over every interleaving the server
      takes the protocol's decisions, and its counters say what the requests say. */
  lemma {:induction false} CountersFollowRequests(policy: Policy, actions: seq<Action>)
    ensures var m := CounterRun(policy, actions);
            m.reqs == Run(policy, actions) && Matches(policy, m.counters, m.reqs)
  {
    if actions == [] {
      assert ActiveSet(map[], true) == {} && ActiveSet(map[], false) == {};
      assert forall ip: string, d: bool :: HolderSet(map[], ip, d) == {};
    } else {
      hide CounterStep, Step, Matches;
      CountersFollowRequests(policy, actions[..|actions| - 1]);
      CounterStepAgrees(policy, CounterRun(policy, actions[..|actions| - 1]), actions[|actions| - 1]);
    }
  }

  /** Whenever all requests of a run are gone, both counters are 0 and the table is empty. */
  lemma QuiescenceIsEmpty(policy: Policy, actions: seq<Action>)
    requires forall id | id in Run(policy, actions) :: Run(policy, actions)[id].stage == Gone
    ensures CounterRun(policy, actions).counters == Counters(0, 0, map[])
  {
    hide Run, CounterRun;
    CountersFollowRequests(policy, actions);
    var c, reqs := CounterRun(policy, actions).counters, Run(policy, actions);
    assert ActiveSet(reqs, true) == {} && ActiveSet(reqs, false) == {};
    forall ip: string
      ensures ip !in c.byIP
    {
      assert HolderSet(reqs, ip, true) == {} && HolderSet(reqs, ip, false) == {};
    }
    assert c.byIP.Keys == {};
  }

  /** The release guards, over every interleaving. An empty address returns before the
      lookup; any other finds no entry exactly when the policy sets no share, and an entry
      that is found always has something to give back. */
  lemma ReleaseGuardsAreIdle(policy: Policy, actions: seq<Action>, id: nat)
    requires var reqs := Run(policy, actions); id in reqs && reqs[id].stage == Releasing
    ensures var r, byIP := Run(policy, actions)[id], CounterRun(policy, actions).counters.byIP;
            && (r.ip != "" && r.ip !in byIP <==> r.ip != "" && policy.maxPerIP <= 0)
            && (r.ip in byIP ==> 0 < if r.download then byIP[r.ip].downloads else byIP[r.ip].uploads)
  {
    hide Run, CounterRun;
    CountersFollowRequests(policy, actions);
    var reqs := Run(policy, actions);
    assert id in HolderSet(reqs, reqs[id].ip, reqs[id].download);
  }

  /** Every policy without a share reaches the missing-entry guard. */
  lemma MissingEntryIsReached(policy: Policy, ip: string, d: bool)
    requires ip != "" && policy.maxPerIP <= 0 && policy.maxConcurrent >= 1
    ensures var actions := [Increment(0, ip, d), CheckIP(0), ReleaseCounter(0)];
            && Run(policy, actions) == map[0 := Request(ip, d, Releasing)]
            && ip !in CounterRun(policy, actions).counters.byIP
  {
    hide CounterRun, Run;
    var one := RunExtends(policy, [], Increment(0, ip, d));
    var two := RunExtends(policy, one, CheckIP(0));
    var three := RunExtends(policy, two, ReleaseCounter(0));
    assert ActiveSet(map[], d) == {};
    assert three == [Increment(0, ip, d), CheckIP(0), ReleaseCounter(0)];
    ReleaseGuardsAreIdle(policy, three, 0);
  }

  class SpeedTestHandler {
    const maxConcurrent: int
    const maxConcurrentPerIP: int
    var activeDownloads: int
    var activeUploads: int
    var activeByIP: map<string, IPCounts>
    ghost var reqs: Requests

    ghost function Rules(): Policy { Policy(maxConcurrent, maxConcurrentPerIP) }

    ghost function View(): Machine
      reads this
    {
      Machine(Counters(activeDownloads, activeUploads, activeByIP), reqs)
    }

    ghost predicate Valid()
      reads this
    {
      Matches(Rules(), View().counters, reqs)
    }

    constructor (maxConcurrent: int, maxConcurrentPerIP: int)
      ensures Valid() && reqs == map[]
      ensures Rules() == Policy(maxConcurrent, if maxConcurrentPerIP < 0 then 0 else maxConcurrentPerIP)
    {
      this.maxConcurrent := maxConcurrent;
      this.maxConcurrentPerIP := if maxConcurrentPerIP < 0 then 0 else maxConcurrentPerIP;
      activeDownloads, activeUploads, activeByIP := 0, 0, map[];
      reqs := map[];
      new;
      assert ActiveSet(reqs, true) == {} && ActiveSet(reqs, false) == {};
      assert forall ip: string, d: bool :: HolderSet(reqs, ip, d) == {};
    }

    /** The atomic add and the comparison of its result. */
    method AddAndCompare(ghost id: nat, ghost ip: string, isDownload: bool) returns (ok: bool)
      requires Valid() && id !in reqs
      modifies this
      ensures Valid() && reqs == Step(Rules(), old(reqs), Increment(id, ip, isDownload))
      ensures View() == CounterStep(Rules(), old(View()), Increment(id, ip, isDownload))
      ensures ok <==> reqs[id].stage == Passed
    {
      var counter: int;
      if isDownload {
        activeDownloads := activeDownloads + 1;
        counter := activeDownloads;
      } else {
        activeUploads := activeUploads + 1;
        counter := activeUploads;
      }
      ok := counter <= maxConcurrent;
      hide ActiveSet, HolderSet, Matches;
      CounterStepAgrees(Rules(), old(View()), Increment(id, ip, isDownload));
      reqs := Step(Rules(), reqs, Increment(id, ip, isDownload));
    }

    /** The atomic decrement: a rollback, or the first half of a release. */
    method GiveBackCounter(ghost a: Action, isDownload: bool)
      requires Valid() && (a.RollbackOver? || a.RollbackIP? || a.ReleaseCounter?)
      requires Enabled(reqs, a) && reqs[a.id].download == isDownload
      modifies this
      ensures Valid() && reqs == Step(Rules(), old(reqs), a)
      ensures View() == CounterStep(Rules(), old(View()), a)
    {
      if isDownload {
        activeDownloads := activeDownloads - 1;
      } else {
        activeUploads := activeUploads - 1;
      }
      hide ActiveSet, HolderSet, Matches;
      CounterStepAgrees(Rules(), old(View()), a);
      reqs := Step(Rules(), reqs, a);
    }

    /** The per-address check, under its mutex. */
    method TryAcquirePerIP(ghost id: nat, clientIP: string, isDownload: bool) returns (ok: bool)
      requires Valid() && Enabled(reqs, CheckIP(id))
      requires reqs[id].ip == clientIP && reqs[id].download == isDownload
      modifies this
      ensures Valid() && reqs == Step(Rules(), old(reqs), CheckIP(id))
      ensures View() == CounterStep(Rules(), old(View()), CheckIP(id))
      ensures ok <==> reqs[id].stage == Holding
    {
      hide ActiveSet, HolderSet, Matches;
      CounterStepAgrees(Rules(), View(), CheckIP(id));
      reqs := Step(Rules(), reqs, CheckIP(id));
      if clientIP == "" { return true; }
      if maxConcurrentPerIP <= 0 { return true; }
      var counts := if clientIP in activeByIP then activeByIP[clientIP] else IPCounts(0, 0);
      var current := if isDownload then counts.downloads else counts.uploads;
      if current >= maxConcurrentPerIP { return false; }
      counts := if isDownload then counts.(downloads := counts.downloads + 1)
        else counts.(uploads := counts.uploads + 1);
      activeByIP := activeByIP[clientIP := counts];
      return true;
    }

    /** The per-address half of a release, under its mutex. */
    method ReleasePerIP(ghost id: nat, clientIP: string, isDownload: bool)
      requires Valid() && Enabled(reqs, ReleaseIP(id))
      requires reqs[id].ip == clientIP && reqs[id].download == isDownload
      modifies this
      ensures Valid() && reqs == Step(Rules(), old(reqs), ReleaseIP(id))
      ensures View() == CounterStep(Rules(), old(View()), ReleaseIP(id))
    {
      hide ActiveSet, HolderSet, Matches;
      CounterStepAgrees(Rules(), View(), ReleaseIP(id));
      reqs := Step(Rules(), reqs, ReleaseIP(id));
      if clientIP == "" { return; }
      if clientIP !in activeByIP { return; }
      var counts := activeByIP[clientIP];
      if isDownload {
        if counts.downloads > 0 { counts := counts.(downloads := counts.downloads - 1); }
      } else if counts.uploads > 0 {
        counts := counts.(uploads := counts.uploads - 1);
      }
      activeByIP := activeByIP[clientIP := counts];
      if counts.downloads == 0 && counts.uploads == 0 {
        activeByIP := activeByIP - {clientIP};
        assert activeByIP == old(activeByIP) - {clientIP};
      }
    }

    /** The two calls as the handlers make them, when nothing runs in between. */
    method TryAcquireSpeedtestSlot(ghost id: nat, clientIP: string, isDownload: bool) returns (ok: bool)
      requires Valid() && id !in reqs
      modifies this
      ensures Valid() && id in reqs && reqs == old(reqs)[id := reqs[id]]
      ensures reqs[id] == Request(clientIP, isDownload, if ok then Holding else Gone)
      ensures ok <==> |ActiveSet(old(reqs), isDownload)| < maxConcurrent
                      && !(Enforced(Rules(), clientIP)
                           && |HolderSet(old(reqs), clientIP, isDownload)| >= maxConcurrentPerIP)
    {
      hide ActiveSet, HolderSet, Matches;
      StepCounts(Rules(), reqs, Increment(id, clientIP, isDownload));
      var below := AddAndCompare(id, clientIP, isDownload);
      if !below {
        GiveBackCounter(RollbackOver(id), isDownload);
        return false;
      }
      var granted := TryAcquirePerIP(id, clientIP, isDownload);
      if !granted {
        GiveBackCounter(RollbackIP(id), isDownload);
        return false;
      }
      return true;
    }

    method ReleaseSpeedtestSlot(ghost id: nat, clientIP: string, isDownload: bool)
      requires Valid() && id in reqs && reqs[id] == Request(clientIP, isDownload, Holding)
      modifies this
      ensures Valid() && reqs == old(reqs)[id := Request(clientIP, isDownload, Gone)]
    {
      hide ActiveSet, HolderSet, Matches;
      GiveBackCounter(ReleaseCounter(id), isDownload);
      ReleasePerIP(id, clientIP, isDownload);
    }
  }
}
