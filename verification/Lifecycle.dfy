/** The run and share lifecycle of web/openbyte.js, with the guards of
    web/speedtest.js. Every await is a scheduling point: each continuation is one
    event, and cancelled runs and old share requests may resume arbitrarily late. */
module Lifecycle {
  import opened Options

  datatype Direction = Down | Up

  datatype Phase = Idle | Latency | Transfer(direction: Direction) | Results

  /** A result field, tagged with the run that wrote it. Latency and jitter are missing
      from a run none of whose pings succeeded. */
  datatype Field<T> = Clear | By(run: nat, value: T)

  datatype Fields = Fields(
    download: Field<int>,
    upload: Field<int>,
    latency: Field<Option<int>>,
    jitter: Field<Option<int>>,
    downloadLatency: Field<int>,
    uploadLatency: Field<int>)

  const Cleared := Fields(Clear, Clear, Clear, Clear, Clear, Clear)

  datatype Outcome = Value(value: int) | AbortError | OtherError

  /** The await a run is suspended at. */
  datatype Await =
    | OnLatency
    | OnFrame(direction: Direction)
    | OnWorker(direction: Direction)
    | OnProbe(direction: Direction, outcome: Outcome)
    | OnReturn(direction: Direction, value: int)
    | OnCatch
    | Finished

  /** A share request, with the generation and the values it was started with. */
  datatype Stage = Fetching | Settled(saved: bool) | Closed(saved: bool)
  datatype Post = Post(generation: nat, body: Fields, stage: Stage)

  /** A share click waiting for a post. */
  datatype Click = Click(post: nat, generation: nat)

  /** A link handed to the user. */
  datatype Handover = Handover(post: nat, generation: nat)

  datatype App = App(
    phase: Phase,
    isRunning: bool,
    controller: Option<nat>,
    generation: nat,
    fields: Fields,
    resultId: Option<nat>,
    savePromise: Option<nat>,
    aborted: set<nat>,
    runs: map<nat, Await>,
    posts: map<nat, Post>,
    clicks: seq<Click>,
    handed: seq<Handover>)

  const Initial := App(Idle, false, None, 0, Cleared, None, None, {}, map[], map[], [], [])

  datatype Event =
    | Start(serverOnline: bool)
    | Reset
    | LatencyDone(run: nat, latency: Option<int>, jitter: Option<int>)
    | FrameDone(run: nat, workers: bool)
    | WorkerDone(run: nat, outcome: Outcome, probing: bool)
    | ProbeStopped(run: nat, loaded: int)
    | DirectionDone(run: nat, renders: bool)
    | Caught(run: nat)
    | ShareClick(post: nat)
    | PostAnswered(post: nat, accepted: bool, validId: bool)
    | PostClosed(post: nat)
    | ClickResumed(click: nat)

  // ----- what the continuations do -----

  predicate IsCurrent(s: App, run: nat) { s.controller == Some(run) }

  function ResetToIdle(s: App): App {
    s.(aborted := if s.controller.Some? then s.aborted + {s.controller.value} else s.aborted,
       isRunning := false, controller := None, generation := s.generation + 1, phase := Idle,
       resultId := None, savePromise := None, fields := Cleared)
  }

  function At(s: App, run: nat, await_: Await): App { s.(runs := s.runs[run := await_]) }

  /** The end of startTest's finally block. */
  function Finish(s: App, run: nat): App {
    var s1 := if IsCurrent(s, run) then s.(isRunning := false, controller := None) else s;
    At(s1, run, Finished)
  }

  function StartTest(s: App, serverOnline: bool): App {
    if s.isRunning || !serverOnline then s
    else
      var run := s.generation + 1;
      At(s.(isRunning := true, controller := Some(run), generation := run, fields := Cleared, phase := Latency),
         run, OnLatency)
  }

  function AfterLatency(s: App, run: nat, latency: Option<int>, jitter: Option<int>): App {
    if !IsCurrent(s, run) then Finish(s, run)
    else if run in s.aborted then Finish(ResetToIdle(s), run)
    else
      At(s.(fields := s.fields.(latency := By(run, latency), jitter := By(run, jitter)), phase := Transfer(Down)),
         run, OnFrame(Down))
  }

  /** runTest after its finally block. */
  function AfterProbe(s: App, run: nat, direction: Direction, outcome: Outcome, loaded: int): App {
    if !outcome.Value? then At(s, run, OnCatch)
    else if run in s.aborted || !IsCurrent(s, run) then At(s, run, OnCatch)
    else
      var fields := if direction.Down? then s.fields.(downloadLatency := By(run, loaded))
                    else s.fields.(uploadLatency := By(run, loaded));
      At(s.(fields := fields), run, OnReturn(direction, outcome.value))
  }

  function ShowResults(s: App): App { s.(phase := Results, resultId := None, savePromise := None) }

  function AfterDirection(s: App, run: nat, direction: Direction, value: int, renders: bool): App {
    if !IsCurrent(s, run) then Finish(s, run)
    else if run in s.aborted then Finish(ResetToIdle(s), run)
    else if direction.Down? then
      At(s.(fields := s.fields.(download := By(run, value)), phase := Transfer(Up)), run, OnFrame(Up))
    else
      var s1 := ShowResults(s.(fields := s.fields.(upload := By(run, value))));
      if renders then Finish(s1, run) else Finish(ResetToIdle(s1), run)
  }

  function AfterCatch(s: App, run: nat): App {
    if !IsCurrent(s, run) then Finish(s, run) else Finish(ResetToIdle(s), run)
  }

  function HandleShare(s: App, post: nat): App {
    if s.phase != Results then s
    else if s.resultId.Some? then s.(handed := s.handed + [Handover(s.resultId.value, s.generation)])
    else if s.savePromise.Some? then s.(clicks := s.clicks + [Click(s.savePromise.value, s.generation)])
    else
      s.(posts := s.posts[post := Post(s.generation, s.fields, Fetching)], savePromise := Some(post),
         clicks := s.clicks + [Click(post, s.generation)])
  }

  function AfterPost(s: App, post: nat, accepted: bool, validId: bool): App
    requires post in s.posts
  {
    var stale := s.phase != Results || s.generation != s.posts[post].generation;
    var saved := accepted && !stale && validId;
    s.(posts := s.posts[post := s.posts[post].(stage := Settled(saved))],
       resultId := if saved then Some(post) else s.resultId)
  }

  function ClosePost(s: App, post: nat): App
    requires post in s.posts && s.posts[post].stage.Settled?
  {
    s.(posts := s.posts[post := s.posts[post].(stage := Closed(s.posts[post].stage.saved))],
       savePromise := if s.savePromise == Some(post) then None else s.savePromise)
  }

  function ResumeClick(s: App, c: Click): App
    requires c.post in s.posts && !s.posts[c.post].stage.Fetching?
  {
    if s.posts[c.post].stage.saved && s.phase == Results && s.generation == c.generation then
      s.(handed := s.handed + [Handover(c.post, s.generation)])
    else s
  }

  /** Can `e` happen in `s`? A continuation only resumes from the await it belongs to. */
  predicate Enabled(s: App, e: Event) {
    match e {
      case Start(_) => true
      case Reset => true
      case LatencyDone(run, _, _) => run in s.runs && s.runs[run].OnLatency?
      case FrameDone(run, _) => run in s.runs && s.runs[run].OnFrame?
      case WorkerDone(run, _, _) => run in s.runs && s.runs[run].OnWorker?
      case ProbeStopped(run, _) => run in s.runs && s.runs[run].OnProbe?
      case DirectionDone(run, _) => run in s.runs && s.runs[run].OnReturn?
      case Caught(run) => run in s.runs && s.runs[run].OnCatch?
      case ShareClick(post) => post !in s.posts
      case PostAnswered(post, _, _) => post in s.posts && s.posts[post].stage.Fetching?
      case PostClosed(post) => post in s.posts && s.posts[post].stage.Settled?
      case ClickResumed(click) =>
        click < |s.clicks| && s.clicks[click].post in s.posts && !s.posts[s.clicks[click].post].stage.Fetching?
    }
  }

  function Step(s: App, e: Event): App {
    if !Enabled(s, e) then s
    else
      match e {
        case Start(serverOnline) => StartTest(s, serverOnline)
        case Reset => ResetToIdle(s)
        case LatencyDone(run, latency, jitter) => AfterLatency(s, run, latency, jitter)
        case FrameDone(run, workers) =>
          if run in s.aborted || !workers then At(s, run, OnCatch)
          else At(s, run, OnWorker(s.runs[run].direction))
        case WorkerDone(run, outcome, probing) =>
          var d := s.runs[run].direction;
          if probing then At(s, run, OnProbe(d, outcome)) else AfterProbe(s, run, d, outcome, 0)
        case ProbeStopped(run, loaded) =>
          AfterProbe(s, run, s.runs[run].direction, s.runs[run].outcome, loaded)
        case DirectionDone(run, renders) =>
          AfterDirection(s, run, s.runs[run].direction, s.runs[run].value, renders)
        case Caught(run) => AfterCatch(s, run)
        case ShareClick(post) => HandleShare(s, post)
        case PostAnswered(post, accepted, validId) => AfterPost(s, post, accepted, validId)
        case PostClosed(post) => ClosePost(s, post)
        case ClickResumed(click) => ResumeClick(s, s.clicks[click])
      }
  }

  function Run(events: seq<Event>): App {
    if events == [] then Initial else Step(Run(events[..|events| - 1]), events[|events| - 1])
  }

  // ----- what every reachable state keeps -----

  /** The controller belongs to the newest run, which is unfinished and not aborted;
      every other unfinished run is aborted. */
  ghost predicate ControlInv(s: App) {
    && (s.isRunning <==> s.controller.Some?)
    && (s.controller.Some? ==>
          && s.controller.value == s.generation
          && s.generation in s.runs
          && !s.runs[s.generation].Finished?
          && s.generation !in s.aborted
          && s.phase != Idle && s.phase != Results)
    && (forall r | r in s.runs :: r <= s.generation)
    && (forall r | r in s.aborted :: r < s.generation)
    && (forall r | r in s.runs && !s.runs[r].Finished? :: IsCurrent(s, r) || r in s.aborted)
  }

  ghost predicate Wrote<T>(f: Field<T>, run: nat) { f.By? && f.run == run }

  ghost predicate WroteAll(f: Fields, run: nat) {
    && Wrote(f.download, run) && Wrote(f.upload, run)
    && Wrote(f.latency, run) && Wrote(f.jitter, run)
    && Wrote(f.downloadLatency, run) && Wrote(f.uploadLatency, run)
  }

  /** What the current run has and has not written when it is suspended where it is. */
  ghost predicate Progress(s: App, at: Await) {
    var f, r := s.fields, s.generation;
    match at {
      case OnLatency => s.phase == Latency && f == Cleared
      case OnFrame(d) => s.phase == Transfer(d) && HasBefore(f, r, d)
      case OnWorker(d) => s.phase == Transfer(d) && HasBefore(f, r, d)
      case OnProbe(d, _) => s.phase == Transfer(d) && HasBefore(f, r, d)
      case OnReturn(d, _) =>
        && s.phase == Transfer(d)
        && Wrote(if d.Down? then f.downloadLatency else f.uploadLatency, r)
        && HasBefore(if d.Down? then f.(downloadLatency := Clear) else f.(uploadLatency := Clear), r, d)
      case OnCatch => true
      case Finished => true
    }
  }

  /** The fields are just those written before the transfer in direction `d` starts. */
  ghost predicate HasBefore(f: Fields, run: nat, d: Direction) {
    && Wrote(f.latency, run) && Wrote(f.jitter, run)
    && f.upload == Clear && f.uploadLatency == Clear
    && (if d.Up? then Wrote(f.download, run) && Wrote(f.downloadLatency, run)
        else f.download == Clear && f.downloadLatency == Clear)
  }

  ghost predicate FieldsInv(s: App) {
    && (s.controller.Some? && s.generation in s.runs ==> Progress(s, s.runs[s.generation]))
    && (s.phase == Results ==> WroteAll(s.fields, s.generation))
  }

  /** A post of the current generation that is still open is the one save promise, and
      results are on display; an older one can no longer be confused with it. */
  ghost predicate PostsInv(s: App) {
    && (forall p | p in s.posts :: s.posts[p].generation <= s.generation)
    && (forall p | p in s.posts && s.posts[p].generation == s.generation ::
          && s.phase == Results && s.posts[p].body == s.fields
          && (!s.posts[p].stage.Closed? ==> s.savePromise == Some(p)))
    && (forall p, q | p in s.posts && q in s.posts && !s.posts[p].stage.Closed? && !s.posts[q].stage.Closed?
          && s.posts[p].generation == s.posts[q].generation :: p == q)
  }

  /** Ids and links always belong to the generation that shows them. */
  ghost predicate LinksInv(s: App) {
    && (s.phase == Results && s.resultId.Some? ==>
          && s.resultId.value in s.posts && s.posts[s.resultId.value].generation == s.generation
          && Saved(s.posts[s.resultId.value].stage))
    && (s.phase == Results && s.savePromise.Some? ==>
          s.savePromise.value in s.posts && s.posts[s.savePromise.value].generation == s.generation)
    && (forall c | c in s.clicks :: c.post in s.posts && s.posts[c.post].generation == c.generation)
    && (forall h | h in s.handed ::
          h.post in s.posts && s.posts[h.post].generation == h.generation && Saved(s.posts[h.post].stage))
  }

  predicate Saved(stage: Stage) { !stage.Fetching? && stage.saved }

  ghost predicate Inv(s: App) { ControlInv(s) && FieldsInv(s) && PostsInv(s) && LinksInv(s) }

  predicate IsShareEvent(e: Event) { e.ShareClick? || e.PostAnswered? || e.PostClosed? || e.ClickResumed? }

  /** Share events leave the runs and everything they write alone. */
  lemma ShareEventFrame(s: App, e: Event)
    requires IsShareEvent(e)
    ensures var n := Step(s, e);
            n == s.(resultId := n.resultId, savePromise := n.savePromise, posts := n.posts,
                    clicks := n.clicks, handed := n.handed)
  {
  }

  /** What a run event can do to the share state: nothing, move between two phases other
      than results, enter results with the share state cleared, or open a generation. */
  ghost predicate RunEventEffect(s: App, n: App) {
    && n.posts == s.posts && n.clicks == s.clicks && n.handed == s.handed
    && (|| (n.generation == s.generation && n.phase == s.phase && (s.phase == Results ==> n.fields == s.fields)
            && n.resultId == s.resultId && n.savePromise == s.savePromise)
        || (n.generation == s.generation && s.phase != Results && n.phase != Results)
        || (n.generation == s.generation && s.phase != Results && n.phase == Results
            && n.resultId == None && n.savePromise == None)
        || (n.generation > s.generation && n.phase != Results))
  }

  lemma RunEventFrame(s: App, e: Event)
    requires ControlInv(s) && !IsShareEvent(e)
    ensures RunEventEffect(s, Step(s, e))
  {
  }

  /** The run a continuation belongs to. */
  function RunOf(e: Event): Option<nat> {
    match e {
      case LatencyDone(run, _, _) => Some(run)
      case FrameDone(run, _) => Some(run)
      case WorkerDone(run, _, _) => Some(run)
      case ProbeStopped(run, _) => Some(run)
      case DirectionDone(run, _) => Some(run)
      case Caught(run) => Some(run)
      case _ => None
    }
  }

  /** A continuation of a run that is no longer current changes where that run is
      suspended and nothing else: no result, no phase, no controller, no share state. */
  lemma StaleContinuationWritesNothing(s: App, e: Event)
    requires ControlInv(s) && Enabled(s, e)
    requires RunOf(e).Some? && !IsCurrent(s, RunOf(e).value)
    ensures RunOf(e).value in Step(s, e).runs
    ensures Step(s, e) == At(s, RunOf(e).value, Step(s, e).runs[RunOf(e).value])
  {
  }

  lemma CurrentKeepsControl(s: App, e: Event)
    requires ControlInv(s) && Enabled(s, e)
    requires RunOf(e).Some? && IsCurrent(s, RunOf(e).value)
    ensures ControlInv(Step(s, e))
  {
  }

  lemma CurrentKeepsFields(s: App, e: Event)
    requires ControlInv(s) && FieldsInv(s) && Enabled(s, e)
    requires RunOf(e).Some? && IsCurrent(s, RunOf(e).value)
    ensures FieldsInv(Step(s, e))
  {
    assert s.phase != Results && RunOf(e).value == s.generation;
  }

  lemma RunEventKeepsRuns(s: App, e: Event)
    requires ControlInv(s) && FieldsInv(s) && !IsShareEvent(e)
    ensures ControlInv(Step(s, e)) && FieldsInv(Step(s, e))
  {
    if Enabled(s, e) && RunOf(e).Some? {
      hide Step, Enabled, WroteAll, HasBefore;
      if IsCurrent(s, RunOf(e).value) {
        CurrentKeepsControl(s, e);
        CurrentKeepsFields(s, e);
      } else {
        StaleContinuationWritesNothing(s, e);
      }
    }
  }

  lemma ShareEventKeepsPosts(s: App, e: Event)
    requires FieldsInv(s) && PostsInv(s) && IsShareEvent(e)
    requires s.phase == Results && s.savePromise.Some? ==> s.savePromise.value in s.posts
    ensures PostsInv(Step(s, e))
  {
    hide WroteAll;
    if e.ShareClick? { ClickKeepsPosts(s, e.post); }
  }

  lemma ClickKeepsPosts(s: App, post: nat)
    requires FieldsInv(s) && PostsInv(s)
    requires s.phase == Results && s.savePromise.Some? ==> s.savePromise.value in s.posts
    ensures PostsInv(Step(s, ShareClick(post)))
  {
    hide WroteAll;
  }

  lemma ShareEventKeepsLinks(s: App, e: Event)
    requires LinksInv(s) && IsShareEvent(e)
    ensures LinksInv(Step(s, e))
  {
    hide WroteAll;
  }

  lemma StepKeepsInv(s: App, e: Event)
    requires Inv(s)
    ensures Inv(Step(s, e))
  {
    hide Step, WroteAll;
    if IsShareEvent(e) {
      ShareEventFrame(s, e);
      ShareEventKeepsPosts(s, e);
      ShareEventKeepsLinks(s, e);
    } else {
      RunEventFrame(s, e);
      RunEventKeepsRuns(s, e);
    }
  }

  lemma {:induction false} RunKeepsInv(events: seq<Event>)
    ensures Inv(Run(events))
  {
    if events != [] {
      hide Step, Inv;
      RunKeepsInv(events[..|events| - 1]);
      StepKeepsInv(Run(events[..|events| - 1]), events[|events| - 1]);
    }
  }

  // ----- what each run reported, read off the event log -----

  function NoteTransfer(f: Fields, run: nat, d: Direction, value: int): Fields {
    if d.Down? then f.(download := By(run, value)) else f.(upload := By(run, value))
  }

  function NoteLoaded(f: Fields, run: nat, d: Direction, value: int): Fields {
    if d.Down? then f.(downloadLatency := By(run, value)) else f.(uploadLatency := By(run, value))
  }

  /** The measurements of one event, whether or not its run is still current. */
  function Note(f: Fields, s: App, e: Event): Fields
    requires Enabled(s, e)
  {
    match e {
      case LatencyDone(run, latency, jitter) => f.(latency := By(run, latency), jitter := By(run, jitter))
      case WorkerDone(run, outcome, probing) =>
        var d := s.runs[run].direction;
        var f1 := if outcome.Value? then NoteTransfer(f, run, d, outcome.value) else f;
        if probing then f1 else NoteLoaded(f1, run, d, 0)
      case ProbeStopped(run, loaded) => NoteLoaded(f, run, s.runs[run].direction, loaded)
      case _ => f
    }
  }

  /** Everything run `run` has reported so far. */
  function Reported(events: seq<Event>, run: nat): Fields {
    if events == [] then Cleared
    else
      var init, e := events[..|events| - 1], events[|events| - 1];
      var s := Run(init);
      if Enabled(s, e) && RunOf(e) == Some(run) then Note(Reported(init, run), s, e) else Reported(init, run)
  }

  ghost predicate Agrees<T>(shown: Field<T>, reported: Field<T>) { shown == Clear || shown == reported }

  ghost predicate AllAgree(f: Fields, g: Fields) {
    && Agrees(f.download, g.download) && Agrees(f.upload, g.upload)
    && Agrees(f.latency, g.latency) && Agrees(f.jitter, g.jitter)
    && Agrees(f.downloadLatency, g.downloadLatency) && Agrees(f.uploadLatency, g.uploadLatency)
  }

  /** The value a suspended run still carries is the one its worker reported. */
  ghost predicate Carries(at: Await, run: nat, g: Fields) {
    match at {
      case OnProbe(d, outcome) =>
        outcome.Value? ==> (if d.Down? then g.download else g.upload) == By(run, outcome.value)
      case OnReturn(d, value) => (if d.Down? then g.download else g.upload) == By(run, value)
      case _ => true
    }
  }

  ghost predicate ReportInv(s: App, g: Fields) {
    && AllAgree(s.fields, g)
    && (s.controller.Some? && s.generation in s.runs ==> Carries(s.runs[s.generation], s.generation, g))
    && (s.generation !in s.runs ==> s.fields == Cleared)
  }

  ghost predicate StartsAfresh(s: App) {
    s.fields == Cleared && (s.controller.Some? ==> s.generation in s.runs && s.runs[s.generation].OnLatency?)
  }

  lemma TransferKeepsReport(s: App, e: Event, g: Fields)
    requires ControlInv(s) && FieldsInv(s) && ReportInv(s, g) && Enabled(s, e)
    requires RunOf(e) == Some(s.generation) && IsCurrent(s, s.generation) && (e.WorkerDone? || e.ProbeStopped?)
    ensures var n := Step(s, e); n.generation == s.generation && ReportInv(n, Note(g, s, e))
  {
  }

  lemma CurrentKeepsReport(s: App, e: Event, g: Fields)
    requires ControlInv(s) && FieldsInv(s) && ReportInv(s, g) && Enabled(s, e)
    requires RunOf(e) == Some(s.generation) && IsCurrent(s, s.generation)
    ensures var n := Step(s, e);
            if n.generation == s.generation then ReportInv(n, Note(g, s, e)) else StartsAfresh(n)
  {
    if e.WorkerDone? || e.ProbeStopped? {
      hide Step, Note, Enabled, ControlInv, FieldsInv, ReportInv;
      TransferKeepsReport(s, e, g);
    }
  }

  /** Events of no run, and those of stale runs, keep the shown fields or clear them. */
  lemma OtherEventsKeepReport(s: App, e: Event, g: Fields)
    requires ControlInv(s) && ReportInv(s, g)
    requires !Enabled(s, e) || RunOf(e).None? || !IsCurrent(s, RunOf(e).value)
    ensures var n := Step(s, e);
            if n.generation == s.generation then ReportInv(n, g) else StartsAfresh(n)
  {
    hide AllAgree, Carries;
    if Enabled(s, e) && RunOf(e).Some? {
      StaleContinuationWritesNothing(s, e);
    }
  }

  /** The newest run is either current or finished, so its continuations are never stale. */
  lemma NewestRunIsCurrent(s: App, e: Event)
    requires ControlInv(s) && Enabled(s, e) && RunOf(e) == Some(s.generation)
    ensures IsCurrent(s, s.generation)
  {
  }

  lemma FreshAgrees(s: App, g: Fields)
    requires StartsAfresh(s)
    ensures ReportInv(s, g)
  {
  }

  lemma {:induction false} RunKeepsReport(events: seq<Event>)
    ensures ReportInv(Run(events), Reported(events, Run(events).generation))
  {
    if events != [] {
      hide Step, Note, Enabled, ReportInv, StartsAfresh, ControlInv, FieldsInv, PostsInv, LinksInv;
      var init, e := events[..|events| - 1], events[|events| - 1];
      var s := Run(init);
      var g := Reported(init, s.generation);
      RunKeepsReport(init);
      RunKeepsInv(init);
      if Enabled(s, e) && RunOf(e) == Some(s.generation) {
        NewestRunIsCurrent(s, e);
        CurrentKeepsReport(s, e, g);
      } else {
        OtherEventsKeepReport(s, e, g);
      }
      if Run(events).generation != s.generation {
        FreshAgrees(Run(events), Reported(events, Run(events).generation));
      }
    }
  }

  // ----- the main results -----

  /** Run isolation, after any sequence of events: a test is running exactly when there
      is a controller, the current signal is never aborted and every other unfinished
      run's is, and the six results on display all come from the newest run and are the
      values it reported. */
  lemma RunIsolation(events: seq<Event>)
    ensures var s := Run(events);
            && (s.isRunning <==> s.controller.Some?)
            && (s.controller.Some? ==> s.controller.value !in s.aborted)
            && (forall r | r in s.runs && !s.runs[r].Finished? && s.controller != Some(r) :: r in s.aborted)
            && (s.phase == Results ==>
                  WroteAll(s.fields, s.generation) && s.fields == Reported(events, s.generation))
  {
    hide Run, Reported, Carries, PostsInv, LinksInv;
    RunKeepsInv(events);
    RunKeepsReport(events);
  }

  /** Share isolation, after any sequence of events: a share id on display comes from a
      post of the current generation that carried exactly the displayed results, no
      generation has two posts open, and every link ever handed over belonged to the
      generation on display at that moment. */
  lemma ShareIsolation(events: seq<Event>)
    ensures var s := Run(events);
            && (s.phase == Results && s.resultId.Some? ==>
                  var p := s.resultId.value;
                  p in s.posts && s.posts[p].generation == s.generation && s.posts[p].body == s.fields)
            && (forall p, q | p in s.posts && q in s.posts && !s.posts[p].stage.Closed? && !s.posts[q].stage.Closed?
                  && s.posts[p].generation == s.posts[q].generation :: p == q)
            && (forall h | h in s.handed ::
                  h.post in s.posts && s.posts[h.post].generation == h.generation && Saved(s.posts[h.post].stage))
  {
    hide Run, ControlInv, FieldsInv;
    RunKeepsInv(events);
  }

  /** A post of an older generation that completes late stores no id, and closing it
      leaves the save promise of the results on display alone. */
  lemma StalePostWritesNothing(events: seq<Event>, p: nat, e: Event)
    requires var s := Run(events);
             Enabled(s, e) && (e.PostAnswered? || e.PostClosed?) && e.post == p && p in s.posts
             && s.posts[p].generation != s.generation
    ensures var s, n := Run(events), Step(Run(events), e);
            && n.resultId == s.resultId
            && (s.phase == Results ==> n.savePromise == s.savePromise)
            && p in n.posts && n == s.(savePromise := n.savePromise, posts := s.posts[p := n.posts[p]])
  {
    hide Run, ControlInv, FieldsInv, PostsInv;
    RunKeepsInv(events);
  }
}
