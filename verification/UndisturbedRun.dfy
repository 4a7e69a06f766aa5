/** The run and share protocol of `Lifecycle` does get through. From any reachable state,
    with old runs, old posts and clicks resuming anywhere in between, a run that is not
    reset and meets no failure shows its results, and a share click hands over their link. */
module UndisturbedRun {
  import opened Lifecycle
  import opened Options

  // ----- a run among others -----

  /** A continuation without an error. */
  predicate Succeeds(e: Event) {
    match e
    case FrameDone(_, workers) => workers
    case WorkerDone(_, outcome, _) => outcome.Value?
    case DirectionDone(_, renders) => renders
    case Caught(_) => false
    case _ => true
  }

  /** Anything may happen but a reset, and a failure of run `run` itself. */
  ghost predicate Undisturbed(run: nat, events: seq<Event>) {
    forall e | e in events :: !e.Reset? && (RunOf(e) == Some(run) ==> Succeeds(e))
  }

  /** The most continuations a run suspended at `at` still has before it. */
  function Rank(at: Await): nat {
    match at
    case OnLatency => 9
    case OnFrame(d) => if d.Down? then 8 else 4
    case OnWorker(d) => if d.Down? then 7 else 3
    case OnProbe(d, _) => if d.Down? then 6 else 2
    case OnReturn(d, _) => if d.Down? then 5 else 1
    case OnCatch => 0
    case Finished => 0
  }

  ghost predicate InProgress(s: App, run: nat) {
    && IsCurrent(s, run) && run in s.runs && Rank(s.runs[run]) > 0
    && (s.runs[run].OnProbe? ==> s.runs[run].outcome.Value?)
  }

  ghost predicate Done(s: App, run: nat) {
    s.controller == None && s.phase == Results && run in s.runs && s.runs[run].Finished?
  }

  /** As long as no later generation has begun, run `run` goes on or shows its results. */
  ghost predicate OnTrack(s: App, run: nat) {
    s.generation >= run && (s.generation == run ==> InProgress(s, run) || Done(s, run))
  }

  /** How many of `events`, after `before`, were continuations of run `run`. */
  function Taken(before: seq<Event>, events: seq<Event>, run: nat): nat {
    if events == [] then 0
    else
      var init, e := events[..|events| - 1], events[|events| - 1];
      Taken(before, init, run) + if Enabled(Run(before + init), e) && RunOf(e) == Some(run) then 1 else 0
  }

  function RankOf(s: App, run: nat): nat { if run in s.runs then Rank(s.runs[run]) else 0 }

  /** A continuation of the run itself, without an error, brings it nearer its end. */
  lemma OwnStep(s: App, e: Event, run: nat)
    requires ControlInv(s) && s.generation == run && InProgress(s, run)
    requires Enabled(s, e) && RunOf(e) == Some(run) && Succeeds(e)
    ensures var n := Step(s, e); n.generation == run && OnTrack(n, run) && RankOf(n, run) < RankOf(s, run)
  {
  }

  /** No other event, short of a reset, moves the run. */
  lemma OtherStep(s: App, e: Event, run: nat)
    requires ControlInv(s) && OnTrack(s, run) && !e.Reset?
    requires !Enabled(s, e) || RunOf(e) != Some(run)
    ensures var n := Step(s, e); OnTrack(n, run) && (n.generation == run ==> RankOf(n, run) == RankOf(s, run))
  {
    hide Rank;
    if Enabled(s, e) {
      if IsShareEvent(e) {
        ShareEventFrame(s, e);
      } else if RunOf(e).Some? && !IsCurrent(s, RunOf(e).value) {
        StaleContinuationWritesNothing(s, e);
      }
    }
  }

  lemma TrackStep(s: App, e: Event, run: nat)
    requires ControlInv(s) && OnTrack(s, run) && !e.Reset? && (RunOf(e) == Some(run) ==> Succeeds(e))
    ensures var n := Step(s, e);
            && OnTrack(n, run)
            && (n.generation == run ==>
                  && s.generation == run
                  && RankOf(n, run) + (if Enabled(s, e) && RunOf(e) == Some(run) then 1 else 0) <= RankOf(s, run))
  {
    hide Step, Rank, Succeeds;
    GenerationGrows(s, e);
    if Enabled(s, e) && RunOf(e) == Some(run) {
      if s.generation == run {
        NotDoneYet(s, e, run);
        OwnStep(s, e, run);
      }
    } else {
      OtherStep(s, e, run);
    }
  }

  lemma GenerationGrows(s: App, e: Event)
    ensures Step(s, e).generation >= s.generation
  {
  }

  lemma NotDoneYet(s: App, e: Event, run: nat)
    requires OnTrack(s, run) && s.generation == run && Enabled(s, e) && RunOf(e) == Some(run)
    ensures InProgress(s, run)
  {
  }

  lemma {:induction false} StaysOnTrack(before: seq<Event>, events: seq<Event>, run: nat)
    requires OnTrack(Run(before), run) && Undisturbed(run, events)
    ensures var z := Run(before + events);
            && OnTrack(z, run)
            && (z.generation == run ==>
                  && Run(before).generation == run
                  && RankOf(z, run) + Taken(before, events, run) <= RankOf(Run(before), run))
  {
    if events == [] {
      assert before + events == before;
    } else {
      hide Run, Step, OnTrack, RankOf, ControlInv, Succeeds;
      var init, e := events[..|events| - 1], events[|events| - 1];
      assert e in events && forall f | f in init :: f in events;
      StaysOnTrack(before, init, run);
      assert before + events == (before + init) + [e];
      Extends(before + init, e);
      TrackStep(Run(before + init), e, run);
    }
  }

  lemma Extends(events: seq<Event>, e: Event)
    ensures Run(events + [e]) == Step(Run(events), e) && ControlInv(Run(events))
  {
    hide Step, ControlInv;
    assert (events + [e])[..|events|] == events;
    RunKeepsInv(events);
  }

  /** Wherever a run in progress is suspended, some continuation without an error can come. */
  lemma CanGoOn(s: App, run: nat)
    requires InProgress(s, run)
    ensures exists e :: Enabled(s, e) && RunOf(e) == Some(run) && Succeeds(e)
  {
    var e :=
      match s.runs[run]
      case OnLatency => LatencyDone(run, None, None)
      case OnFrame(_) => FrameDone(run, true)
      case OnWorker(_) => WorkerDone(run, Value(0), true)
      case OnProbe(_, _) => ProbeStopped(run, 0)
      case OnReturn(_, _) => DirectionDone(run, true)
      case _ => Caught(run);
    assert Enabled(s, e) && RunOf(e) == Some(run) && Succeeds(e);
  }

  /** A run started in any reachable state without one, and then undisturbed, is never
      stuck and never lost: until another run is started on its results page it is either
      in progress, with a continuation it can take and at most nine of them in all, or it
      shows its results, and those are the values it reported. */
  lemma UndisturbedRunFinishes(before: seq<Event>, events: seq<Event>)
    requires var run := Run(before).generation + 1; !Run(before).isRunning && Undisturbed(run, events)
    ensures var run, started := Run(before).generation + 1, before + [Start(true)];
            var z, taken := Run(started + events), Taken(started, events, run);
            && z.generation >= run
            && (z.generation == run ==>
                  if z.phase == Results then
                    && taken <= 9 && !z.isRunning
                    && WroteAll(z.fields, run) && z.fields == Reported(started + events, run)
                  else
                    && taken < 9 && z.isRunning
                    && exists e :: Enabled(z, e) && RunOf(e) == Some(run) && Succeeds(e))
  {
    hide Run, Step, Enabled, Succeeds, Reported, WroteAll, Taken, ControlInv;
    var run, started := Run(before).generation + 1, before + [Start(true)];
    Extends(before, Start(true));
    StartsOnTrack(Run(before));
    StaysOnTrack(started, events, run);
    RunIsolation(started + events);
    RunIsControlled(started + events);
    var z := Run(started + events);
    if z.generation == run {
      OnTrackShows(z, run);
      if z.phase != Results { CanGoOn(z, run); }
    }
  }

  lemma RunIsControlled(events: seq<Event>)
    ensures ControlInv(Run(events))
  {
    hide Run, ControlInv;
    RunKeepsInv(events);
  }

  lemma StartsOnTrack(s: App)
    requires ControlInv(s) && !s.isRunning
    ensures var n := Step(s, Start(true)); OnTrack(n, s.generation + 1) && RankOf(n, s.generation + 1) == 9
  {
  }

  lemma OnTrackShows(s: App, run: nat)
    requires ControlInv(s) && OnTrack(s, run) && s.generation == run
    ensures s.phase == Results ==> !s.isRunning && RankOf(s, run) == 0
    ensures s.phase != Results ==> s.isRunning && InProgress(s, run) && RankOf(s, run) > 0
  {
  }

  // ----- a share click among others -----

  /** Click number `click` of generation `g` waits for post `p`, unless the generation is over. */
  ghost predicate Waits(s: App, p: nat, click: nat, g: nat) {
    && s.generation >= g
    && p in s.posts && s.posts[p].generation == g
    && click < |s.clicks| && s.clicks[click] == Click(p, g)
    && (s.generation == g ==> s.phase == Results)
  }

  lemma WaitsStep(s: App, e: Event, p: nat, click: nat, g: nat)
    requires ControlInv(s) && Waits(s, p, click, g) && !e.Reset? && !(e.PostAnswered? && e.post == p)
    ensures var n := Step(s, e);
            && Waits(n, p, click, g)
            && (n.posts[p].stage.Fetching? <==> s.posts[p].stage.Fetching?)
            && (Saved(n.posts[p].stage) <==> Saved(s.posts[p].stage))
  {
    GenerationGrows(s, e);
    if IsShareEvent(e) {
      ShareEventFrame(s, e);
    } else {
      RunEventFrame(s, e);
    }
  }

  /** Nothing but a reset and a second answer to post `p` is excluded. */
  ghost predicate Unanswered(p: nat, events: seq<Event>) {
    forall e | e in events :: !e.Reset? && !(e.PostAnswered? && e.post == p)
  }

  lemma {:induction false} KeepsWaiting(before: seq<Event>, events: seq<Event>, p: nat, click: nat, g: nat)
    requires Waits(Run(before), p, click, g) && Unanswered(p, events)
    ensures var s, z := Run(before), Run(before + events);
            && Waits(z, p, click, g)
            && (z.posts[p].stage.Fetching? <==> s.posts[p].stage.Fetching?)
            && (Saved(z.posts[p].stage) <==> Saved(s.posts[p].stage))
  {
    if events == [] {
      assert before + events == before;
    } else {
      hide Run, Step, ControlInv, Saved;
      var init, e := events[..|events| - 1], events[|events| - 1];
      assert e in events && forall f | f in init :: f in events;
      KeepsWaiting(before, init, p, click, g);
      assert before + events == (before + init) + [e];
      Extends(before + init, e);
      WaitsStep(Run(before + init), e, p, click, g);
    }
  }

  lemma ClickStarts(s: App, p: nat)
    requires s.phase == Results && s.resultId == None && s.savePromise == None && p !in s.posts
    ensures var n := Step(s, ShareClick(p)); Waits(n, p, |s.clicks|, s.generation) && n.posts[p].stage.Fetching?
  {
  }

  /** A click while a save is open waits for that one. */
  lemma ClickJoins(events: seq<Event>, post: nat)
    requires var s := Run(events);
             && s.phase == Results && s.resultId == None && s.savePromise.Some? && post !in s.posts
             && s.savePromise.value in s.posts && s.posts[s.savePromise.value].stage.Fetching?
    ensures var s, n := Run(events), Step(Run(events), ShareClick(post));
            && Waits(n, s.savePromise.value, |s.clicks|, s.generation)
            && n.posts[s.savePromise.value].stage.Fetching?
  {
    hide Run, ControlInv, FieldsInv, PostsInv;
    RunKeepsInv(events);
  }

  lemma AnswerSaves(s: App, p: nat, click: nat, g: nat)
    requires Waits(s, p, click, g) && s.posts[p].stage.Fetching?
    ensures var n := Step(s, PostAnswered(p, true, true));
            Waits(n, p, click, g) && !n.posts[p].stage.Fetching? && (n.generation == g ==> Saved(n.posts[p].stage))
  {
  }

  lemma ClickGetsLink(s: App, p: nat, click: nat, g: nat)
    requires Waits(s, p, click, g) && Saved(s.posts[p].stage) && s.generation == g
    ensures var n := Step(s, ClickResumed(click));
            n.generation == g && n.handed == s.handed + [Handover(p, g)]
  {
  }

  /** The post a share click waits for: the open save, or else the new one. */
  function PostFor(s: App, post: nat): nat { if s.savePromise.Some? then s.savePromise.value else post }

  /** A share click on any reachable results page without an id, whether it starts a save
      or joins the one still under way, ends in a link of that generation if the post is
      accepted, whatever else happens before the answer and between it and the click's
      return, unless the generation is over by then. */
  lemma UndisturbedShareGetsLink(before: seq<Event>, post: nat, first: seq<Event>, second: seq<Event>)
    requires var s := Run(before); s.phase == Results && s.resultId == None && post !in s.posts
    requires var s := Run(before);
             s.savePromise.Some? ==> s.savePromise.value in s.posts && s.posts[s.savePromise.value].stage.Fetching?
    requires Unanswered(PostFor(Run(before), post), first) && Unanswered(PostFor(Run(before), post), second)
    ensures var s, p := Run(before), PostFor(Run(before), post);
            var answered := before + [ShareClick(post)] + first + [PostAnswered(p, true, true)] + second;
            var z := Run(answered + [ClickResumed(|s.clicks|)]);
            Run(answered).generation == s.generation ==> Handover(p, s.generation) in z.handed
  {
    hide Run, Step, Waits, Saved, ControlInv;
    var g, click, p := Run(before).generation, |Run(before).clicks|, PostFor(Run(before), post);
    var clicked := before + [ShareClick(post)];
    Extends(before, ShareClick(post));
    if Run(before).savePromise.Some? { ClickJoins(before, post); } else { ClickStarts(Run(before), post); }
    KeepsWaiting(clicked, first, p, click, g);
    Extends(clicked + first, PostAnswered(p, true, true));
    AnswerSaves(Run(clicked + first), p, click, g);
    var saved := clicked + first + [PostAnswered(p, true, true)];
    KeepsWaiting(saved, second, p, click, g);
    Extends(saved + second, ClickResumed(click));
    if Run(saved + second).generation == g {
      GenerationsGrow(saved, second);
      LowerBound(Run(saved), p, click, g);
      ClickGetsLink(Run(saved + second), p, click, g);
    }
  }

  lemma LowerBound(s: App, p: nat, click: nat, g: nat)
    requires Waits(s, p, click, g)
    ensures s.generation >= g
  {
  }

  lemma {:induction false} GenerationsGrow(before: seq<Event>, events: seq<Event>)
    ensures Run(before + events).generation >= Run(before).generation
  {
    if events == [] {
      assert before + events == before;
    } else {
      hide Run, Step;
      var init, e := events[..|events| - 1], events[|events| - 1];
      GenerationsGrow(before, init);
      assert before + events == (before + init) + [e];
      Extends(before + init, e);
      GenerationGrows(Run(before + init), e);
    }
  }
}
