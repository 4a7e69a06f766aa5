/** The `state` object of web/state.js, its abort controllers, and the stretches of
    web/openbyte.js and web/speedtest.js between two awaits, one method each. A run is
    told by the identity of its signal and results are plain numbers: that a number on
    display belongs to the newest run follows from the protocol of `Lifecycle`. */
module BrowserState {
  import opened Lifecycle
  import opened Options

  class AbortController {
    var aborted: bool

    constructor ()
      ensures !aborted
    {
      aborted := false;
    }

    method Abort()
      modifies this
      ensures aborted
    {
      aborted := true;
    }
  }

  /** What the page shows and decides by. */
  datatype Screen = Screen(
    phase: Phase,
    isRunning: bool,
    runGeneration: nat,
    downloadResult: int,
    uploadResult: int,
    latencyResult: Option<int>,
    jitterResult: Option<int>,
    downloadLatency: int,
    uploadLatency: int,
    resultId: Option<nat>,
    shareSavePromise: Option<nat>)

  function Number(f: Field<int>): int { if f.By? then f.value else 0 }

  function Nullable(f: Field<Option<int>>): Option<int> { if f.By? then f.value else None }

  /** What the page shows in protocol state `s`: the numbers, without whose they are. */
  function ScreenOf(s: App): Screen {
    Screen(s.phase, s.isRunning, s.generation, Number(s.fields.download), Number(s.fields.upload),
           Nullable(s.fields.latency), Nullable(s.fields.jitter),
           Number(s.fields.downloadLatency), Number(s.fields.uploadLatency), s.resultId, s.savePromise)
  }

  lemma RunExtends(events: seq<Event>, e: Event)
    ensures Run(events + [e]) == Step(Run(events), e)
  {
    assert (events + [e])[..|events|] == events;
  }

  lemma RunIsControlled(events: seq<Event>)
    ensures ControlInv(Run(events))
  {
    hide Run, ControlInv;
    RunKeepsInv(events);
  }

  /** Event `e` of a run that is not current changes nothing the page shows. */
  lemma StaleKeepsScreen(events: seq<Event>, e: Event)
    requires Enabled(Run(events), e) && RunOf(e).Some? && !IsCurrent(Run(events), RunOf(e).value)
    ensures var s, n := Run(events), Run(events + [e]);
            ScreenOf(n) == ScreenOf(s) && SameControl(s, n)
  {
    hide Run, Step, Enabled;
    RunExtends(events, e);
    RunKeepsInv(events);
    StaleContinuationWritesNothing(Run(events), e);
    StaleRunIsKnown(Run(events), e);
  }

  lemma StaleRunIsKnown(s: App, e: Event)
    requires Enabled(s, e) && RunOf(e).Some?
    ensures RunOf(e).value in s.runs
  {
  }

  // ----- what each event does to the page, in the protocol -----

  ghost predicate SameControl(s: App, n: App) {
    n.controller == s.controller && n.aborted == s.aborted && n.runs.Keys == s.runs.Keys
  }

  /** The page of an idle generation `g`. */
  function IdleScreen(g: nat): Screen { Screen(Idle, false, g, 0, 0, None, None, 0, 0, None, None) }

  /** The results page after an upload of `value`. */
  function ResultsScreen(p: Screen, value: int): Screen {
    p.(uploadResult := value, phase := Results, resultId := None, shareSavePromise := None, isRunning := false)
  }

  /** Current run `run` has been reset. */
  ghost predicate WasReset(s: App, n: App, run: nat) {
    && ScreenOf(n) == IdleScreen(s.generation + 1)
    && n.controller == None && n.aborted == s.aborted + {run} && n.runs.Keys == s.runs.Keys
  }

  lemma LatencyEffect(s: App, run: nat, latency: Option<int>, jitter: Option<int>)
    requires ControlInv(s) && Enabled(s, LatencyDone(run, latency, jitter)) && IsCurrent(s, run)
    ensures var n := Step(s, LatencyDone(run, latency, jitter));
            && ScreenOf(n) == ScreenOf(s).(latencyResult := latency, jitterResult := jitter,
                                           phase := Transfer(Down))
            && SameControl(s, n)
  {
  }

  lemma FrameEffect(s: App, run: nat, workers: bool)
    requires Enabled(s, FrameDone(run, workers))
    ensures var n := Step(s, FrameDone(run, workers)); ScreenOf(n) == ScreenOf(s) && SameControl(s, n)
  {
  }

  lemma FrameStarts(s: App, run: nat, workers: bool)
    requires Enabled(s, FrameDone(run, workers))
    ensures run in Step(s, FrameDone(run, workers)).runs
    ensures Step(s, FrameDone(run, workers)).runs[run].OnWorker? <==> run !in s.aborted && workers
  {
  }

  /** What runTest shows after its finally block, for the current run. */
  function ShowLoaded(p: Screen, d: Direction, outcome: Outcome, loaded: int): Screen {
    if !outcome.Value? then p
    else if d.Down? then p.(downloadLatency := loaded) else p.(uploadLatency := loaded)
  }

  lemma WorkerEffect(s: App, run: nat, outcome: Outcome, probing: bool)
    requires ControlInv(s) && Enabled(s, WorkerDone(run, outcome, probing)) && IsCurrent(s, run)
    ensures var n := Step(s, WorkerDone(run, outcome, probing));
            && ScreenOf(n) == (if probing then ScreenOf(s)
                  else ShowLoaded(ScreenOf(s), s.runs[run].direction, outcome, 0))
            && SameControl(s, n)
  {
  }

  lemma ProbeEffect(s: App, run: nat, loaded: int)
    requires ControlInv(s) && Enabled(s, ProbeStopped(run, loaded)) && IsCurrent(s, run)
    ensures var n := Step(s, ProbeStopped(run, loaded));
            && ScreenOf(n) == ShowLoaded(ScreenOf(s), s.runs[run].direction, s.runs[run].outcome, loaded)
            && SameControl(s, n)
  {
  }

  lemma DirectionEffect(s: App, run: nat, renders: bool)
    requires ControlInv(s) && Enabled(s, DirectionDone(run, renders)) && IsCurrent(s, run)
    ensures var n, d, value := Step(s, DirectionDone(run, renders)), s.runs[run].direction, s.runs[run].value;
            if d.Down? then
              ScreenOf(n) == ScreenOf(s).(downloadResult := value, phase := Transfer(Up)) && SameControl(s, n)
            else if renders then
              && ScreenOf(n) == ResultsScreen(ScreenOf(s), value)
              && n.controller == None && n.aborted == s.aborted && n.runs.Keys == s.runs.Keys
            else WasReset(s, n, run)
  {
  }

  lemma CaughtEffect(s: App, run: nat)
    requires ControlInv(s) && Enabled(s, Caught(run)) && IsCurrent(s, run)
    ensures WasReset(s, Step(s, Caught(run)), run)
  {
  }

  lemma ClickEffect(s: App, post: nat)
    requires post !in s.posts
    ensures var n := Step(s, ShareClick(post));
            && n.resultId == s.resultId && n.generation == s.generation && n.fields == s.fields
            && (forall p | p in s.posts :: p in n.posts && n.posts[p] == s.posts[p])
            && n.savePromise == if s.phase == Results && s.resultId.None? && s.savePromise.None? then Some(post)
                  else s.savePromise
  {
  }

  lemma AnswerEffect(s: App, post: nat, accepted: bool, validId: bool)
    requires Enabled(s, PostAnswered(post, accepted, validId))
    ensures var n := Step(s, PostAnswered(post, accepted, validId));
            var saved := accepted && validId && s.phase == Results && s.generation == s.posts[post].generation;
            && n.resultId == (if saved then Some(post) else s.resultId) && n.savePromise == s.savePromise
            && n.generation == s.generation && n.fields == s.fields
            && post in n.posts && n.posts[post] == s.posts[post].(stage := Settled(saved))
  {
  }

  lemma CloseEffect(s: App, post: nat)
    requires Enabled(s, PostClosed(post))
    ensures var n := Step(s, PostClosed(post));
            && n.resultId == s.resultId
            && n.savePromise == if s.savePromise == Some(post) then None else s.savePromise
  {
  }

  lemma ResumeEffect(s: App, click: nat)
    requires Enabled(s, ClickResumed(click))
    ensures var n := Step(s, ClickResumed(click));
            && n.resultId == s.resultId && n.savePromise == s.savePromise
            && n.generation == s.generation && n.fields == s.fields && n.posts == s.posts
  {
  }

  /** A post of the generation on display carries what is on display. */
  lemma AnswerIsOwn(events: seq<Event>, post: nat)
    ensures var s := Run(events);
            post in s.posts && s.posts[post].generation == s.generation ==> s.posts[post].body == s.fields
  {
    hide Run, ControlInv, FieldsInv, LinksInv;
    RunKeepsInv(events);
  }

  lemma ClickIsOwn(events: seq<Event>, click: nat)
    ensures var s := Run(events);
            click < |s.clicks| && s.clicks[click].generation == s.generation ==>
              var post := s.clicks[click].post;
              post in s.posts && s.posts[post].generation == s.generation && s.posts[post].body == s.fields
  {
    hide Run, ControlInv, FieldsInv;
    RunKeepsInv(events);
    var s := Run(events);
    if click < |s.clicks| { assert s.clicks[click] in s.clicks; }
  }

  /** Share events move only the id and the promise. */
  lemma ShareEffect(s: App, e: Event)
    requires IsShareEvent(e)
    ensures var n := Step(s, e);
            && ScreenOf(n) == ScreenOf(s).(resultId := n.resultId, shareSavePromise := n.savePromise)
            && SameControl(s, n) && n.fields == s.fields
  {
    hide Step;
    ShareEventFrame(s, e);
  }

  lemma StartEffect(s: App, serverOnline: bool)
    requires ControlInv(s)
    ensures var n := Step(s, Start(serverOnline));
            if s.isRunning || !serverOnline then n == s
            else
              var run := s.generation + 1;
              && ScreenOf(n) == ScreenOf(s).(phase := Latency, isRunning := true, runGeneration := run,
                                             downloadResult := 0, uploadResult := 0, latencyResult := None,
                                             jitterResult := None, downloadLatency := 0, uploadLatency := 0)
              && n.controller == Some(run) && n.aborted == s.aborted
              && run !in s.runs && run !in s.aborted && n.runs.Keys == s.runs.Keys + {run}
  {
  }

  lemma ResetEffect(s: App)
    ensures var n := Step(s, Reset);
            && ScreenOf(n) == Screen(Idle, false, s.generation + 1, 0, 0, None, None, 0, 0, None, None)
            && n.controller == None && n.runs == s.runs
            && n.aborted == if s.controller.Some? then s.aborted + {s.controller.value} else s.aborted
  {
  }

  // ----- the signals -----

  /** One controller per run, aborted when the protocol says so; the page holds the
      current run's. */
  ghost predicate SignalsMatch(signals: map<nat, AbortController>, held: AbortController?, s: App)
    reads signals.Values
  {
    && signals.Keys == s.runs.Keys
    && (forall i, j | i in signals && j in signals && i != j :: signals[i] != signals[j])
    && (forall i | i in signals :: signals[i].aborted <==> i in s.aborted)
    && (if s.controller.None? then held == null
        else s.controller.value in signals && held == signals[s.controller.value])
  }

  lemma SameSignals(signals: map<nat, AbortController>, held: AbortController?, s: App, n: App)
    requires SignalsMatch(signals, held, s) && SameControl(s, n)
    ensures SignalsMatch(signals, held, n)
  {
  }

  lemma NoSignalHeld(signals: map<nat, AbortController>, held: AbortController?, s: App, n: App)
    requires SignalsMatch(signals, held, s)
    requires n.controller == None && n.aborted == s.aborted && n.runs.Keys == s.runs.Keys
    ensures SignalsMatch(signals, null, n)
  {
  }

  ghost function Flags(signals: map<nat, AbortController>): map<nat, bool>
    reads signals.Values
  {
    map i | i in signals :: signals[i].aborted
  }

  ghost predicate OnePerRun(signals: map<nat, AbortController>, s: App) {
    signals.Keys == s.runs.Keys && forall i, j | i in signals && j in signals && i != j :: signals[i] != signals[j]
  }

  lemma FlagsMatch(signals: map<nat, AbortController>, held: AbortController?, s: App)
    requires SignalsMatch(signals, held, s)
    ensures OnePerRun(signals, s) && forall i | i in signals :: Flags(signals)[i] <==> i in s.aborted
  {
  }

  /** After the signal of run `run`, and no other, has been aborted. */
  lemma HeldSignalAborted(signals: map<nat, AbortController>, flags: map<nat, bool>, s: App, n: App, run: nat)
    requires OnePerRun(signals, s) && WasReset(s, n, run) && run in signals
    requires flags.Keys == signals.Keys && forall i | i in signals :: flags[i] <==> i in s.aborted
    requires forall i | i in signals :: signals[i].aborted == (flags[i] || i == run)
    ensures SignalsMatch(signals, null, n)
  {
  }

  class AppState {
    var phase: Phase
    var isRunning: bool
    var abortController: AbortController?
    var runGeneration: nat
    var downloadResult: int
    var uploadResult: int
    var latencyResult: Option<int>
    var jitterResult: Option<int>
    var downloadLatency: int
    var uploadLatency: int
    var resultId: Option<nat>
    var shareSavePromise: Option<nat>
    /** Everything that has happened, and the signal each run was started with. */
    ghost var events: seq<Event>
    ghost var signals: map<nat, AbortController>

    ghost function Shown(): Screen
      reads this
    {
      Screen(phase, isRunning, runGeneration, downloadResult, uploadResult, latencyResult, jitterResult,
             downloadLatency, uploadLatency, resultId, shareSavePromise)
    }

    ghost predicate Valid()
      reads this, signals.Values
    {
      Shown() == ScreenOf(Run(events)) && SignalsMatch(signals, abortController, Run(events))
    }

    /** Post `p` saved exactly what is on display, for the generation on display. */
    ghost predicate OwnLink(p: nat)
      reads this
    {
      var s := Run(events);
      p in s.posts && s.posts[p].generation == runGeneration && s.posts[p].body == s.fields && Saved(s.posts[p].stage)
    }

    constructor ()
      ensures Valid() && events == [] && phase == Idle && !isRunning
    {
      phase, isRunning, abortController, runGeneration := Idle, false, null, 0;
      downloadResult, uploadResult, latencyResult, jitterResult := 0, 0, None, None;
      downloadLatency, uploadLatency, resultId, shareSavePromise := 0, 0, None, None;
      events, signals := [], map[];
    }

    /** `signal` is the one run `run` was started with. */
    ghost predicate Owns(run: nat, signal: AbortController)
      reads this
    {
      run in signals && signals[run] == signal
    }

    /** Comparing signals is asking whether the run is current, and a held signal is
        never found aborted. */
    lemma HeldMeansCurrent(run: nat, signal: AbortController)
      requires Valid() && Owns(run, signal)
      ensures abortController == signal <==> IsCurrent(Run(events), run)
      ensures abortController == signal ==> !signal.aborted
    {
      hide Run;
      RunIsControlled(events);
    }

    /** A continuation of run `run` is about to happen. */
    lemma Next(run: nat, signal: AbortController, e: Event)
      requires Valid() && Owns(run, signal) && Enabled(Run(events), e) && RunOf(e) == Some(run)
      ensures Run(events + [e]) == Step(Run(events), e) && ControlInv(Run(events))
      ensures abortController == signal <==> IsCurrent(Run(events), run)
      ensures abortController == signal ==> !signal.aborted
      ensures abortController != signal ==>
                ScreenOf(Run(events + [e])) == ScreenOf(Run(events)) && SameControl(Run(events), Run(events + [e]))
    {
      hide Run, Step, Enabled, ControlInv, SameControl;
      HeldMeansCurrent(run, signal);
      RunExtends(events, e);
      RunIsControlled(events);
      if abortController != signal { StaleKeepsScreen(events, e); }
    }

    /** Isolation, of the object itself: a test runs exactly when there is a controller,
        the held signal is not aborted, every other unfinished run's is, the six numbers
        of a results page are those the newest run reported, and a share id on it stands
        for a saved copy of them. */
    lemma PageIsIsolated()
      requires Valid()
      ensures isRunning <==> abortController != null
      ensures abortController != null ==> !abortController.aborted
      ensures forall r | r in signals && !Run(events).runs[r].Finished? && signals[r] != abortController ::
          signals[r].aborted
      ensures var reported := Reported(events, runGeneration);
              phase == Results ==>
                && WroteAll(reported, runGeneration)
                && downloadResult == reported.download.value && uploadResult == reported.upload.value
                && latencyResult == reported.latency.value && jitterResult == reported.jitter.value
                && downloadLatency == reported.downloadLatency.value && uploadLatency == reported.uploadLatency.value
      ensures phase == Results && resultId.Some? ==> OwnLink(resultId.value)
    {
      hide Run, Reported;
      RunIsolation(events);
      RunKeepsInv(events);
    }

    /** Refused while a test runs or the server is offline; otherwise everything the last
        run showed is cleared and the new run holds a fresh, unaborted signal. */
    method StartTest(serverOnline: bool)
      requires Valid()
      modifies this
      ensures Valid() && events == old(events) + [Start(serverOnline)]
      ensures old(isRunning) || !serverOnline ==> Shown() == old(Shown()) && abortController == old(abortController)
      ensures !old(isRunning) && serverOnline ==>
                && isRunning && abortController != null && fresh(abortController) && !abortController.aborted
                && runGeneration == old(runGeneration) + 1 && phase == Latency
                && downloadResult == uploadResult == downloadLatency == uploadLatency == 0
                && latencyResult == jitterResult == None
    {
      hide Run, Step, ControlInv, Number, Nullable;
      RunExtends(events, Start(serverOnline));
      RunIsControlled(events);
      StartEffect(Run(events), serverOnline);
      events := events + [Start(serverOnline)];
      if isRunning { return; }
      if !serverOnline { return; }
      Beginning();
      signals := signals[runGeneration := abortController];
    }

    /** The assignments of startTest before its first await. */
    method Beginning()
      modifies this
      ensures abortController != null && fresh(abortController) && !abortController.aborted
      ensures events == old(events) && signals == old(signals)
      ensures Shown() == old(Shown()).(phase := Latency, isRunning := true, runGeneration := old(runGeneration) + 1,
                                       downloadResult := 0, uploadResult := 0, latencyResult := None,
                                       jitterResult := None, downloadLatency := 0, uploadLatency := 0)
    {
      isRunning := true;
      abortController := new AbortController();
      runGeneration := runGeneration + 1;
      ClearRunResults();
      phase := Latency;
    }

    method ClearRunResults()
      modifies `downloadResult, `uploadResult, `latencyResult, `jitterResult, `downloadLatency, `uploadLatency
      ensures downloadResult == uploadResult == downloadLatency == uploadLatency == 0
      ensures latencyResult == jitterResult == None
    {
      downloadResult, uploadResult, latencyResult, jitterResult := 0, 0, None, None;
      downloadLatency, uploadLatency := 0, 0;
    }

    /** The statements of resetToIdle, which several stretches run. */
    method Idling()
      modifies this, abortController
      ensures events == old(events) && signals == old(signals) && abortController == null
      ensures old(abortController) != null ==> old(abortController).aborted
      ensures Shown() == Screen(Idle, false, old(runGeneration) + 1, 0, 0, None, None, 0, 0, None, None)
    {
      if abortController != null { abortController.Abort(); }
      isRunning := false;
      abortController := null;
      runGeneration := runGeneration + 1;
      phase := Idle;
      resultId := None;
      shareSavePromise := None;
      ClearRunResults();
    }

    /** Whatever was under way, nothing is left of it on the page and its signal is aborted. */
    method ResetToIdle()
      requires Valid()
      modifies this, abortController
      ensures Valid() && events == old(events) + [Reset]
      ensures old(abortController) != null ==> old(abortController).aborted
      ensures Shown() == Screen(Idle, false, old(runGeneration) + 1, 0, 0, None, None, 0, 0, None, None)
      ensures abortController == null
    {
      hide Run, Step, Number, Nullable;
      RunExtends(events, Reset);
      ResetEffect(Run(events));
      Idling();
      events := events + [Reset];
    }

    /** The finally block of startTest. */
    method Finally(signal: AbortController)
      modifies `isRunning, `abortController
      ensures if old(abortController) == signal then !isRunning && abortController == null
              else isRunning == old(isRunning) && abortController == old(abortController)
    {
      if abortController == signal {
        isRunning := false;
        abortController := null;
      }
    }

    /** startTest after the latency measurement. A run that no longer holds the page's
        signal leaves the page alone; the abort check behind that test is dead. */
    method AfterLatency(ghost run: nat, signal: AbortController, latency: Option<int>, jitter: Option<int>)
      requires Valid() && Owns(run, signal) && Enabled(Run(events), LatencyDone(run, latency, jitter))
      modifies this
      ensures Valid() && events == old(events) + [LatencyDone(run, latency, jitter)] && signals == old(signals)
      ensures abortController == old(abortController)
      ensures Shown() == if old(abortController) != signal then old(Shown())
                         else old(Shown()).(latencyResult := latency, jitterResult := jitter,
                           phase := Transfer(Down))
    {
      hide Run, Step, Enabled, ControlInv, Number, Nullable, IsCurrent, SignalsMatch, SameControl, WasReset;
      ghost var e := LatencyDone(run, latency, jitter);
      Next(run, signal, e);
      if abortController == signal { LatencyEffect(Run(events), run, latency, jitter); }
      SameSignals(signals, abortController, Run(events), Run(events + [e]));
      events := events + [e];
      if abortController != signal {
        Finally(signal);
      } else {
        if signal.aborted { assert false; }
        NoteLatency(latency, jitter);
      }
    }

    method NoteLatency(latency: Option<int>, jitter: Option<int>)
      modifies `latencyResult, `jitterResult, `phase
      ensures Shown() == old(Shown()).(latencyResult := latency, jitterResult := jitter,
          phase := Transfer(Down))
    {
      latencyResult := latency;
      jitterResult := jitter;
      phase := Transfer(Down);
    }

    /** runTest when its frame has come: it starts the transfer or throws, and shows nothing. */
    method AfterFrame(ghost run: nat, signal: AbortController, workers: bool) returns (started: bool)
      requires Valid() && Owns(run, signal) && Enabled(Run(events), FrameDone(run, workers))
      modifies this`events
      ensures Valid() && events == old(events) + [FrameDone(run, workers)]
      ensures started <==> !signal.aborted && workers
      ensures started <==> Run(events).runs[run].OnWorker?
    {
      hide Run, Enabled, ControlInv, Number, Nullable, IsCurrent, SameControl, ScreenOf;
      ghost var e := FrameDone(run, workers);
      Next(run, signal, e);
      FrameEffect(Run(events), run, workers);
      FrameStarts(Run(events), run, workers);
      SameSignals(signals, abortController, Run(events), Run(events + [e]));
      events := events + [e];
      if signal.aborted { return false; }
      return workers;
    }

    /** runTest when the worker has answered: with a probe it waits for that; without, it
        shows a loaded latency of 0, if the run still holds the page's signal. */
    method AfterWorker(ghost run: nat, signal: AbortController, outcome: Outcome, direction: Direction, probing: bool)
      requires Valid() && Owns(run, signal) && Enabled(Run(events), WorkerDone(run, outcome, probing))
      requires Run(events).runs[run].direction == direction
      modifies this
      ensures Valid() && events == old(events) + [WorkerDone(run, outcome, probing)] && signals == old(signals)
      ensures abortController == old(abortController)
      ensures Shown() == if probing || old(abortController) != signal then old(Shown())
                         else ShowLoaded(old(Shown()), direction, outcome, 0)
    {
      hide Run, Step, Enabled, ControlInv, Number, Nullable, IsCurrent, SignalsMatch, SameControl, WasReset;
      ghost var e := WorkerDone(run, outcome, probing);
      Next(run, signal, e);
      if abortController == signal { WorkerEffect(Run(events), run, outcome, probing); }
      SameSignals(signals, abortController, Run(events), Run(events + [e]));
      events := events + [e];
      if !probing { var _ := LeaveTest(signal, outcome, direction, 0); }
    }

    /** The end of runTest, behind its finally block: an error passes on, an aborted or
        overtaken run throws, and only the current run shows its loaded latency. */
    method LeaveTest(signal: AbortController, outcome: Outcome, direction: Direction, loaded: int)
      returns (finished: bool)
      modifies `downloadLatency, `uploadLatency
      ensures finished <==> outcome.Value? && !signal.aborted && abortController == signal
      ensures Shown() == if finished then ShowLoaded(old(Shown()), direction, outcome, loaded) else old(Shown())
    {
      if !outcome.Value? { return false; }
      if signal.aborted || abortController != signal { return false; }
      if direction.Down? { downloadLatency := loaded; } else { uploadLatency := loaded; }
      return true;
    }

    /** runTest when its loaded-latency probe has stopped. */
    method AfterProbe(ghost run: nat, signal: AbortController, outcome: Outcome, direction: Direction, loaded: int)
      requires Valid() && Owns(run, signal) && Enabled(Run(events), ProbeStopped(run, loaded))
      requires Run(events).runs[run] == OnProbe(direction, outcome)
      modifies this
      ensures Valid() && events == old(events) + [ProbeStopped(run, loaded)] && signals == old(signals)
      ensures abortController == old(abortController)
      ensures Shown() == if old(abortController) != signal then old(Shown())
          else ShowLoaded(old(Shown()), direction, outcome, loaded)
    {
      hide Run, Step, Enabled, ControlInv, Number, Nullable, IsCurrent, SignalsMatch, SameControl, WasReset;
      ghost var e := ProbeStopped(run, loaded);
      Next(run, signal, e);
      if abortController == signal { ProbeEffect(Run(events), run, loaded); }
      SameSignals(signals, abortController, Run(events), Run(events + [e]));
      events := events + [e];
      var _ := LeaveTest(signal, outcome, direction, loaded);
    }

    method NoteDownload(value: int)
      modifies `downloadResult, `phase
      ensures Shown() == old(Shown()).(downloadResult := value, phase := Transfer(Up))
    {
      downloadResult := value;
      phase := Transfer(Up);
    }

    method EnterResults(value: int)
      modifies `uploadResult, `phase, `resultId, `shareSavePromise
      ensures Shown() == old(Shown()).(uploadResult := value, phase := Results, resultId := None,
          shareSavePromise := None)
    {
      uploadResult := value;
      phase := Results;
      resultId := None;
      shareSavePromise := None;
    }

    /** startTest after the download: the current run shows its result and goes on. */
    method AfterDownload(ghost run: nat, signal: AbortController, value: int)
      requires Valid() && Owns(run, signal) && Enabled(Run(events), DirectionDone(run, true))
      requires Run(events).runs[run] == OnReturn(Down, value)
      modifies this
      ensures Valid() && events == old(events) + [DirectionDone(run, true)] && signals == old(signals)
      ensures abortController == old(abortController)
      ensures Shown() == if old(abortController) != signal then old(Shown())
                         else old(Shown()).(downloadResult := value, phase := Transfer(Up))
    {
      hide Run, Step, Enabled, ControlInv, Number, Nullable, IsCurrent, SignalsMatch, SameControl, WasReset;
      ghost var e := DirectionDone(run, true);
      Next(run, signal, e);
      if abortController == signal { DirectionEffect(Run(events), run, true); }
      SameSignals(signals, abortController, Run(events), Run(events + [e]));
      events := events + [e];
      if abortController != signal {
        Finally(signal);
      } else {
        if signal.aborted { assert false; }
        NoteDownload(value);
      }
    }

    /** startTest after the upload: the current run shows the results and ends, or, if
        rendering them throws, resets the page. */
    method AfterUpload(ghost run: nat, signal: AbortController, value: int, renders: bool)
      requires Valid() && Owns(run, signal) && Enabled(Run(events), DirectionDone(run, renders))
      requires Run(events).runs[run] == OnReturn(Up, value)
      modifies this, signal
      ensures Valid() && events == old(events) + [DirectionDone(run, renders)] && signals == old(signals)
      ensures old(abortController) != signal ==>
                && Shown() == old(Shown()) && abortController == old(abortController)
                && signal.aborted == old(signal.aborted)
      ensures old(abortController) == signal ==>
                && abortController == null && signal.aborted == !renders
                && Shown() == if renders then ResultsScreen(old(Shown()), value) else IdleScreen(old(runGeneration) + 1)
    {
      hide Run, Step, Enabled, ControlInv, Number, Nullable, IsCurrent, SignalsMatch, SameControl, WasReset;
      ghost var e := DirectionDone(run, renders);
      Next(run, signal, e);
      if abortController != signal {
        SameSignals(signals, abortController, Run(events), Run(events + [e]));
        events := events + [e];
        Finally(signal);
      } else {
        if signal.aborted { assert false; }
        DirectionEffect(Run(events), run, renders);
        ShowUpload(run, signal, value, renders);
      }
    }

    /** The upload of the current run is in. */
    method ShowUpload(ghost run: nat, signal: AbortController, value: int, renders: bool)
      requires SignalsMatch(signals, signal, Run(events))
      requires abortController == signal && Owns(run, signal) && !signal.aborted
      requires var s, n := Run(events), Run(events + [DirectionDone(run, renders)]);
               if renders then n.controller == None && n.aborted == s.aborted && n.runs.Keys == s.runs.Keys
               else WasReset(s, n, run)
      modifies this, signal
      ensures events == old(events) + [DirectionDone(run, renders)] && signals == old(signals)
      ensures SignalsMatch(signals, null, Run(events)) && abortController == null && signal.aborted == !renders
      ensures Shown() == if renders then ResultsScreen(old(Shown()), value) else IdleScreen(old(runGeneration) + 1)
    {
      hide Run, SignalsMatch, WasReset;
      ghost var e := DirectionDone(run, renders);
      EnterResults(value);
      if renders {
        NoSignalHeld(signals, signal, Run(events), Run(events + [e]));
        events := events + [e];
      } else {
        AbandonRun(run, signal, e);
      }
      Finally(signal);
    }

    /** The reset that ends the current run. */
    method AbandonRun(ghost run: nat, signal: AbortController, ghost e: Event)
      requires SignalsMatch(signals, signal, Run(events)) && abortController == signal && Owns(run, signal)
      requires WasReset(Run(events), Run(events + [e]), run)
      modifies this, signal
      ensures events == old(events) + [e] && signals == old(signals)
      ensures SignalsMatch(signals, null, Run(events)) && abortController == null && signal.aborted
      ensures Shown() == IdleScreen(old(runGeneration) + 1)
    {
      hide Run, SignalsMatch, WasReset;
      ghost var s, n, flags := Run(events), Run(events + [e]), Flags(signals);
      FlagsMatch(signals, signal, s);
      Idling();
      HeldSignalAborted(signals, flags, s, n, run);
      events := events + [e];
    }

    /** The catch and finally blocks of startTest: an overtaken run is silent, the current
        one resets the page. */
    method AfterCatch(ghost run: nat, signal: AbortController)
      requires Valid() && Owns(run, signal) && Enabled(Run(events), Caught(run))
      modifies this, signal
      ensures Valid() && events == old(events) + [Caught(run)] && signals == old(signals)
      ensures old(abortController) != signal ==>
                && Shown() == old(Shown()) && abortController == old(abortController)
                && signal.aborted == old(signal.aborted)
      ensures old(abortController) == signal ==>
                Shown() == IdleScreen(old(runGeneration) + 1) && abortController == null && signal.aborted
    {
      hide Run, Step, Enabled, ControlInv, Number, Nullable, IsCurrent, SignalsMatch, SameControl;
      ghost var e := Caught(run);
      Next(run, signal, e);
      if abortController == signal {
        CaughtEffect(Run(events), run);
        AbandonRun(run, signal, e);
      } else {
        SameSignals(signals, abortController, Run(events), Run(events + [e]));
        events := events + [e];
      }
      Finally(signal);
    }

    // ----- sharing -----

    /** The share events behind the page, and that they touch only the id and the promise. */
    lemma NextShare(e: Event)
      requires Valid() && IsShareEvent(e)
      ensures var s, n := Run(events), Run(events + [e]);
              && n == Step(s, e) && SameControl(s, n) && SignalsMatch(signals, abortController, n)
              && ScreenOf(n) == ScreenOf(s).(resultId := n.resultId, shareSavePromise := n.savePromise)
    {
      hide Run, Step, SameControl, SignalsMatch, ScreenOf, IsShareEvent;
      RunExtends(events, e);
      ShareEffect(Run(events), e);
      SameSignals(signals, abortController, Run(events), Run(events + [e]));
    }

    /** A share click, up to the await. Off the results page it does nothing; with an id it
        hands over the link, which stands for what is on display; otherwise it waits for
        the one open save, starting it if there is none. */
    method HandleShare(post: nat) returns (link: Option<nat>)
      requires Valid() && post !in Run(events).posts
      modifies this
      ensures Valid() && events == old(events) + [ShareClick(post)]
      ensures abortController == old(abortController) && signals == old(signals)
      ensures old(phase) != Results || old(resultId).Some? || old(shareSavePromise).Some? ==> Shown() == old(Shown())
      ensures link == if old(phase) == Results then old(resultId) else None
      ensures link.Some? ==> OwnLink(link.value)
      ensures old(phase) == Results && old(resultId).None? && old(shareSavePromise).None? ==>
                Shown() == old(Shown()).(shareSavePromise := Some(post))
    {
      hide Run, Number, Nullable, SignalsMatch, SameControl;
      NextShare(ShareClick(post));
      PageIsIsolated();
      link := if phase == Results then resultId else None;
      ClickEffect(Run(events), post);
      events := events + [ShareClick(post)];
      if phase == Results && resultId.None? && shareSavePromise.None? { shareSavePromise := Some(post); }
    }

    /** The save request when its answer has been read. An answer for another generation,
        or off the results page, leaves the page alone. */
    method AfterPost(post: nat, generation: nat, accepted: bool, validId: bool) returns (saved: bool)
      requires Valid() && Enabled(Run(events), PostAnswered(post, accepted, validId))
      requires Run(events).posts[post].generation == generation
      modifies this
      ensures Valid() && events == old(events) + [PostAnswered(post, accepted, validId)]
      ensures abortController == old(abortController) && signals == old(signals)
      ensures saved <==> accepted && validId && old(phase) == Results && old(runGeneration) == generation
      ensures Shown() == if saved then old(Shown()).(resultId := Some(post)) else old(Shown())
      ensures saved ==> OwnLink(post)
    {
      hide Run, Number, Nullable, SignalsMatch, SameControl;
      ghost var e := PostAnswered(post, accepted, validId);
      NextShare(e);
      AnswerEffect(Run(events), post, accepted, validId);
      AnswerIsOwn(events, post);
      saved := accepted && phase == Results && runGeneration == generation && validId;
      events := events + [e];
      if saved { resultId := Some(post); }
    }

    /** The finally block of saveAndEnableShare: it clears its own promise, never another's. */
    method ClosePost(post: nat)
      requires Valid() && Enabled(Run(events), PostClosed(post))
      modifies this
      ensures Valid() && events == old(events) + [PostClosed(post)]
      ensures abortController == old(abortController) && signals == old(signals)
      ensures Shown() == old(Shown()).(
                shareSavePromise := if old(shareSavePromise) == Some(post) then None else old(shareSavePromise))
      ensures old(Run(events)).posts[post].generation != old(runGeneration) && old(phase) == Results ==>
          Shown() == old(Shown())
    {
      hide Run, Number, Nullable, SignalsMatch, SameControl;
      NextShare(PostClosed(post));
      CloseEffect(Run(events), post);
      if Run(events).posts[post].generation != runGeneration { StalePostWritesNothing(events, post, PostClosed(post)); }
      events := events + [PostClosed(post)];
      if shareSavePromise == Some(post) { shareSavePromise := None; }
    }

    /** A share click when the save it waited for has ended. The link goes to the user only
        on the results page of the generation that was clicked. */
    method AfterSave(ghost click: nat, post: nat, generation: nat, saved: bool) returns (link: Option<nat>)
      requires Valid() && Enabled(Run(events), ClickResumed(click))
      requires Run(events).clicks[click] == Click(post, generation) && Run(events).posts[post].stage.saved == saved
      modifies this`events
      ensures Valid() && events == old(events) + [ClickResumed(click)]
      ensures link == if saved && phase == Results && runGeneration == generation then Some(post) else None
      ensures link.Some? ==> OwnLink(link.value)
    {
      hide Run, Number, Nullable, SignalsMatch, SameControl;
      NextShare(ClickResumed(click));
      ResumeEffect(Run(events), click);
      ClickIsOwn(events, click);
      link := if saved && phase == Results && runGeneration == generation then Some(post) else None;
      events := events + [ClickResumed(click)];
    }
  }
}
