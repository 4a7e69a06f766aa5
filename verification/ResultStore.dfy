/** Saving, reading and cleaning shared results, internal/results/store_crud.go and
    internal/results/store_cleanup.go. The database, the clock and the request context
    answer from a script; times are in milliseconds. */
module ResultStore {
  import opened Options
  import opened Retention

  const INITIAL_BACKOFF := 25
  const MAX_BACKOFF := 250
  const BUSY_BUDGET := 20_000
  const MAX_ID_RETRIES := 5
  const RETENTION_MS := 90 * 24 * 60 * 60 * 1000

  const SQLITE_BUSY := 5
  const SQLITE_LOCKED := 6
  const SQLITE_CONSTRAINT_UNIQUE := 2067
  const SQLITE_CONSTRAINT_PRIMARYKEY := 1555

  // ----- errors and delays -----

  /** A driver error, or any other error by its message. */
  datatype DbError = Sqlite(code: int) | Other(message: string)

  predicate Contains(text: string, part: string) {
    part <= text || (text != "" && Contains(text[1..], part))
  }

  function Lower(text: string): (lower: string)
    ensures |lower| == |text| && forall i | 0 <= i < |text| :: SameLetter(text[i], lower[i])
  {
    if text == "" then ""
    else
      (if 'A' <= text[0] <= 'Z' then [text[0] - 'A' + 'a'] else [text[0]]) + Lower(text[1..])
  }

  /** `lower` is `c`, or its lower-case letter if it is an upper-case one. */
  predicate SameLetter(c: char, lower: char) {
    if 'A' <= c <= 'Z' then lower as int == c as int + 32 else lower == c
  }

  predicate IsUniqueViolation(e: DbError) {
    match e
    case Sqlite(code) => code == SQLITE_CONSTRAINT_UNIQUE
    case Other(message) => Contains(message, "UNIQUE constraint")
  }

  predicate IsBusyError(e: DbError) {
    match e
    case Sqlite(code) => code == SQLITE_BUSY || code == SQLITE_LOCKED
    case Other(message) => Contains(Lower(message), "database is locked") || Contains(Lower(message), "sqlite_busy")
  }

  ghost predicate Mentions(text: string, part: string) {
    exists i: nat :: PartAt(text, part, i)
  }

  /** `part`, which is in lower case, stands in `text` from i on, in letters of either case. */
  ghost predicate PartAt(text: string, part: string, i: nat) {
    i + |part| <= |text| && forall k | 0 <= k < |part| :: SameLetter(text[i + k], part[k])
  }

  lemma {:induction false} ContainsIff(text: string, part: string)
    ensures Contains(text, part) <==> exists i: nat :: i <= |text| && part <= text[i..]
  {
    assert text[0..] == text;
    if !(part <= text) && text != "" {
      ContainsIff(text[1..], part);
      if i: nat :| i <= |text[1..]| && part <= text[1..][i..] {
        assert text[1..][i..] == text[i + 1..];
      }
      if i: nat :| i <= |text| && part <= text[i..] {
        assert text[1..][i - 1..] == text[i..];
      }
    }
  }

  /** Which errors are retried: the two driver codes, or a message that names the lock in
      letters of either case. */
  lemma BusyErrors(e: DbError)
    ensures e.Sqlite? ==> (IsBusyError(e) <==> e.code in {5, 6})
    ensures e.Other? ==>
              (IsBusyError(e) <==> Mentions(e.message, "database is locked") || Mentions(e.message, "sqlite_busy"))
    ensures e.Sqlite? ==> (IsUniqueViolation(e) <==> e.code == 2067)
    ensures e.Other? ==>
              (IsUniqueViolation(e) <==> exists i: nat :: i <= |e.message| && "UNIQUE constraint" <= e.message[i..])
  {
    if e.Other? {
      LowerContains(e.message, "database is locked");
      LowerContains(e.message, "sqlite_busy");
      ContainsIff(e.message, "UNIQUE constraint");
    }
  }

  lemma LowerContains(text: string, part: string)
    ensures Contains(Lower(text), part) <==> Mentions(text, part)
  {
    hide Lower, Contains;
    var lower := Lower(text);
    ContainsIff(lower, part);
    if i: nat :| i <= |lower| && part <= lower[i..] {
      assert forall k | 0 <= k < |part| :: part[k] == lower[i..][k] == lower[i + k];
      assert PartAt(text, part, i);
    }
    if i: nat :| PartAt(text, part, i) {
      assert forall k | 0 <= k < |part| :: lower[i + k] == part[k];
      assert part == lower[i..][..|part|];
    }
  }

  function ShiftLeft(x: nat, k: nat): nat { if k == 0 then x else 2 * ShiftLeft(x, k - 1) }

  function BusyRetryDelay(busyAttempt: nat): (delay: nat)
    ensures INITIAL_BACKOFF <= delay <= MAX_BACKOFF
  {
    if busyAttempt >= 4 then MAX_BACKOFF
    else
      assert ShiftLeft(INITIAL_BACKOFF, 3) == 200 && ShiftLeft(INITIAL_BACKOFF, 2) == 100;
      ShiftLeft(INITIAL_BACKOFF, busyAttempt)
  }

  /** The cut-over at attempt 4 is exactly where doubling would pass the cap. */
  lemma {:induction false} DelayIsCappedDoubling(k: nat)
    ensures var doubled := ShiftLeft(INITIAL_BACKOFF, k);
            BusyRetryDelay(k) == if doubled <= MAX_BACKOFF then doubled else MAX_BACKOFF
    ensures k >= 4 ==> ShiftLeft(INITIAL_BACKOFF, k) > MAX_BACKOFF
  {
    if k > 4 {
      DelayIsCappedDoubling(k - 1);
    } else {
      assert ShiftLeft(INITIAL_BACKOFF, 3) == 200 && ShiftLeft(INITIAL_BACKOFF, 2) == 100;
    }
  }

  /** All the waiting before the n-th retry. */
  function BackOff(n: nat): nat {
    if n == 0 then 0 else BackOff(n - 1) + BusyRetryDelay(n - 1)
  }

  /** `n` waits that slept `total` ms: all but the last, which may be cut short, in full. */
  ghost predicate WaitsInFull(n: nat, total: int) {
    (if n == 0 then 0 else BackOff(n - 1)) <= total <= BackOff(n)
  }

  lemma OneMoreWait(k: nat, waited: nat, ms: int)
    requires waited <= 1 && 0 <= ms <= if waited == 0 then 0 else BusyRetryDelay(k)
    ensures WaitsInFull(k + waited, BackOff(k) + ms) && WaitsInFull(k, BackOff(k))
    ensures BackOff(k + 1) == BackOff(k) + BusyRetryDelay(k)
    ensures BackOff(0) == 0
  {
    hide BusyRetryDelay;
  }

  lemma {:induction false} BackOffAtLeast(n: nat)
    ensures BackOff(n) >= n * INITIAL_BACKOFF
  {
    if n > 0 { BackOffAtLeast(n - 1); }
  }

  lemma WaitsAreFew(n: nat, total: int)
    requires WaitsInFull(n, total) && total <= BUSY_BUDGET
    ensures n <= BUSY_BUDGET / INITIAL_BACKOFF + 1
  {
    if n > 0 { BackOffAtLeast(n - 1); }
  }

  // ----- the environment -----

  datatype DbAnswer = Execute | Refuse(error: DbError)

  /** What step n of the environment brings: how late it is, whether the context is
      done, what the database says, and the id the sampler draws, if it can. */
  datatype Script = Script(
    late: nat -> nat,
    done: nat -> bool,
    answer: nat -> DbAnswer,
    id: nat -> Option<string>,
    conflict: DbError)

  /** The database reports a unique violation for nothing but a taken id. */
  ghost predicate OnlyCollisionsConflict(script: Script) {
    forall n :: script.answer(n).Refuse? ==> !IsUniqueViolation(script.answer(n).error)
  }

  ghost predicate EverDone(script: Script) { exists n :: script.done(n) }

  ghost predicate NeverRefuses(script: Script) { forall n :: script.answer(n).Execute? }

  ghost predicate NeverBusy(script: Script) {
    forall n :: script.answer(n).Refuse? ==> !IsBusyError(script.answer(n).error)
  }

  ghost predicate OnlyBusy(script: Script) {
    forall n :: script.answer(n).Refuse? ==> IsBusyError(script.answer(n).error)
  }

  ghost predicate DrawsFreeIds(script: Script, t: Table) {
    forall n :: script.id(n).Some? && script.id(n).value !in t
  }

  ghost predicate DrawsTakenIds(script: Script, t: Table) {
    forall n :: script.id(n).Some? && script.id(n).value in t
  }

  datatype Wait = Retry | BudgetExhausted | Cancelled

  datatype SaveError = ContextDone | NoEntropy | Retryable | InsertFailed(error: DbError) | NoUniqueId

  datatype Saved = Id(id: string) | NotSaved(error: SaveError)

  datatype Lookup = Found(row: Row) | Missing | LookupFailed

  // ----- what a save comes to -----

  /** The time and how many steps of the script have been used. */
  datatype Clock = Clock(now: int, step: nat)

  function Tick(script: Script, c: Clock): Clock { Clock(c.now + script.late(c.step), c.step + 1) }

  function BusyWait(script: Script, c: Clock, deadline: int, busyAttempt: nat): (r: (Wait, Clock))
    ensures r.0.Retry? ==> c.now < r.1.now && c.now < deadline
  {
    var c1 := Tick(script, c);
    if script.done(c1.step) then (Cancelled, c1) else
    var c2 := Tick(script, c1);
    var remaining := deadline - c2.now;
    if remaining <= 0 then (BudgetExhausted, c2) else
    var budgetExpires := BusyRetryDelay(busyAttempt) >= remaining;
    var delay := if budgetExpires then remaining else BusyRetryDelay(busyAttempt);
    var c3 := Tick(script, c2);
    if script.done(c3.step) then (Cancelled, c3) else
    var c4 := Tick(script, c3.(now := c3.now + delay));
    if script.done(c4.step) then (Cancelled, c4)
    else (if budgetExpires then BudgetExhausted else Retry, c4)
  }

  /** The two results of an insert, and what it leaves behind. */
  datatype Inserted = Inserted(uniqueConflict: bool, error: Option<SaveError>, table: Table, clock: Clock)

  function InsertRow(script: Script, t: Table, c: Clock, id: string, row: Row, deadline: int,
    busyAttempt: nat): Inserted
    decreases deadline - c.now
  {
    var c1 := Tick(script, c);
    var answer := script.answer(c1.step);
    if answer.Execute? && id !in t then Inserted(false, None, t[id := row], c1) else
    var error := if answer.Execute? then script.conflict else answer.error;
    if IsUniqueViolation(error) then Inserted(true, None, t, c1) else
    if !IsBusyError(error) then Inserted(false, Some(InsertFailed(error)), t, c1) else
    var (wait, c2) := BusyWait(script, c1, deadline, busyAttempt);
    match wait
    case BudgetExhausted => Inserted(false, Some(Retryable), t, c2)
    case Cancelled => Inserted(false, Some(ContextDone), t, c2)
    case Retry => InsertRow(script, t, c2, id, row, deadline, busyAttempt + 1)
  }

  /** A save with `tries` ids to go. An insert without an error ends it, whether or not
      the insert met a unique conflict. */
  function SaveFrom(script: Script, t: Table, c: Clock, row: Row, deadline: int, tries: nat): (Saved, Table)
    decreases tries
  {
    if tries == 0 then (NotSaved(NoUniqueId), t) else
    var c1 := Tick(script, c);
    if script.done(c1.step) then (NotSaved(ContextDone), t) else
    if script.id(c1.step).None? then (NotSaved(NoEntropy), t) else
    var id := script.id(c1.step).value;
    var r := InsertRow(script, t, c1, id, row, deadline, 0);
    if r.error.None? then (Id(id), r.table)
    else if r.uniqueConflict then SaveFrom(script, r.table, r.clock, row, deadline, tries - 1)
    else (NotSaved(r.error.value), r.table)
  }

  function SaveRow(script: Script, t: Table, c: Clock, r: Row): (Saved, Table) {
    var c1 := Tick(script, c);
    var c2 := Tick(script, c1);
    SaveFrom(script, t, c2, r.(createdAt := c1.now), c2.now + BUSY_BUDGET, MAX_ID_RETRIES)
  }

  /** A save that hands out an id has stored the result under it, as a new row. */
  ghost predicate Honest(script: Script, t: Table, c: Clock, r: Row) {
    var (saved, after) := SaveRow(script, t, c, r);
    saved.Id? ==>
      saved.id !in t && saved.id in after
      && after == t[saved.id := after[saved.id]] && after[saved.id] == r.(createdAt := after[saved.id].createdAt)
  }

  lemma {:induction false} InsertOutcome(
      script: Script, t: Table, c: Clock, id: string, row: Row, deadline: int, busyAttempt: nat)
    requires OnlyCollisionsConflict(script)
    ensures var r := InsertRow(script, t, c, id, row, deadline, busyAttempt);
            && (r.error.None? ==>
                  if r.uniqueConflict then id in t && IsUniqueViolation(script.conflict) && r.table == t
                  else id !in t && r.table == t[id := row])
            && (r.error.Some? ==> !r.uniqueConflict && r.table == t && !r.error.value.NoUniqueId?)
    decreases deadline - c.now
  {
    var c1 := Tick(script, c);
    var (wait, c2) := BusyWait(script, c1, deadline, busyAttempt);
    if wait.Retry? { InsertOutcome(script, t, c2, id, row, deadline, busyAttempt + 1); }
  }

  /** A save draws one id and no more: a recognised collision hands out the id of a row
      that was there before, and an unrecognised one is an error. */
  lemma SaveOutcome(script: Script, t: Table, c: Clock, r: Row)
    requires OnlyCollisionsConflict(script)
    ensures var (saved, after) := SaveRow(script, t, c, r);
            && saved != NotSaved(NoUniqueId)
            && (saved.NotSaved? ==> after == t)
            && (saved.Id? && saved.id in t ==> IsUniqueViolation(script.conflict) && after == t)
            && (saved.Id? && saved.id !in t ==> exists at: int :: after == t[saved.id := r.(createdAt := at)])
  {
    hide InsertRow;
    var c1 := Tick(script, c);
    var c2 := Tick(script, c1);
    assert SaveRow(script, t, c, r)
        == SaveFrom(script, t, c2, r.(createdAt := c1.now), c2.now + BUSY_BUDGET, MAX_ID_RETRIES);
    var c3 := Tick(script, c2);
    if !script.done(c3.step) && script.id(c3.step).Some? {
      InsertOutcome(script, t, c3, script.id(c3.step).value, r.(createdAt := c1.now), c2.now + BUSY_BUDGET, 0);
    }
  }

  /** Nothing is late, done or refused, and the sampler draws `id`. */
  function CalmScript(id: string, conflict: DbError): Script {
    Script(n => 0, n => false, n => Execute, n => Some(id), conflict)
  }

  /** Drawing an id that is taken, when nothing else goes wrong. */
  lemma CollidingSave(id: string, conflict: DbError, t: Table, c: Clock, r: Row)
    requires id in t
    ensures IsUniqueViolation(conflict) ==> SaveRow(CalmScript(id, conflict), t, c, r) == (Id(id), t)
    ensures !IsUniqueViolation(conflict) && !IsBusyError(conflict) ==>
              SaveRow(CalmScript(id, conflict), t, c, r) == (NotSaved(InsertFailed(conflict)), t)
  {
    hide IsUniqueViolation, IsBusyError;
  }

  /** Saving is honest, in every environment that meets collisions in the form
      `conflict`, if and only if that form is not recognised as a unique violation. */
  lemma SaveIsHonestIff(conflict: DbError)
    ensures (forall script: Script, t: Table, c: Clock, r: Row |
               script.conflict == conflict && OnlyCollisionsConflict(script) :: Honest(script, t, c, r))
            <==> !IsUniqueViolation(conflict)
  {
    hide SaveRow, IsUniqueViolation;
    if IsUniqueViolation(conflict) {
      var r := Row(1.0, 1.0, 1.0, 0.0, 1.0, "A", "", "", "", 0);
      CollidingSave("aaaaaaaa", conflict, map["aaaaaaaa" := r], Clock(0, 0), r);
      var script := CalmScript("aaaaaaaa", conflict);
      assert !Honest(script, map["aaaaaaaa" := r], Clock(0, 0), r);
    } else {
      forall script: Script, t: Table, c: Clock, r: Row |
        script.conflict == conflict && OnlyCollisionsConflict(script)
        ensures Honest(script, t, c, r)
      {
        SaveOutcome(script, t, c, r);
      }
    }
  }

  /** A concrete dishonest save: the driver reports the taken id with code 2067, the save
      answers with that id, and the row under it is the old one. */
  lemma CollisionHandsOutForeignRow()
    ensures var first := Row(90.0, 40.0, 12.0, 1.0, 20.0, "A", "", "", "server", 1);
            var second := Row(10.0, 5.0, 80.0, 9.0, 300.0, "F", "", "", "server", 2);
            var t: Table := map["00000000" := first];
            var (saved, after) := SaveRow(CalmScript("00000000", Sqlite(2067)), t, Clock(5, 0), second);
            saved == Id("00000000") && after == t && after["00000000"] == first
  {
    var first := Row(90.0, 40.0, 12.0, 1.0, 20.0, "A", "", "", "server", 1);
    var second := Row(10.0, 5.0, 80.0, 9.0, 300.0, "F", "", "", "server", 2);
    CollidingSave("00000000", Sqlite(2067), map["00000000" := first], Clock(5, 0), second);
  }

  /** With code 1555, which SQLite documents for a primary key, a collision is an error:
      the save fails, stores nothing and draws no other id. */
  lemma PrimaryKeyCollisionFails(id: string, t: Table, c: Clock, r: Row)
    requires id in t
    ensures SaveRow(CalmScript(id, Sqlite(SQLITE_CONSTRAINT_PRIMARYKEY)), t, c, r)
         == (NotSaved(InsertFailed(Sqlite(SQLITE_CONSTRAINT_PRIMARYKEY))), t)
  {
    hide SaveRow;
    CollidingSave(id, Sqlite(SQLITE_CONSTRAINT_PRIMARYKEY), t, c, r);
  }

  // ----- the store -----

  class Store {
    const maxResults: int
    const script: Script
    var table: Table
    var now: int
    var step: nat
    ghost var slept: nat
    ghost var waits: nat
    ghost var idsDrawn: nat

    ghost function Reading(): Clock
      reads this`now, this`step
    {
      Clock(now, step)
    }

    constructor (maxResults: int, script: Script, table: Table, now: int)
      ensures this.maxResults == maxResults && this.script == script && this.table == table && this.now == now
      ensures slept == waits == idsDrawn == 0
    {
      this.maxResults, this.script, this.table, this.now := maxResults, script, table, now;
      step, slept, waits, idsDrawn := 0, 0, 0, 0;
    }

    method Advance()
      modifies this`now, this`step
      ensures now >= old(now) && Reading() == Tick(script, old(Reading()))
    {
      now := now + script.late(step);
      step := step + 1;
    }

    /** Sleeps on the timer or until the context is done, whichever is first. */
    method Sleep(delay: nat) returns (done: bool)
      modifies this`now, this`step, this`slept, this`waits
      ensures now >= old(now) && slept == old(slept) + delay && waits == old(waits) + 1
      ensures !done ==> now >= old(now) + delay
      ensures done ==> EverDone(script)
      ensures var c := Tick(script, old(Reading()));
              done == script.done(c.step) && Reading() == if done then c else c.(now := c.now + delay)
    {
      slept := slept + delay;
      waits := waits + 1;
      Advance();
      done := script.done(step);
      if !done { now := now + delay; }
    }

    /** A busy wait either lets the caller retry, strictly before the deadline and after
        the full back-off, or ends the operation; it never sleeps past the deadline. */
    method WaitForBusyRetry(deadline: int, busyAttempt: nat) returns (r: Wait)
      modifies this`now, this`step, this`slept, this`waits
      ensures now >= old(now) && old(slept) <= slept && old(waits) <= waits <= old(waits) + 1
      ensures slept - old(slept) <= if deadline > old(now) then deadline - old(now) else 0
      ensures slept - old(slept) <= if waits == old(waits) then 0 else BusyRetryDelay(busyAttempt)
      ensures r.Retry? ==>
                && slept == old(slept) + BusyRetryDelay(busyAttempt)
                && now >= old(now) + BusyRetryDelay(busyAttempt)
                && old(now) + BusyRetryDelay(busyAttempt) < deadline
                && waits == old(waits) + 1
      ensures r.BudgetExhausted? ==> now >= deadline
      ensures r.Cancelled? ==> EverDone(script)
      ensures script.done(old(step) + 1) ==> r.Cancelled? && slept == old(slept)
      ensures r.Retry? ==> !script.done(step)
      ensures (r, Reading()) == BusyWait(script, old(Reading()), deadline, busyAttempt)
    {
      Advance();
      if script.done(step) { return Cancelled; }
      Advance();
      var remaining := deadline - now;
      if remaining <= 0 { return BudgetExhausted; }
      var delay := BusyRetryDelay(busyAttempt);
      var budgetExpires := delay >= remaining;
      if budgetExpires { delay := remaining; }
      var done := Sleep(delay);
      if done { return Cancelled; }
      Advance();
      if script.done(step) { return Cancelled; }
      if budgetExpires { return BudgetExhausted; }
      return Retry;
    }

    /** A unique violation is answered with the flag and no error. */
    method InsertResultWithRetry(id: string, row: Row, busyDeadline: int)
      returns (uniqueConflict: bool, error: Option<SaveError>)
      modifies this`now, this`step, this`slept, this`waits, this`table
      ensures now >= old(now) && slept >= old(slept) && waits >= old(waits)
      ensures uniqueConflict ==> error.None? && table == old(table)
      ensures error.Some? ==> table == old(table)
      ensures error.None? && !uniqueConflict ==> id !in old(table) && table == old(table)[id := row]
      ensures Inserted(uniqueConflict, error, table, Reading())
           == InsertRow(script, old(table), old(Reading()), id, row, busyDeadline, 0)
      ensures slept - old(slept) <= if busyDeadline > old(now) then busyDeadline - old(now) else 0
      ensures WaitsInFull(waits - old(waits), slept - old(slept))
      ensures error == Some(Retryable) ==> now >= busyDeadline
      ensures error == Some(ContextDone) ==> EverDone(script)
      ensures error.Some? ==> !error.value.NoUniqueId? && !error.value.NoEntropy?
      ensures error.Some? && error.value.InsertFailed? ==>
                !IsBusyError(error.value.error) && !IsUniqueViolation(error.value.error)
      ensures NeverRefuses(script) ==>
                && (id !in old(table) ==> error.None? && !uniqueConflict)
                && (id in old(table) && IsUniqueViolation(script.conflict) ==> uniqueConflict)
      ensures uniqueConflict && OnlyCollisionsConflict(script) ==>
          IsUniqueViolation(script.conflict) && id in old(table)
    {
      hide BusyWait, IsUniqueViolation, IsBusyError, BackOff, BusyRetryDelay, WaitsInFull;
      OneMoreWait(0, 0, 0);
      var busyAttempt := 0;
      while true
        invariant now >= old(now) && table == old(table)
        invariant 0 <= slept - old(slept) <= now - old(now)
        invariant slept > old(slept) ==> slept - old(slept) <= busyDeadline - old(now)
        invariant waits - old(waits) == busyAttempt && slept - old(slept) == BackOff(busyAttempt)
        invariant InsertRow(script, old(table), old(Reading()), id, row, busyDeadline, 0)
               == InsertRow(script, table, Reading(), id, row, busyDeadline, busyAttempt)
        decreases busyDeadline - now
      {
        OneMoreWait(busyAttempt, 0, 0);
        Advance();
        var answer := script.answer(step);
        if answer.Execute? && id !in table {
          table := table[id := row];
          return false, None;
        }
        var failure := if answer.Execute? then script.conflict else answer.error;
        if IsUniqueViolation(failure) { return true, None; }
        if !IsBusyError(failure) { return false, Some(InsertFailed(failure)); }
        ghost var waited, asleep := waits, slept;
        var wait := WaitForBusyRetry(busyDeadline, busyAttempt);
        OneMoreWait(busyAttempt, waits - waited, slept - asleep);
        match wait {
          case BudgetExhausted => return false, Some(Retryable);
          case Cancelled => return false, Some(ContextDone);
          case Retry => busyAttempt := busyAttempt + 1;
        }
      }
    }

    /** What a caller can rely on, and cannot: the id handed out names a row, which is the
        new one unless the id was taken; the branch that would draw another id is dead.
        All the waits fit in one budget. */
    method Save(r: Row) returns (saved: Saved)
      modifies this`now, this`step, this`slept, this`waits, this`table, this`idsDrawn
      ensures (saved, table) == SaveRow(script, old(table), old(Reading()), r)
      ensures saved.NotSaved? ==> table == old(table)
      ensures saved.Id? && OnlyCollisionsConflict(script) ==>
                if saved.id in old(table) then IsUniqueViolation(script.conflict) && table == old(table)
                else exists at: int :: old(now) <= at <= now && table == old(table)[saved.id := r.(createdAt := at)]
      ensures NeverRefuses(script) && !EverDone(script) && DrawsFreeIds(script, old(table)) ==> saved.Id?
      ensures NeverRefuses(script) && !EverDone(script) && DrawsTakenIds(script, old(table)) ==>
                (IsUniqueViolation(script.conflict) ==> saved.Id? && saved.id in old(table) && table == old(table))
      ensures idsDrawn - old(idsDrawn) <= 1 && saved != NotSaved(NoUniqueId)
      ensures slept - old(slept) <= BUSY_BUDGET
      ensures waits - old(waits) <= BUSY_BUDGET / INITIAL_BACKOFF + 1
      ensures saved == NotSaved(Retryable) ==> now - old(now) >= BUSY_BUDGET
      ensures saved == NotSaved(ContextDone) ==> EverDone(script)
      ensures saved == NotSaved(NoEntropy) ==> exists n :: script.id(n).None?
    {
      hide InsertRow, IsUniqueViolation, IsBusyError, WaitsInFull, BackOff, BusyRetryDelay;
      Advance();
      var createdAt := now;
      Advance();
      var busyDeadline := now + BUSY_BUDGET;
      for i := 0 to MAX_ID_RETRIES
        invariant i == 0 && table == old(table) && idsDrawn == old(idsDrawn)
        invariant slept == old(slept) && waits == old(waits)
        invariant now == busyDeadline - BUSY_BUDGET && old(now) <= createdAt <= now
        invariant SaveRow(script, old(table), old(Reading()), r)
               == SaveFrom(script, table, Reading(), r.(createdAt := createdAt), busyDeadline, MAX_ID_RETRIES)
      {
        Advance();
        if script.done(step) { return NotSaved(ContextDone); }
        var id := script.id(step);
        idsDrawn := idsDrawn + 1;
        if id.None? { return NotSaved(NoEntropy); }
        var uniqueConflict, error := InsertResultWithRetry(id.value, r.(createdAt := createdAt), busyDeadline);
        WaitsAreFew(waits - old(waits), slept - old(slept));
        if error.None? { return Id(id.value); }
        if uniqueConflict { assert false; }
        return NotSaved(error.value);
      }
      assert false;
    }

    method Get(id: string) returns (r: Lookup)
      modifies this`now, this`step, this`slept, this`waits
      ensures r.Found? ==> id in table && r.row == table[id]
      ensures r.Missing? ==> id !in table
      ensures NeverRefuses(script) ==> !r.LookupFailed?
      ensures waits >= old(waits) && WaitsInFull(waits - old(waits), slept - old(slept))
      ensures r.LookupFailed? && OnlyBusy(script) && !EverDone(script) ==> now - old(now) >= BUSY_BUDGET
      ensures NeverBusy(script) ==> waits == old(waits)
      ensures now >= old(now) && slept - old(slept) <= BUSY_BUDGET
    {
      hide BackOff, BusyRetryDelay, WaitsInFull, BusyWait, IsBusyError;
      OneMoreWait(0, 0, 0);
      Advance();
      var begin := now;
      var busyDeadline := now + BUSY_BUDGET;
      var busyAttempt := 0;
      while true
        invariant begin <= now && slept - old(slept) <= now - begin && slept - old(slept) <= BUSY_BUDGET
        invariant NeverBusy(script) ==> waits == old(waits)
        invariant waits - old(waits) == busyAttempt && slept - old(slept) == BackOff(busyAttempt)
        decreases busyDeadline - now
      {
        OneMoreWait(busyAttempt, 0, 0);
        Advance();
        var answer := script.answer(step);
        if answer.Execute? { return if id in table then Found(table[id]) else Missing; }
        if !IsBusyError(answer.error) { return LookupFailed; }
        ghost var waited, asleep := waits, slept;
        var wait := WaitForBusyRetry(busyDeadline, busyAttempt);
        OneMoreWait(busyAttempt, waits - waited, slept - asleep);
        if !wait.Retry? { return LookupFailed; }
        busyAttempt := busyAttempt + 1;
      }
    }

    /** Sharing a result and opening its link: what is read is what was saved, unless the
        id was taken, and then it is the row that had it. */
    method SaveThenGet(r: Row) returns (saved: Saved, lookup: Lookup)
      modifies this`now, this`step, this`slept, this`waits, this`table, this`idsDrawn
      ensures saved.Id? && OnlyCollisionsConflict(script) ==>
                && !lookup.Missing?
                && (lookup.Found? ==>
                      if saved.id in old(table) then
                        IsUniqueViolation(script.conflict) && lookup.row == old(table)[saved.id]
                      else lookup.row.(createdAt := r.createdAt) == r)
    {
      saved := Save(r);
      lookup := LookupFailed;
      if saved.Id? { lookup := Get(saved.id); }
    }

    /** One statement takes effect once or not at all. */
    method ExecWithBusyRetry(effect: Table -> Table) returns (ok: bool)
      modifies this`now, this`step, this`slept, this`waits, this`table
      ensures table == if ok then effect(old(table)) else old(table)
      ensures NeverRefuses(script) ==> ok
      ensures waits >= old(waits) && WaitsInFull(waits - old(waits), slept - old(slept))
      ensures !ok && OnlyBusy(script) && !EverDone(script) ==> now - old(now) >= BUSY_BUDGET
      ensures NeverBusy(script) ==> waits == old(waits)
      ensures now >= old(now) && slept - old(slept) <= BUSY_BUDGET
    {
      hide BackOff, BusyRetryDelay, WaitsInFull, BusyWait, IsBusyError;
      OneMoreWait(0, 0, 0);
      Advance();
      var begin := now;
      var busyDeadline := now + BUSY_BUDGET;
      var busyAttempt := 0;
      while true
        invariant begin <= now && table == old(table)
        invariant slept - old(slept) <= now - begin && slept - old(slept) <= BUSY_BUDGET
        invariant NeverBusy(script) ==> waits == old(waits)
        invariant waits - old(waits) == busyAttempt && slept - old(slept) == BackOff(busyAttempt)
        decreases busyDeadline - now
      {
        OneMoreWait(busyAttempt, 0, 0);
        Advance();
        var answer := script.answer(step);
        if answer.Execute? {
          table := effect(table);
          return true;
        }
        if !IsBusyError(answer.error) { return false; }
        ghost var waited, asleep := waits, slept;
        var wait := WaitForBusyRetry(busyDeadline, busyAttempt);
        OneMoreWait(busyAttempt, waits - waited, slept - asleep);
        if !wait.Retry? { return false; }
        busyAttempt := busyAttempt + 1;
      }
    }

    /** The two deletions fail independently; when neither does the table is `Cleaned`. */
    method Cleanup() returns (cutoff: int, aged: bool, trimmed: bool)
      modifies this`now, this`step, this`slept, this`waits, this`table
      ensures old(now) - RETENTION_MS <= cutoff <= now - RETENTION_MS
      ensures trimmed ==> maxResults > 0
      ensures NeverRefuses(script) ==> aged && (maxResults > 0 ==> trimmed)
      ensures table == var kept := if aged then Expire(old(table), cutoff) else old(table);
                       if trimmed then Trim(kept, maxResults) else kept
      ensures aged && (maxResults > 0 ==> trimmed) ==> table == Cleaned(old(table), cutoff, maxResults)
      ensures slept - old(slept) <= 2 * BUSY_BUDGET
    {
      hide Expire, Trim;
      Advance();
      var limit := now - RETENTION_MS;
      cutoff, trimmed := limit, false;
      aged := ExecWithBusyRetry(t => Expire(t, limit));
      if maxResults > 0 {
        var max: nat := maxResults;
        trimmed := ExecWithBusyRetry(t => Trim(t, max));
      }
    }
  }
}
