/**
 Three runs in which the cursor passes a row that nobody got and nobody was told about.
 A row joins a batch whose job was already created; three creations fail and so does the announcement of the skip; the
 first cursor is not saved and the next process takes the latest row.  The first and the last also stop delivery for
 good.
 */
module LostRows {
  import opened Basics
  import opened Watcher
  import opened Batching
  import opened Delivery
  import opened Passing
  import opened Feeder

  const OLD := Row(1, Some("c"), Some(1), None, None, -1000.0)
  const EARLY := Row(2, Some("c"), Some(2), None, None, 0.0)
  const LATE := Row(3, Some("c"), Some(3), None, None, 20.0)
  const TABLE: Table := [OLD, EARLY, LATE]

  const READY := NewPending(2, 2).(ingested := {2})
  const DISPATCHING := READY.(status := Dispatching)
  const OBSERVING := READY.(status := Observing, job := Some(7))
  const SUCCEEDED := OBSERVING.(status := Delivery.Status.Succeeded)
  const COMPLETE := SUCCEEDED.(contextWritten := true)

  /** The first process took the old row as its cursor. */
  const TAKEN: Log := [CursorChosen(1, 1)]
  const STARTED: Log := TAKEN + [CursorInitialized(1, 1)]

  // ---------- the table ----------

  lemma RowsOfTable()
    ensures Ordered(TABLE) && Changed(TABLE, 0) && Changed(TABLE, 1) && Changed(TABLE, 2)
    ensures NewRows(TABLE, 1, 2) == [EARLY] && NewRows(TABLE, 1, 3) == [EARLY, LATE]
  {
    assert !SameMessage(OLD, EARLY) && !SameMessage(OLD, LATE) && !SameMessage(EARLY, LATE);
    assert PreviousVersion(TABLE, EARLY, 0).None? && PreviousVersion(TABLE, EARLY, 1).None?;
    assert PreviousVersion(TABLE, LATE, 0).None? && PreviousVersion(TABLE, LATE, 1).None?;
    assert PreviousVersion(TABLE, LATE, 2).None?;
    assert NewRows(TABLE, 1, 0) == [] && NewRows(TABLE, 1, 1) == [];
    assert NewRows(TABLE, 1, 2) == [EARLY];
  }

  lemma TableFacts()
    ensures Ordered(TABLE) && Changed(TABLE, 1) && Changed(TABLE, 2)
    ensures Fetched(TABLE, 2, 1) == [EARLY] && Chosen(TABLE, 2, 1, [EARLY])
    ensures Fetched(TABLE, 3, 1) == [EARLY, LATE] && Chosen(TABLE, 3, 1, [EARLY, LATE])
    ensures OfTable(TABLE, 2, [EARLY]) && OfTable(TABLE, 3, [EARLY]) && OfTable(TABLE, 3, [EARLY, LATE])
  {
    hide NewRows, Changed, PreviousVersion, Ordered;
    RowsOfTable();
    NewRowsOfPrefix(TABLE, 2, 1, 2);
    NewRowsOfPrefix(TABLE, 3, 1, 3);
    assert Joins([EARLY, LATE], 1);
  }

  // ---------- building a log ----------

  ghost predicate Good(seen: nat, log: Log)
    requires seen <= 3
  {
    Lawful(log) && Fits(TABLE, seen, log) && Commits(TABLE, log)
  }

  lemma Grow(seen: nat, log: Log, e: Event)
    requires seen <= 3 && Good(seen, log) && Permitted(log, e) && EventFits(TABLE, seen, e)
    requires MovesCursor(e) ==> e.seen <= 3 && Fits(TABLE, e.seen, log)
    requires e.CursorSaved? ==> Chosen(TABLE, e.seen, e.start, e.batch)
    ensures Good(seen, log + [e])
    ensures CursorOf(log + [e]) == if MovesCursor(e) then Some(NewCursor(e)) else CursorOf(log)
    ensures ChosenOf(log + [e]) == if e.CursorChosen? then Some(e.cursor) else ChosenOf(log)
    ensures PendingOf(log + [e]) ==
            if e.PendingSaved? then Some(e.pending) else if e.PendingCleared? then None else PendingOf(log)
    ensures Jobs(log + [e], 2) == Jobs(log, 2) + if JobFor(e, 2) then 1 else 0
    ensures !e.QuarantineSaved? ==> QuarantineOf(log + [e]) == QuarantineOf(log)
  {
    hide Lawful, Commits, Chosen, Fits, EventFits, CursorOf, ChosenOf, PendingOf, QuarantineOf, Jobs, Permitted,
         Changed;
    Stepped(log, e);
    FitsStep(TABLE, seen, log, e);
    RowsOfTable();
    if MovesCursor(e) { MoveIsOk(TABLE, log, e); }
    CommitsStep(TABLE, log, e);
  }

  lemma TakenIsGood(seen: nat)
    requires 1 <= seen <= 3
    ensures Good(seen, TAKEN) && CursorOf(TAKEN).None? && ChosenOf(TAKEN) == Some(1) && PendingOf(TAKEN).None?
    ensures Jobs(TAKEN, 2) == 0 && QuarantineOf(TAKEN) == map[] && Last(TAKEN) == CursorChosen(1, 1)
  {
    assert TAKEN[..0] == [];
    assert Lawful([]) && PendingOf([]).None? && CursorOf([]).None? && ChosenOf([]).None?;
  }

  lemma StartedIsGood(seen: nat)
    requires 1 <= seen <= 3
    ensures Good(seen, STARTED) && CursorOf(STARTED) == Some(1) && PendingOf(STARTED).None? && Jobs(STARTED, 2) == 0
    ensures QuarantineOf(STARTED) == map[]
  {
    hide Good, CursorOf, ChosenOf, PendingOf, QuarantineOf, Jobs;
    TakenIsGood(seen);
    TakenIsGood(1);
    assert Good(1, TAKEN) ==> Fits(TABLE, 1, TAKEN) by { GoodFits(1, TAKEN); }
    Grow(seen, TAKEN, CursorInitialized(1, 1));
  }

  lemma GoodFits(seen: nat, log: Log)
    requires seen <= 3
    ensures Good(seen, log) ==> Lawful(log) && Fits(TABLE, seen, log) && Commits(TABLE, log)
  {
  }

  /** The early row was sent to job 7, which has not answered yet; `log` says how the process got its cursor. */
  function SentAfter(log: Log): Log { AnnouncedAfter(log) + [JobCreated(2, [EARLY])] + [PendingSaved(OBSERVING)] }

  function AnnouncedAfter(log: Log): Log {
    log + [RowIngested(2)] + [PendingSaved(READY)] + [PendingSaved(DISPATCHING)]
  }

  lemma SentIsGood(log: Log)
    requires Good(3, log) && PendingOf(log).None? && Jobs(log, 2) == 0 && !Passed(CursorOf(log), 2)
    ensures Good(3, SentAfter(log)) && PendingOf(SentAfter(log)) == Some(OBSERVING) && Jobs(SentAfter(log), 2) == 1
    ensures CursorOf(SentAfter(log)) == CursorOf(log) && ChosenOf(SentAfter(log)) == ChosenOf(log)
  {
    hide Good, CursorOf, ChosenOf, PendingOf, QuarantineOf, Jobs, OfTable, Changed, Ordered;
    TableFacts();
    AnnouncedIsGood(log);
    var c := AnnouncedAfter(log);
    assert Last(c) == PendingSaved(DISPATCHING);
    Grow(3, c, JobCreated(2, [EARLY]));
    Grow(3, c + [JobCreated(2, [EARLY])], PendingSaved(OBSERVING));
  }

  lemma AnnouncedIsGood(log: Log)
    requires Good(3, log) && PendingOf(log).None? && Jobs(log, 2) == 0 && !Passed(CursorOf(log), 2)
    ensures Good(3, AnnouncedAfter(log)) && PendingOf(AnnouncedAfter(log)) == Some(DISPATCHING)
    ensures Jobs(AnnouncedAfter(log), 2) == 0
    ensures CursorOf(AnnouncedAfter(log)) == CursorOf(log) && ChosenOf(AnnouncedAfter(log)) == ChosenOf(log)
  {
    hide Good, CursorOf, ChosenOf, PendingOf, QuarantineOf, Jobs;
    Grow(3, log, RowIngested(2));
    var a := log + [RowIngested(2)];
    Grow(3, a, PendingSaved(READY));
    Grow(3, a + [PendingSaved(READY)], PendingSaved(DISPATCHING));
  }

  // ---------- a row joins late ----------

  const SENT: Log := SentAfter(STARTED)

  /** The late row arrived, the job answered, and the cursor moved past both. */
  const ANSWERED: Log := SENT + [JobRead(7, RunOk(false, false))] + [PendingSaved(SUCCEEDED)] +
    [ContextWritten(2)] + [PendingSaved(COMPLETE)]
  const PASSED: Log := ANSWERED + [CursorSaved(1, [EARLY, LATE], 3)]

  lemma AnsweredIsGood()
    ensures Good(3, ANSWERED) && PendingOf(ANSWERED) == Some(COMPLETE) && CursorOf(ANSWERED) == Some(1)
  {
    hide Good, CursorOf, ChosenOf, PendingOf, QuarantineOf, Jobs;
    StartedIsGood(3);
    SentIsGood(STARTED);
    var a := SENT + [JobRead(7, RunOk(false, false))];
    Grow(3, SENT, JobRead(7, RunOk(false, false)));
    Grow(3, a, PendingSaved(SUCCEEDED));
    var b := a + [PendingSaved(SUCCEEDED)];
    Grow(3, b, ContextWritten(2));
    Grow(3, b + [ContextWritten(2)], PendingSaved(COMPLETE));
  }

  /** In these logs only the early row was ever sent and nothing was announced. */
  lemma OnlyEarlySent(log: Log)
    requires forall i :: 0 <= i < |log| && Handles(log[i]) ==> log[i].batch == [EARLY]
    requires forall i :: 0 <= i < |log| ==> !(log[i].NoticeTried? && log[i].sent)
    ensures !Touched(log, LATE)
  {
    forall key ensures !Handled(log, key, LATE) {}
  }

  /**
   The log is lawful and fits the table; the late row is a changed row at or before the cursor that was neither sent,
   quarantined nor announced; and the record is stuck.
   */
  lemma LateRowIsLost()
    ensures Lawful(PASSED) && Fits(TABLE, 3, PASSED) && Commits(TABLE, PASSED)
    ensures Changed(TABLE, 2) && TABLE[2] == LATE && CursorOf(PASSED) == Some(LATE.id) && !Touched(PASSED, LATE)
    ensures PendingOf(PASSED) == Some(COMPLETE) && Stuck(PASSED) && !NoRowLost(TABLE, PASSED)
  {
    hide CursorOf, ChosenOf, PendingOf, QuarantineOf, Jobs, Lawful, Fits, Commits, Ordered, Chosen, OfTable, Touched,
         Changed;
    AnsweredIsGood();
    TableFacts();
    var e := CursorSaved(1, [EARLY, LATE], 3);
    Grow(3, ANSWERED, e);
    OnlyEarlySent(PASSED);
    OnlyEarlySent(ANSWERED);
    assert PASSED[|ANSWERED|] == e && PASSED[..|ANSWERED|] == ANSWERED;
    assert !NoneLost(TABLE, ANSWERED, e) by {
      assert Changed(TABLE, 2) && 1 < TABLE[2].id <= LastId(e.batch);
      assert !Handled(ANSWERED, 2, LATE) by { NotTouched(ANSWERED, 2, LATE); }
    }
  }

  lemma NotTouched(log: Log, key: nat, row: Row)
    requires !Touched(log, row)
    ensures !Handled(log, key, row)
  {
  }

  /**
   The code from the moment the late row is there: whenever the attempt at the grown batch succeeds, the late row is
   still unhandled, and the next thing delivery can write is the cursor past it.
   */
  method LateRowIsPassedUnsent(now: real) returns (feeder: SignalFeeder, o: Outcome, ghost settled: Log)
    ensures o == Success ==> !Handled(settled, 2, LATE) && settled <= feeder.log
    ensures o == Success && feeder.log != settled ==> feeder.log[|settled|] == CursorSaved(1, [EARLY, LATE], 3)
  {
    hide Lawful, PendingOf, CursorOf, ChosenOf, QuarantineOf, Jobs, Extent, OfTable, Commits, Fits, Ordered, Changed,
      Accounted, Handled, Touched;
    StartedIsGood(3);
    SentIsGood(STARTED);
    TableFacts();
    feeder := new SignalFeeder.Resume(TABLE, 3, SENT);
    o := feeder.AttemptBatchDelivery([EARLY, LATE], now);
    settled := feeder.log;
    if o == Success {
      OnlyEarlySent(SENT);
      NotTouched(SENT, 2, LATE);
      if Handled(settled, 2, LATE) { HandledBefore(SENT, settled, 2, LATE); }
      var _, _, _, _ := feeder.DeliverBatches(now);
      if feeder.log != settled { FirstCommit(feeder, settled); }
    }
  }

  lemma FirstCommit(feeder: SignalFeeder, settled: Log)
    requires feeder.Valid() && feeder.table == TABLE && settled < feeder.log && feeder.log[|settled|].CursorSaved?
    requires CursorOf(settled) == Some(1) && feeder.log[|settled|].seen == 3
    ensures feeder.log[|settled|] == CursorSaved(1, [EARLY, LATE], 3)
  {
    hide Changed, NewRows, Ordered, Lawful, HandledPart, CoversRange;
    var e := feeder.log[|settled|];
    assert feeder.log[..|settled|] == settled;
    assert MoveOk(TABLE, settled, e);
    TableFacts();
    MaximalBatchIsUnique([EARLY, LATE], 2);
  }

  /** Started on that log, the feeder never delivers anything again. */
  method LateRowStopsDelivery(polls: nat) returns (feeder: SignalFeeder)
    ensures OnlyQuarantines(PASSED, feeder.log) && feeder.saved == Some(LATE.id) && feeder.pending == Some(COMPLETE)
  {
    hide Lawful, PendingOf, CursorOf, ChosenOf, QuarantineOf, Fits, Commits, Ordered, Changed, Touched, NoRowLost;
    LateRowIsLost();
    TableFacts();
    feeder := new SignalFeeder.Resume(TABLE, 3, PASSED);
    StuckForever(feeder, polls);
  }

  // ---------- a silent skip ----------

  /** The record before attempt n + 1, while it is announced, and after it failed. */
  function Idle(n: nat): Pending { READY.(attempts := n) }
  function Announcing(n: nat): Pending { DISPATCHING.(attempts := n) }
  function Retrying(n: nat): Pending { READY.(attempts := n, status := Delivery.Status.Retry,
                                              retryAfter := 120.0 * n as real) }
  const SKIPPED := READY.(attempts := 3, status := Delivery.Status.Skipped)

  /** Two attempts whose job creation failed and was recorded as failed, and the announcement of the third. */
  const REFUSED: Log :=
    STARTED + [RowIngested(2)] + [PendingSaved(Idle(0))] + [PendingSaved(Announcing(0))] + [PendingSaved(Retrying(1))] +
    [PendingSaved(Idle(1))] + [PendingSaved(Announcing(1))] + [PendingSaved(Retrying(2))] + [PendingSaved(Idle(2))] +
    [PendingSaved(Announcing(2))]

  /** The third creation fails too, nobody can be told, and the cursor moves on. */
  const UNTOLD: Log := REFUSED + [NoticeTried(2, EARLY, false)] + [PendingSaved(SKIPPED)]
  const DROPPED: Log := UNTOLD + [CursorSaved(1, [EARLY], 2)]

  /** One recorded failure and the next announcement. */
  lemma FailOnce(log: Log, n: nat)
    requires n < 2 && Good(2, log) && PendingOf(log) == Some(Announcing(n)) && Jobs(log, 2) == 0 &&
             CursorOf(log) == Some(1) && JustResent(log) == 0
    ensures var failed := log + [PendingSaved(Retrying(n + 1))];
            var longer := failed + [PendingSaved(Idle(n + 1))] + [PendingSaved(Announcing(n + 1))];
            && Good(2, longer) && PendingOf(longer) == Some(Announcing(n + 1)) && Jobs(longer, 2) == 0
            && CursorOf(longer) == Some(1)
  {
    hide Good, CursorOf, ChosenOf, PendingOf, QuarantineOf, Jobs;
    Grow(2, log, PendingSaved(Retrying(n + 1)));
    var a := log + [PendingSaved(Retrying(n + 1))];
    Grow(2, a, PendingSaved(Idle(n + 1)));
    Grow(2, a + [PendingSaved(Idle(n + 1))], PendingSaved(Announcing(n + 1)));
  }

  lemma RefusedIsGood()
    ensures Good(2, REFUSED) && PendingOf(REFUSED) == Some(Announcing(2)) && CursorOf(REFUSED) == Some(1)
  {
    hide Good, CursorOf, ChosenOf, PendingOf, QuarantineOf, Jobs;
    StartedIsGood(2);
    Grow(2, STARTED, RowIngested(2));
    var a := STARTED + [RowIngested(2)];
    Grow(2, a, PendingSaved(Idle(0)));
    var b := a + [PendingSaved(Idle(0))];
    Grow(2, b, PendingSaved(Announcing(0)));
    FailOnce(b + [PendingSaved(Announcing(0))], 0);
    var c := b + [PendingSaved(Announcing(0))] + [PendingSaved(Retrying(1))] + [PendingSaved(Idle(1))];
    FailOnce(c + [PendingSaved(Announcing(1))], 1);
  }

  lemma UntoldIsGood()
    ensures Good(2, UNTOLD) && PendingOf(UNTOLD) == Some(SKIPPED) && CursorOf(UNTOLD) == Some(1)
  {
    hide Good, CursorOf, ChosenOf, PendingOf, QuarantineOf, Jobs;
    RefusedIsGood();
    Grow(2, REFUSED, NoticeTried(2, EARLY, false));
    Grow(2, REFUSED + [NoticeTried(2, EARLY, false)], PendingSaved(SKIPPED));
  }

  lemma NobodyGotIt(log: Log, row: Row)
    requires forall i :: 0 <= i < |log| ==> !Handles(log[i]) && !(log[i].NoticeTried? && log[i].sent)
    ensures !Touched(log, row)
  {
    forall key ensures !Handled(log, key, row) {}
  }

  /**
   A lawful log that passes a row which is in no job and no entry and was not announced, although nothing joined late.
   */
  lemma SkipCanBeSilent()
    ensures Lawful(DROPPED) && Fits(TABLE, 2, DROPPED) && Commits(TABLE, DROPPED)
    ensures Changed(TABLE, 1) && TABLE[1] == EARLY && CursorOf(DROPPED) == Some(EARLY.id) && !Touched(DROPPED, EARLY)
    ensures !NoRowLost(TABLE, DROPPED) && !LateUnsent(UNTOLD, Fetched(TABLE, 2, 1), [EARLY], true)
  {
    hide CursorOf, ChosenOf, PendingOf, QuarantineOf, Jobs, Lawful, Fits, Commits, Ordered, Chosen, OfTable, Touched,
         Changed,
      Fetched;
    UntoldIsGood();
    TableFacts();
    var e := CursorSaved(1, [EARLY], 2);
    Grow(2, UNTOLD, e);
    NobodyGotIt(DROPPED, EARLY);
    NobodyGotIt(UNTOLD, EARLY);
    assert DROPPED[|UNTOLD|] == e && DROPPED[..|UNTOLD|] == UNTOLD;
    assert !NoneLost(TABLE, UNTOLD, e) by {
      assert Changed(TABLE, 1) && 1 < TABLE[1].id <= LastId(e.batch);
      NotTouched(UNTOLD, 2, EARLY);
    }
  }

  /**
   The code from the third announcement: if the attempt ends in a skip, no job was ever created, and the row was handled
   exactly when its announcement got through.
   */
  method ThirdRefusalSkips(now: real) returns (feeder: SignalFeeder, o: Outcome)
    ensures o == Skip ==> NoJobs(REFUSED, feeder.log) && AllTried(feeder.log, 2, [EARLY])
    ensures o == Skip ==> (Handled(feeder.log, 2, EARLY) <==> NoticeTried(2, EARLY, true) in feeder.log)
  {
    hide Lawful, PendingOf, CursorOf, ChosenOf, QuarantineOf, Jobs, Extent, OfTable, Commits, Fits, Ordered, Changed,
         Accounted;
    RefusedIsGood();
    TableFacts();
    feeder := new SignalFeeder.Resume(TABLE, 2, REFUSED);
    o := feeder.AttemptBatchDelivery([EARLY], now);
    if o == Skip {
      assert forall i :: 0 <= i < |REFUSED| ==> !Handles(REFUSED[i]);
      assert forall i :: 0 <= i < |feeder.log| ==> !Handles(feeder.log[i]);
    }
  }

  // ---------- a start without a cursor file ----------

  /** The first cursor was never saved; the next process takes the latest row and saves that. */
  const UNSAVED: Log := SentAfter(TAKEN)
  const BLIND: Log := UNSAVED + [CursorChosen(3, 3)] + [CursorInitialized(3, 3)]

  lemma UnsavedIsGood()
    ensures Good(3, UNSAVED) && PendingOf(UNSAVED) == Some(OBSERVING) && CursorOf(UNSAVED).None? &&
            ChosenOf(UNSAVED) == Some(1)
  {
    hide Good, CursorOf, ChosenOf, PendingOf, QuarantineOf, Jobs;
    TakenIsGood(3);
    SentIsGood(TAKEN);
  }

  /**
   A lawful log whose cursor passes a record that is still being observed and a row that nobody got; the record is
   stuck.
   */
  lemma BlindStartLosesRow()
    ensures Lawful(BLIND) && Fits(TABLE, 3, BLIND) && Commits(TABLE, BLIND)
    ensures PendingOf(BLIND) == Some(OBSERVING) && CursorOf(BLIND) == Some(3) && PassesUnsettled(BLIND, |BLIND| - 1)
    ensures Stuck(BLIND) && Changed(TABLE, 2) && TABLE[2] == LATE && !Touched(BLIND, LATE) && !NoRowLost(TABLE, BLIND)
  {
    hide CursorOf, ChosenOf, PendingOf, QuarantineOf, Jobs, Lawful, Fits, Commits, Ordered, Chosen, OfTable, Touched,
         Changed;
    UnsavedIsGood();
    TableFacts();
    Grow(3, UNSAVED, CursorChosen(3, 3));
    var before, e := UNSAVED + [CursorChosen(3, 3)], CursorInitialized(3, 3);
    Grow(3, before, e);
    OnlyEarlySent(BLIND);
    OnlyEarlySent(before);
    assert BLIND == before + [e] && BLIND[|before|] == e && BLIND[..|before|] == before && BLIND[..|BLIND|] == BLIND;
    assert OriginOf(before) == Some(1) by { OriginOfBlind(); }
    assert !NoneLost(TABLE, before, e) by {
      assert Changed(TABLE, 2) && 1 < TABLE[2].id <= 3;
    }
  }

  lemma OriginOfBlind()
    ensures OriginOf(UNSAVED + [CursorChosen(3, 3)]) == Some(1)
  {
    assert OriginOf(TAKEN) == Some(1) by { assert TAKEN[..0] == []; }
    var log: Log := TAKEN;
    OriginStays(TAKEN, UNSAVED + [CursorChosen(3, 3)]);
  }

  lemma {:induction false} OriginStays(was: Log, now: Log)
    requires was <= now && OriginOf(was).Some?
    ensures OriginOf(now) == OriginOf(was)
    decreases |now|
  {
    if |was| < |now| {
      OriginStays(was, now[..|now| - 1]);
    } else {
      assert was == now;
    }
  }

  /**
   The code that finds that record but no cursor file: it takes the latest row, and once that is saved nothing moves
   again.
   */
  method BlindStartStopsDelivery(now: real, polls: nat) returns (feeder: SignalFeeder)
    ensures feeder.pending == Some(OBSERVING) && feeder.cursor == Some(3)
    ensures UNSAVED + [CursorChosen(3, 3)] <= feeder.log
    ensures feeder.saved.Some? ==> feeder.saved == Some(3) && OnlyQuarantines(BLIND, feeder.log)
  {
    hide Lawful, PendingOf, CursorOf, ChosenOf, QuarantineOf, Fits, Commits, Ordered, Changed, Accounted, Reconcilable,
         Drained;
    UnsavedIsGood();
    TableFacts();
    feeder := new SignalFeeder.Resume(TABLE, 3, UNSAVED);
    var _, _, _, _ := feeder.Poll(3, now);
    if feeder.saved.Some? {
      feeder.PassedIsStuck();
      StuckForever(feeder, polls);
    }
  }
}
