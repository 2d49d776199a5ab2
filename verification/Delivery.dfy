/**
 Legacy delivery of watcher batches to trading jobs, with no account opted in to signal execution.
 The durable state is a function of the log; `Permitted` is what the feeder is proved to respect
 (module Feeder), and the theorems here hold over every crash schedule.
 */
module Delivery {
  import opened Basics
  import opened Watcher

  const MAX_ATTEMPTS := 3
  const MAX_REDELIVERIES := 3

  datatype Status =
    | Ready | IngressRetry | Dispatching | Observing | Retry
    | DeliveryRetry | DeliveryUncertain | ManualReview
    | Succeeded | Skipped | Quarantined

  /** The pending-delivery file.  key and last are the row IDs of the batch it was created for. */
  datatype Pending = Pending(
    key: nat, last: nat, job: Option<nat>, status: Status, attempts: nat,
    ingested: set<nat>, retryAfter: real,
    redeliveries: nat, originUncertain: bool, uncertainSeen: bool, contextWritten: bool)

  /** What the retained job record says. */
  datatype JobStatus = Unreadable | Absent | NotRun | RunFailed | RunOk(deliveryError: bool, uncertain: bool)

  /** What the trading brain answered. */
  datatype Response = NoResponse | BrainFailure | Answer

  /** What the scheduler says about a job name. */
  datatype Lookup = LookupFailed | NoSuchJob | FoundJob(job: nat)

  /**
   CursorChosen: a process without a cursor file takes the latest row of a table of `seen` rows, in memory;
   CursorInitialized: it saves that cursor.  CursorSaved: the cursor moves from start to the last row of the batch.
   JobCreated carries the rows of its prompt, QuarantineSaved the rows its entry covers.  NoticeTried: the skip of one
   row was to be announced, and was or was not.
   */
  datatype Event =
    | CursorChosen(cursor: nat, seen: nat)
    | CursorInitialized(cursor: nat, seen: nat)
    | CursorSaved(start: nat, batch: seq<Row>, seen: nat)
    | PendingSaved(pending: Pending)
    | PendingCleared
    | QuarantineSaved(key: nat, batch: seq<Row>)
    | RowIngested(row: nat)
    | JobCreated(key: nat, batch: seq<Row>)
    | NoticeTried(key: nat, notified: Row, sent: bool)
    | IngressRefused(row: nat)
    | Routed(routable: bool)
    | JobLookup(answer: Lookup)
    | AnswerRead(job: nat, response: Response)
    | JobRead(job: nat, status: JobStatus)
    | JobRefused(key: nat)
    | ContextWritten(key: nat)
    | Resent(delivered: bool, unsure: bool)

  type Log = seq<Event>

  predicate Terminal(s: Status) { s.Succeeded? || s.Skipped? || s.Quarantined? }

  /** A trading job may exist for the current attempt. */
  predicate InFlight(p: Pending) { p.status.Dispatching? || p.job.Some? }

  function Last(log: Log): Event
    requires log != []
  {
    log[|log| - 1]
  }

  function LastId(batch: seq<Row>): nat { if batch == [] then 0 else batch[|batch| - 1].id }

  predicate MovesCursor(e: Event) { e.CursorInitialized? || e.CursorSaved? }

  function NewCursor(e: Event): nat
    requires MovesCursor(e)
  {
    if e.CursorInitialized? then e.cursor else LastId(e.batch)
  }

  function CursorOf(log: Log): Option<nat> {
    if log == [] then None
    else if MovesCursor(Last(log)) then Some(NewCursor(Last(log)))
    else CursorOf(log[..|log| - 1])
  }

  /** The cursor that the latest process without a cursor file took. */
  function ChosenOf(log: Log): Option<nat> {
    if log == [] then None else if Last(log).CursorChosen? then Some(Last(log).cursor) else ChosenOf(log[..|log| - 1])
  }

  /** The cursor that the first process ever took. */
  function OriginOf(log: Log): Option<nat> {
    if log == [] then None
    else if OriginOf(log[..|log| - 1]).Some? then OriginOf(log[..|log| - 1])
    else if Last(log).CursorChosen? then Some(Last(log).cursor)
    else None
  }

  function PendingOf(log: Log): Option<Pending> {
    if log == [] then None
    else if Last(log).PendingSaved? then Some(Last(log).pending)
    else if Last(log).PendingCleared? then None
    else PendingOf(log[..|log| - 1])
  }

  /** The quarantine store: for each entry, the last row it covers. */
  function QuarantineOf(log: Log): map<nat, nat> {
    if log == [] then map[]
    else if Last(log).QuarantineSaved? then QuarantineOf(log[..|log| - 1])[Last(log).key := LastId(Last(log).batch)]
    else QuarantineOf(log[..|log| - 1])
  }

  predicate JobFor(e: Event, key: nat) { e.JobCreated? && e.key == key }

  /** How many trading jobs were created for a batch; blocked notices are not trading jobs. */
  function Jobs(log: Log, key: nat): nat {
    if log == [] then 0 else Jobs(log[..|log| - 1], key) + if JobFor(Last(log), key) then 1 else 0
  }

  // ---------- which rows were handled ----------

  /** The rows of the event were sent to a trading job or quarantined. */
  predicate Handles(e: Event) { e.JobCreated? || e.QuarantineSaved? }

  /** The row was in a job or a quarantine entry of the batch that starts at `key`. */
  ghost predicate Sent(log: Log, key: nat, row: Row) {
    exists i :: 0 <= i < |log| && Handles(log[i]) && log[i].key == key && row in log[i].batch
  }

  /** The skip of the row was announced. */
  predicate Noticed(log: Log, key: nat, row: Row) { NoticeTried(key, row, true) in log }

  /** Somebody got the row, or was told that nobody will, as a row of the batch that starts at `key`. */
  ghost predicate Handled(log: Log, key: nat, row: Row) { Sent(log, key, row) || Noticed(log, key, row) }

  ghost predicate AllSent(log: Log, key: nat, batch: seq<Row>) {
    forall r :: r in batch ==> Sent(log, key, r)
  }

  ghost predicate AllHandled(log: Log, key: nat, batch: seq<Row>) {
    forall r :: r in batch ==> Handled(log, key, r)
  }

  /** The announcement of every row's skip was tried, with whatever result. */
  ghost predicate AllTried(log: Log, key: nat, batch: seq<Row>) {
    forall r :: r in batch ==> NoticeTried(key, r, true) in log || NoticeTried(key, r, false) in log
  }

  /** The largest number of rows with which the batch that starts at `key` was sent or quarantined. */
  function Extent(log: Log, key: nat): nat {
    if log == [] then 0
    else
      var n, e := Extent(log[..|log| - 1], key), Last(log);
      if Handles(e) && e.key == key && |e.batch| > n then |e.batch| else n
  }

  /** The log went on without a new trading job. */
  ghost predicate NoJobs(was: Log, now: Log) {
    was <= now && forall i :: |was| <= i < |now| ==> !now[i].JobCreated?
  }

  /** The log went on without sending or quarantining any further row. */
  ghost predicate NothingSent(was: Log, now: Log) {
    was <= now && forall i :: |was| <= i < |now| ==> !Handles(now[i])
  }

  /** The log went on without handling any further row. */
  ghost predicate NothingHandled(was: Log, now: Log) {
    NothingSent(was, now) && forall i :: |was| <= i < |now| ==> !now[i].NoticeTried?
  }

  lemma SentSurvives(was: Log, now: Log, key: nat, batch: seq<Row>)
    requires was <= now && AllSent(was, key, batch)
    ensures AllSent(now, key, batch)
  {
    forall r | r in batch ensures Sent(now, key, r) {
      var i :| 0 <= i < |was| && Handles(was[i]) && was[i].key == key && r in was[i].batch;
      assert now[i] == was[i];
    }
  }

  lemma HandledBefore(was: Log, now: Log, key: nat, row: Row)
    requires NothingHandled(was, now) && Handled(now, key, row)
    ensures Handled(was, key, row)
  {
    if Sent(now, key, row) {
      var i :| 0 <= i < |now| && Handles(now[i]) && now[i].key == key && row in now[i].batch;
      assert was[i] == now[i];
    } else {
      var i :| 0 <= i < |now| && now[i] == NoticeTried(key, row, true);
      assert was[i] == now[i];
    }
  }

  lemma {:induction false} ExtentReached(log: Log, key: nat)
    ensures forall i :: 0 <= i < |log| && Handles(log[i]) && log[i].key == key ==> |log[i].batch| <= Extent(log, key)
    ensures Extent(log, key) > 0 ==>
              exists i :: 0 <= i < |log| && Handles(log[i]) && log[i].key == key && |log[i].batch| == Extent(log, key)
  {
    if log != [] {
      var init, e := log[..|log| - 1], Last(log);
      ExtentReached(init, key);
      assert forall i :: 0 <= i < |init| ==> init[i] == log[i];
      if Extent(log, key) > 0 && !(Handles(e) && e.key == key && |e.batch| == Extent(log, key)) {
        var i :| 0 <= i < |init| && Handles(init[i]) && init[i].key == key && |init[i].batch| == Extent(init, key);
        assert Handles(log[i]);
      }
    }
  }

  predicate Passed(cursor: Option<nat>, key: nat) { cursor.Some? && key <= cursor.value }

  /** The job was read as completed, and delivered by itself or by a successful re-send. */
  predicate SuccessEvidence(log: Log, job: nat) {
    || (log != [] && Last(log).JobRead? && Last(log).job == job && Last(log).status.RunOk? &&
        !Last(log).status.deliveryError)
    || (&& |log| >= 2 && Last(log).Resent? && Last(log).delivered
        && log[|log| - 2].JobRead? && log[|log| - 2].job == job && log[|log| - 2].status.RunOk?)
  }

  predicate FailedAttempt(p: Pending, q: Pending) {
    InFlight(p) && !InFlight(q) && q.attempts == p.attempts + 1 && (q.status.Retry? || q.status.Skipped?)
  }

  /** How the pending record may change from one save to the next. */
  predicate Succeeds(p: Pending, q: Pending) {
    && q.key == p.key && q.last == p.last
    && (Terminal(p.status) ==> q.status == p.status && q.attempts == p.attempts && q.job == p.job)
    && (|| FailedAttempt(p, q)
        || (q.attempts == p.attempts && q.status.Dispatching? && q.job.None? && !InFlight(p))
        || (q.attempts == p.attempts && InFlight(p) && q.job.Some? && !q.status.Dispatching? &&
            (p.job.Some? ==> q.job == p.job))
        || (q.attempts == p.attempts && !InFlight(p) && !InFlight(q)))
  }

  /** A record waits for a time only in the states that are put off. */
  predicate Timed(q: Pending) {
    q.status.IngressRetry? || q.status.Retry? || q.status.DeliveryRetry? || q.status.DeliveryUncertain? ||
    q.retryAfter == 0.0
  }

  /** Only the row that ingress has just accepted is added, and none is forgotten. */
  ghost predicate Remembers(log: Log, was: set<nat>, now: set<nat>) {
    was <= now && forall id :: id in now && id !in was ==> log != [] && Last(log) == RowIngested(id)
  }

  /** How many re-sends a save has to add: the one that has just been made. */
  function JustResent(log: Log): nat { if log != [] && Last(log).Resent? then 1 else 0 }

  ghost predicate MaySave(log: Log, q: Pending) {
    && q.key <= q.last && q.attempts <= MAX_ATTEMPTS && Timed(q)
    && (InFlight(q) || !Terminal(q.status) ==> q.attempts < MAX_ATTEMPTS)
    && match PendingOf(log)
       case None =>
         && !Passed(CursorOf(log), q.key) && q.attempts == 0 && q.job.None? && !Terminal(q.status)
         && Remembers(log, {}, q.ingested) && q.redeliveries == 0 && !q.contextWritten
       case Some(p) =>
         && Succeeds(p, q)
         && Remembers(log, p.ingested, q.ingested) && q.redeliveries == p.redeliveries + JustResent(log)
         && (p.contextWritten ==> q.contextWritten)
         && (q.contextWritten && !p.contextWritten ==> log != [] && Last(log) == ContextWritten(q.key))
         && (q.job.Some? && p.job.None? ==> Jobs(log, q.key) > 0)
         && (q.status.Succeeded? && !p.status.Succeeded? ==> q.job.Some? && SuccessEvidence(log, q.job.value))
         && (q.status.Skipped? ==> q.attempts == MAX_ATTEMPTS)
         && (q.status.Quarantined? ==> q.key in QuarantineOf(log))
  }

  ghost predicate Permitted(log: Log, e: Event) {
    match e
    case CursorChosen(c, _) => CursorOf(log).None? && (ChosenOf(log).Some? ==> ChosenOf(log).value <= c)
    case CursorInitialized(c, seen) => CursorOf(log).None? && log != [] && Last(log) == CursorChosen(c, seen)
    case CursorSaved(start, batch, _) =>
      && batch != [] && start < batch[0].id <= LastId(batch)
      && (if CursorOf(log).Some? then CursorOf(log).value == start else ChosenOf(log) == Some(start))
      && PendingOf(log).Some? && Terminal(PendingOf(log).value.status) && PendingOf(log).value.key == batch[0].id
    case PendingSaved(q) => MaySave(log, q)
    case PendingCleared =>
      && PendingOf(log).Some? && Terminal(PendingOf(log).value.status)
      && Passed(CursorOf(log), PendingOf(log).value.key)
    case QuarantineSaved(key, batch) =>
      && batch != [] && batch[0].id == key && key !in QuarantineOf(log)
      && (|batch| > 1 ==> PendingOf(log).Some? && PendingOf(log).value.key == key)
    case NoticeTried(key, _, _) => PendingOf(log).Some? && PendingOf(log).value.key == key
    case JobCreated(key, batch) =>
      && batch != [] && batch[0].id == key
      && log != [] && Last(log).PendingSaved? && Last(log).pending.key == key
      && Last(log).pending.status.Dispatching? && Last(log).pending.job.None?
      && forall r :: r in batch ==> r.id in Last(log).pending.ingested
    case Resent(_, _) =>
      && PendingOf(log).Some? && PendingOf(log).value.job.Some? && !Terminal(PendingOf(log).value.status)
      && PendingOf(log).value.redeliveries < MAX_REDELIVERIES
    case _ => true
  }

  ghost predicate Lawful(log: Log) {
    log == [] || (Lawful(log[..|log| - 1]) && Permitted(log[..|log| - 1], Last(log)))
  }

  lemma Stepped(log: Log, e: Event)
    ensures CursorOf(log + [e]) == if MovesCursor(e) then Some(NewCursor(e)) else CursorOf(log)
    ensures PendingOf(log + [e]) ==
            if e.PendingSaved? then Some(e.pending) else if e.PendingCleared? then None else PendingOf(log)
    ensures ChosenOf(log + [e]) == if e.CursorChosen? then Some(e.cursor) else ChosenOf(log)
    ensures OriginOf(log + [e]) ==
            if OriginOf(log).Some? then OriginOf(log) else if e.CursorChosen? then Some(e.cursor) else None
    ensures QuarantineOf(log + [e]) == if e.QuarantineSaved? then QuarantineOf(log)[e.key := LastId(e.batch)]
            else QuarantineOf(log)
    ensures forall key :: Jobs(log + [e], key) == Jobs(log, key) + if JobFor(e, key) then 1 else 0
    ensures forall key :: Extent(log + [e], key) ==
                          if Handles(e) && e.key == key && |e.batch| > Extent(log, key) then |e.batch|
                              else Extent(log, key)
    ensures Lawful(log + [e]) <==> Lawful(log) && Permitted(log, e)
  {
    assert (log + [e])[..|log + [e]| - 1] == log;
  }

  lemma {:induction false} LawfulPrefix(log: Log, k: nat)
    requires Lawful(log) && k <= |log|
    ensures Lawful(log[..k])
    decreases |log|
  {
    if k < |log| {
      assert log[..|log| - 1][..k] == log[..k];
      LawfulPrefix(log[..|log| - 1], k);
    } else {
      assert log[..k] == log;
    }
  }

  lemma LawfulAt(log: Log, i: nat)
    requires Lawful(log) && i < |log|
    ensures Lawful(log[..i]) && Permitted(log[..i], log[i]) && log[..i] + [log[i]] == log[..i + 1]
  {
    LawfulPrefix(log, i + 1);
    assert log[..i + 1][..i] == log[..i];
  }

  // ---------- at most MAX_ATTEMPTS jobs per batch ----------

  /** The number of jobs created for the pending batch is bounded by its recorded attempts. */
  ghost predicate Accounted(log: Log, p: Pending) {
    && p.attempts <= MAX_ATTEMPTS && p.key <= p.last && Timed(p)
    && (InFlight(p) || !Terminal(p.status) ==> p.attempts < MAX_ATTEMPTS)
    && Jobs(log, p.key) <= p.attempts + (if InFlight(p) && !Announced(log) then 1 else 0)
  }

  /** The last thing that happened is the write-ahead of a dispatch. */
  predicate Announced(log: Log) {
    log != [] && Last(log).PendingSaved? && Last(log).pending.status.Dispatching?
  }

  ghost predicate Bounded(log: Log) {
    && (PendingOf(log).Some? ==> Accounted(log, PendingOf(log).value))
    && forall key :: Jobs(log, key) <= MAX_ATTEMPTS &&
                     (Jobs(log, key) > 0 && !(PendingOf(log).Some? && PendingOf(log).value.key == key) ==>
                        Passed(CursorOf(log), key))
  }

  lemma StepKeepsBounded(log: Log, e: Event)
    requires Bounded(log) && Permitted(log, e)
    ensures Bounded(log + [e])
  {
    Stepped(log, e);
    var longer := log + [e];
    assert Last(longer) == e;
    if PendingOf(longer).Some? {
      var q := PendingOf(longer).value;
      assert Jobs(longer, q.key) == Jobs(log, q.key) + if JobFor(e, q.key) then 1 else 0;
    }
  }

  lemma {:induction false} LawfulIsBounded(log: Log)
    requires Lawful(log)
    ensures Bounded(log)
  {
    if log != [] {
      LawfulIsBounded(log[..|log| - 1]);
      StepKeepsBounded(log[..|log| - 1], Last(log));
      assert log == log[..|log| - 1] + [Last(log)];
    }
  }

  /** Over any crash schedule, a batch gets at most MAX_ATTEMPTS trading jobs. */
  lemma AtMostThreeJobs(log: Log, k: nat, key: nat)
    requires Lawful(log) && k <= |log|
    ensures Jobs(log[..k], key) <= MAX_ATTEMPTS
  {
    LawfulPrefix(log, k);
    LawfulIsBounded(log[..k]);
  }

  // ---------- an interrupted dispatch is resolved before the next ----------

  predicate RecordsFailure(log: Log, k: nat)
    requires k < |log|
  {
    && log[k].PendingSaved? && PendingOf(log[..k]).Some?
    && FailedAttempt(PendingOf(log[..k]).value, log[k].pending)
  }

  predicate Busy(log: Log, key: nat) {
    PendingOf(log).Some? && PendingOf(log).value.key == key && InFlight(PendingOf(log).value)
  }

  predicate Over(log: Log, key: nat) {
    Passed(CursorOf(log), key) &&
    (PendingOf(log).Some? && PendingOf(log).value.key == key ==> Terminal(PendingOf(log).value.status))
  }

  lemma StaysBusyOrOver(log: Log, e: Event, key: nat)
    requires Permitted(log, e) && (Busy(log, key) || Over(log, key))
    requires e.PendingSaved? && PendingOf(log).Some? ==> !FailedAttempt(PendingOf(log).value, e.pending)
    ensures Busy(log + [e], key) || Over(log + [e], key)
  {
    Stepped(log, e);
  }

  lemma {:induction false} BusyUntilFailure(log: Log, i: nat, k: nat, key: nat)
    requires Lawful(log) && i < k <= |log| && JobFor(log[i], key)
    requires forall m :: i < m < k ==> !RecordsFailure(log, m)
    ensures Busy(log[..k], key) || Over(log[..k], key)
    decreases k
  {
    LawfulAt(log, k - 1);
    if k - 1 == i {
      assert Last(log[..i]).pending == PendingOf(log[..i]).value;
      Stepped(log[..i], log[i]);
    } else {
      BusyUntilFailure(log, i, k - 1, key);
      assert !RecordsFailure(log, k - 1);
      StaysBusyOrOver(log[..k - 1], log[k - 1], key);
    }
  }

  /** A dispatch is never announced for a batch that is in flight or over. */
  lemma DispatchNeedsIdleBatch(log: Log, q: Pending)
    requires MaySave(log, q) && q.status.Dispatching? && q.job.None?
    ensures !Busy(log, q.key) && !Over(log, q.key)
  {
  }

  /** Between two jobs of one batch, a failed attempt was durably recorded. */
  lemma {:induction false} FailureRecordedBetweenJobs(log: Log, i: nat, j: nat, key: nat)
    requires Lawful(log) && i < j < |log| && JobFor(log[i], key) && JobFor(log[j], key)
    ensures exists k :: i < k < j && RecordsFailure(log, k)
  {
    hide Lawful, Busy, Over, RecordsFailure, MaySave, PendingOf, CursorOf;
    LawfulAt(log, j);
    assert Last(log[..j]) == log[j - 1];
    LawfulAt(log, j - 1);
    DispatchNeedsIdleBatch(log[..j - 1], log[j - 1].pending);
    if forall k :: i < k < j ==> !RecordsFailure(log, k) {
      BusyUntilFailure(log, i, j - 1, key);
    }
  }

  // ---------- ingress before trading ----------

  /** A re-send is made for an open job only. */
  lemma ResentIsOpen(log: Log)
    requires Lawful(log)
    ensures JustResent(log) == 1 ==>
              PendingOf(log).Some? && PendingOf(log).value.job.Some? && !Terminal(PendingOf(log).value.status)
  {
  }

  /** The record on disk remembers only rows that ingress accepted. */
  lemma {:induction false} RememberedWereIngested(log: Log, id: nat)
    requires Lawful(log) && PendingOf(log).Some? && id in PendingOf(log).value.ingested
    ensures RowIngested(id) in log
  {
    hide CursorOf, ChosenOf, QuarantineOf, Jobs, Succeeds, SuccessEvidence, Timed, Extent, OriginOf;
    var init, e := log[..|log| - 1], Last(log);
    assert log == init + [e];
    if e.PendingSaved? && !(PendingOf(init).Some? && id in PendingOf(init).value.ingested) {
      assert init[|init| - 1] == RowIngested(id);
    } else {
      RememberedWereIngested(init, id);
    }
  }

  /** No row reaches a trading job before the canonical ingress accepted it. */
  lemma IngestedBeforeJob(log: Log, i: nat, row: Row)
    requires Lawful(log) && i < |log| && log[i].JobCreated? && row in log[i].batch
    ensures RowIngested(row.id) in log[..i]
  {
    LawfulAt(log, i);
    RememberedWereIngested(log[..i], row.id);
  }

  // ---------- the cursor and success ----------

  /** Whatever was created, quarantined or settled, unless it was skipped, was sent with at least its first row. */
  ghost predicate Attended(log: Log) {
    && (forall key :: Jobs(log, key) > 0 || key in QuarantineOf(log) ==> Extent(log, key) > 0)
    && (PendingOf(log).Some? ==>
          var p := PendingOf(log).value;
          && (p.job.Some? || p.status.Succeeded? || p.status.Quarantined? ==> Extent(log, p.key) > 0)
          && (p.status.Quarantined? ==> p.key in QuarantineOf(log)))
    && (OriginOf(log).None? <==> ChosenOf(log).None?)
    && (ChosenOf(log).Some? ==> OriginOf(log).value <= ChosenOf(log).value)
    && (CursorOf(log).Some? ==> ChosenOf(log).Some? && ChosenOf(log).value <= CursorOf(log).value)
  }

  lemma {:induction false} LawfulIsAttended(log: Log)
    requires Lawful(log)
    ensures Attended(log)
  {
    if log != [] {
      LawfulIsAttended(log[..|log| - 1]);
      assert log == log[..|log| - 1] + [Last(log)];
      Stepped(log[..|log| - 1], Last(log));
    }
  }

  /**
   A batch commit passes only the batch of a record that is itself succeeded, skipped or quarantined, and starts from
   the durable cursor, or from the cursor in memory while there is none on disk.
   */
  lemma CursorPassesOnlySettledBatches(log: Log, i: nat)
    requires Lawful(log) && i < |log| && log[i].CursorSaved?
    ensures PendingOf(log[..i]).Some? && Terminal(PendingOf(log[..i]).value.status)
    ensures log[i].batch != [] && PendingOf(log[..i]).value.key == log[i].batch[0].id
    ensures Some(log[i].start) == if CursorOf(log[..i]).Some? then CursorOf(log[..i]) else ChosenOf(log[..i])
    ensures log[i].start < log[i].batch[0].id
    ensures !PendingOf(log[..i]).value.status.Skipped? ==> Extent(log[..i], log[i].batch[0].id) > 0
  {
    LawfulAt(log, i);
    LawfulIsAttended(log[..i]);
  }

  /** The cursor file is written a first time only once: from then on every move is a batch commit. */
  lemma {:induction false} InitializedOnce(log: Log, i: nat, j: nat)
    requires Lawful(log) && i < j < |log| && MovesCursor(log[i]) && MovesCursor(log[j])
    ensures log[j].CursorSaved?
  {
    LawfulAt(log, j);
    CursorStays(log, i, j);
  }

  lemma {:induction false} CursorStays(log: Log, i: nat, j: nat)
    requires i < j <= |log| && MovesCursor(log[i])
    ensures CursorOf(log[..j]).Some?
    decreases j
  {
    assert log[..j][..j - 1] == log[..j - 1];
    if i < j - 1 { CursorStays(log, i, j - 1); }
  }

  /** While there is no cursor file, everything that was done belongs to the one record on disk. */
  ghost predicate AllOfRecord(log: Log) {
    forall i :: 0 <= i < |log| && OfRecord(log[i]) ==> PendingOf(log).Some? && log[i].key == PendingOf(log).value.key
  }

  predicate OfRecord(e: Event) { e.JobCreated? || e.NoticeTried? || (e.QuarantineSaved? && |e.batch| > 1) }

  lemma {:induction false} RecordPersists(log: Log)
    requires Lawful(log) && CursorOf(log).None?
    ensures AllOfRecord(log)
  {
    if log != [] {
      var init, e := log[..|log| - 1], Last(log);
      RecordPersists(init);
      assert log == init + [e];
      Stepped(init, e);
      assert forall i :: 0 <= i < |init| ==> log[i] == init[i];
    }
  }

  // ---------- start-up reconciliation ----------

  /**
   A settled record whose own last row is the committed cursor, and whose quarantine entry, if it needs one, agrees.
   */
  predicate Reconcilable(log: Log) {
    && PendingOf(log).Some? && CursorOf(log) == Some(PendingOf(log).value.last) && Terminal(PendingOf(log).value.status)
    && !Disputed(log)
  }

  /**
   `reconcile_committed_pending` raises: a quarantined batch was committed, but the entry under its key does not cover
   it.
   */
  predicate Disputed(log: Log) {
    PendingOf(log).Some? &&
    var p := PendingOf(log).value;
    && p.status.Quarantined? && CursorOf(log) == Some(p.last)
    && !(p.key in QuarantineOf(log) && QuarantineOf(log)[p.key] == p.last)
  }

  /** The record's batch is behind the cursor and start-up will not remove it. */
  predicate Stuck(log: Log) {
    PendingOf(log).Some? && Passed(CursorOf(log), PendingOf(log).value.key) && !Reconcilable(log)
  }

  /**
   A committed record is left behind exactly when its batch had grown, or its quarantine entry covers another range.
   */
  lemma StuckExactly(log: Log)
    requires Lawful(log) && PendingOf(log).Some?
    requires Terminal(PendingOf(log).value.status) && Passed(CursorOf(log), PendingOf(log).value.key)
    ensures var p := PendingOf(log).value;
            && (p.status.Quarantined? ==> p.key in QuarantineOf(log))
            && (Stuck(log) <==> || CursorOf(log).value != p.last
                                || (p.status.Quarantined? && QuarantineOf(log)[p.key] != p.last))
  {
    LawfulIsAttended(log);
  }

  /** New quarantine entries do not help a stuck record. */
  lemma StuckSurvives(log: Log, e: Event)
    requires Lawful(log) && Stuck(log) && e.QuarantineSaved? && Permitted(log, e)
    ensures Stuck(log + [e]) && PendingOf(log + [e]) == PendingOf(log) && CursorOf(log + [e]) == CursorOf(log)
  {
    LawfulIsAttended(log);
    Stepped(log, e);
  }

  /** A durable success was preceded by a completed run that was delivered or re-sent. */
  lemma {:induction false} SuccessWasDelivered(log: Log) returns (i: nat)
    requires Lawful(log) && PendingOf(log).Some? && PendingOf(log).value.status.Succeeded?
    ensures i < |log| && PendingOf(log).value.job.Some? && SuccessEvidence(log[..i], PendingOf(log).value.job.value)
  {
    var before, e := log[..|log| - 1], Last(log);
    if e.PendingSaved? && !(PendingOf(before).Some? && PendingOf(before).value.status.Succeeded?) {
      i := |log| - 1;
    } else {
      i := SuccessWasDelivered(before);
      assert before[..i] == log[..i];
    }
  }
}
