/**
 The delivery half of the signal feeder, in legacy mode: `attempt_batch_delivery`, its helpers, the cursor
 commit and the start-up reconciliation.  Every durable step may raise before or after its effect.
 */
module Feeder {
  import opened Basics
  import opened Watcher
  import opened Batching
  import opened Delivery
  import opened Passing

  datatype Outcome = Success | Skip | QuarantinedBatch | StillPending | TryLater | Raised

  const BRAIN_RETRY_DELAY := 120.0
  const INGRESS_RETRY_DELAY := 15.0
  const DELIVERY_RETRY_DELAY := 30.0
  const UNCERTAIN_GRACE := 300.0

  function NewPending(key: nat, last: nat): Pending {
    Pending(key, last, None, Ready, 0, {}, 0.0, 0, false, false, false)
  }

  /** The outcomes after which the caller moves the cursor past the batch. */
  predicate Settles(o: Outcome) { o.Success? || o.Skip? || o.QuarantinedBatch? }

  /** A success whose channel context is still to be written is not complete. */
  predicate Complete(p: Pending) { p.status.Succeeded? ==> p.contextWritten }

  /** The record of p is settled on disk and complete. */
  predicate SettledAs(p: Pending, q: Option<Pending>) { Done(q) && q.value.key == p.key && q.value.last == p.last }

  /** The record is settled and nothing is left to do for it but to commit the cursor. */
  predicate Done(p: Option<Pending>) { p.Some? && Terminal(p.value.status) && Complete(p.value) }

  /**
   The cursor in memory is the one on disk, or the one taken without a file, or has left an uncommitted record behind.
   */
  predicate CursorKept(cursor: Option<nat>, saved: Option<nat>, chosen: Option<nat>, pending: Option<Pending>) {
    && (saved.Some? ==> cursor.Some? && saved.value <= cursor.value)
    && (cursor.Some? ==> chosen.Some?)
    && (cursor.Some? && cursor != (if saved.Some? then saved else chosen) ==> Behind(pending, cursor))
  }

  /** One more failed attempt is on record: a later retry, or a skip after the third. */
  predicate CountsFailure(attempts: nat, o: Outcome, q: Option<Pending>) {
    o == Raised ||
    (&& q.Some? && q.value.attempts == attempts + 1 && q.value.job.None?
     && if attempts + 1 < 3 then o == TryLater && q.value.status == Retry else o == Skip && q.value.status == Skipped)
  }

  /** The job stays observed as before. */
  predicate StaysOpen(attempts: nat, o: Outcome, q: Option<Pending>) {
    o == Raised || (o == StillPending && q.Some? && q.value.attempts == attempts && q.value.job.Some?)
  }

  /** What an answer from outside leads to, when the record had this many failed attempts before. */
  predicate Follows(e: Event, attempts: nat, o: Outcome, q: Option<Pending>) {
    match e
    case IngressRefused(_) =>
      o == Raised || (o == TryLater && q.Some? && q.value.status == IngressRetry && q.value.attempts == attempts)
    case Routed(routable) => if routable then o != QuarantinedBatch else o in {QuarantinedBatch, Raised}
    case JobLookup(LookupFailed) => o == StillPending && q.Some? && q.value.attempts == attempts &&
        q.value.status == Dispatching
    case JobLookup(NoSuchJob) => CountsFailure(attempts, o, q)
    case JobLookup(FoundJob(job)) =>
      o == Raised || (q.Some? && (q.value.job == Some(job) || q.value.attempts == attempts + 1))
    case AnswerRead(_, NoResponse) => StaysOpen(attempts, o, q)
    case AnswerRead(_, BrainFailure) => CountsFailure(attempts, o, q)
    case JobRead(_, RunFailed) => CountsFailure(attempts, o, q)
    case JobRead(_, RunOk(error, _)) =>
      o in {Success, Raised} || (error && o in {TryLater, StillPending} && q.Some? && q.value.attempts == attempts)
    case JobRead(_, _) => StaysOpen(attempts, o, q)
    case _ => true
  }

  function AttemptsOf(p: Option<Pending>): nat { if p.Some? then p.value.attempts else 0 }

  /** There is nothing to do now for the batch that starts at `key`. */
  predicate NothingDue(p: Option<Pending>, key: nat, now: real) {
    if p.None? then now < 0.0
    else || p.value.key != key || Terminal(p.value.status) || p.value.status == ManualReview || now < p.value.retryAfter
  }

  /**
   Delivery has gone as far as it can: no batch is due, or the next one was tried, since `was`, and is not settled.
   */
  ghost predicate Drained(table: Table, seen: nat, cursor: nat, now: real, batch: seq<Row>, o: Outcome, was: Log,
                          log: Log, pending: Option<Pending>)
    requires seen <= |table|
  {
    && Selected(Fetched(table, seen, cursor), now, batch)
    && (batch != [] ==>
          && (o == StillPending || o == TryLater)
          && Consequent(was, log, AttemptsOf(PendingOf(was)), o, pending)
          && (NothingDue(PendingOf(was), batch[0].id, now) || Ended(was, log)))
  }

  /** Everything that was read in this stretch of the log had its consequence. */
  ghost predicate Consequent(was: Log, now: Log, attempts: nat, o: Outcome, q: Option<Pending>) {
    was <= now && forall i :: |was| <= i < |now| ==> Follows(now[i], attempts, o, q)
  }

  /** The log went on without any answer from outside. */
  ghost predicate NothingRead(was: Log, now: Log) {
    was <= now && forall i :: |was| <= i < |now| ==> !Answers(now[i])
  }

  predicate Answers(e: Event) { e.IngressRefused? || e.Routed? || e.JobLookup? || e.AnswerRead? || e.JobRead? }

  /** An uncertain delivery is repeated at most once, a failed one at most three times. */
  predicate MayResend(p: Pending, origin: bool) { p.redeliveries < if origin then 1 else 3 }

  /** A delivery that failed again: later if it may be repeated and its failure is certain, else for manual review. */
  ghost predicate Unsent(p: Pending, origin: bool, now: real, was: Log, log: Log, q: Pending) {
    if !MayResend(p, origin) then
      q == p.(status := ManualReview, retryAfter := 0.0) && log == was + [PendingSaved(q)]
    else
      exists unsure ::
        && log == was + [Resent(false, unsure)] + [PendingSaved(q)]
        && q == (if origin || unsure || p.redeliveries + 1 >= 3
                 then p.(redeliveries := p.redeliveries + 1, status := ManualReview, retryAfter := 0.0)
                 else p.(redeliveries := p.redeliveries + 1, status := DeliveryRetry, retryAfter := now + 30.0))
  }

  /** The outcome says what the record says. */
  predicate Says(o: Outcome, q: Option<Pending>) {
    && (o == Success ==> q.Some? && q.value.status == Succeeded)
    && (o == Skip ==> q.Some? && q.value.status == Skipped)
    && (o == QuarantinedBatch ==> q.Some? && q.value.status == Quarantined)
  }

  lemma Exhausted(p: Pending, origin: bool, now: real, was: Log, log: Log, q: Pending)
    requires !MayResend(p, origin) && q == p.(status := ManualReview, retryAfter := 0.0)
    requires log == was + [PendingSaved(q)]
    ensures Unsent(p, origin, now, was, log, q)
  {
  }

  lemma UnsentBy(p: Pending, origin: bool, unsure: bool, now: real, was: Log, log: Log, q: Pending)
    requires MayResend(p, origin) && log == was + [Resent(false, unsure)] + [PendingSaved(q)]
    requires q == (if origin || unsure || p.redeliveries + 1 >= 3
                   then p.(redeliveries := p.redeliveries + 1, status := ManualReview, retryAfter := 0.0)
                   else p.(redeliveries := p.redeliveries + 1, status := DeliveryRetry, retryAfter := now + 30.0))
    ensures Unsent(p, origin, now, was, log, q)
  {
  }

  lemma ReadThen(was: Log, e: Event, now: Log, attempts: nat, o: Outcome, q: Option<Pending>)
    requires was + [e] <= now && Follows(e, attempts, o, q) && Consequent(was + [e], now, attempts, o, q)
    ensures Consequent(was, now, attempts, o, q)
  {
    hide Follows;
    assert now[|was|] == e;
  }

  lemma RaisedAtOnce(was: Log, e: Event, now: Log, attempts: nat, q: Option<Pending>)
    requires (now == was || now == was + [e]) && !e.JobLookup?
    ensures Consequent(was, now, attempts, Raised, q)
  {
  }

  lemma QuietlyOn(was: Log, now: Log, attempts: nat, o: Outcome, q: Option<Pending>)
    requires NothingRead(was, now)
    ensures Consequent(was, now, attempts, o, q)
  {
  }

  /** An attempt goes on until ingress, the routing, the scheduler or the job gives its answer. */
  predicate Ends(e: Event) { e.IngressRefused? || e == Routed(false) || e.JobLookup? || e.AnswerRead? }

  ghost predicate Ended(was: Log, now: Log) { exists i :: |was| <= i < |now| && Ends(now[i]) }

  lemma EndedLater(was: Log, mid: Log, now: Log)
    requires was <= mid <= now
    ensures Ended(was, mid) || Ended(mid, now) ==> Ended(was, now)
  {
    if Ended(was, mid) {
      var i :| |was| <= i < |mid| && Ends(mid[i]);
      assert Ends(now[i]);
    } else if Ended(mid, now) {
      var i :| |mid| <= i < |now| && Ends(now[i]);
    }
  }

  /** An answer sends and handles nothing. */
  lemma ReadFirst(was: Log, e: Event, now: Log)
    requires was + [e] <= now && e.AnswerRead?
    ensures NoJobs(was + [e], now) ==> NoJobs(was, now)
    ensures NothingSent(was + [e], now) ==> NothingSent(was, now)
    ensures NothingHandled(was + [e], now) ==> NothingHandled(was, now)
  {
    assert now[|was|] == e;
  }

  lemma EndedAt(was: Log, e: Event, now: Log)
    requires was + [e] <= now && Ends(e)
    ensures Ended(was, now)
  {
    assert now[|was|] == e;
  }

  /** A job for this batch was asked for. */
  ghost predicate Asked(was: Log, now: Log, key: nat, batch: seq<Row>) {
    exists i :: |was| <= i < |now| && (now[i] == JobCreated(key, batch) || now[i] == JobRefused(key))
  }

  lemma AskedLater(was: Log, mid: Log, now: Log, key: nat, batch: seq<Row>)
    requires was <= mid <= now && Asked(mid, now, key, batch)
    ensures Asked(was, now, key, batch)
  {
  }

  /** The log went on only with ingested rows and saves of the record. */
  ghost predicate OnlyIngress(was: Log, now: Log) {
    was <= now && forall i :: |was| <= i < |now| ==> now[i].RowIngested? || now[i].PendingSaved?
  }

  lemma OnlyIngressMeans(was: Log, now: Log)
    requires OnlyIngress(was, now)
    ensures NoJobs(was, now) && NothingHandled(was, now) && NothingRead(was, now)
  {
  }

  lemma StillIngress(first: Log, was: Log, now: Log, attempts: nat, o: Outcome, q: Option<Pending>)
    requires NothingRead(first, was) && was <= now && Consequent(was, now, attempts, o, q)
    ensures Consequent(first, now, attempts, o, q)
  {
    hide Follows;
    assert forall i :: |first| <= i < |was| ==> now[i] == was[i];
    forall i | |first| <= i < |was| ensures Follows(now[i], attempts, o, q) { Unanswered(now[i], attempts, o, q); }
  }

  lemma Unanswered(e: Event, attempts: nat, o: Outcome, q: Option<Pending>)
    requires !Answers(e)
    ensures Follows(e, attempts, o, q)
  {
  }

  /**
   How a process start ends: StartRefused is the reconciliation's own error, StartRaised a failed removal of the record.
   */
  datatype StartUp = Started | StartRefused | StartRaised

  class SignalFeeder {
    const table: Table
    var log: Log
    var pending: Option<Pending>
    var saved: Option<nat>
    var quarantine: map<nat, nat>
    /** The cursor held in memory; a failed save can leave it ahead of the file. */
    var cursor: Option<nat>
    /** How many rows the table has so far. */
    var seen: nat
    /** How many steps have raised. */
    var faults: nat

    ghost predicate Valid()
      reads this
    {
      && Ordered(table) && Lawful(log)
      && pending == PendingOf(log) && saved == CursorOf(log) && quarantine == QuarantineOf(log)
      && (pending.Some? ==> Accounted(log, pending.value))
      && CursorKept(cursor, saved, ChosenOf(log), pending)
      && seen <= |table| && (pending.Some? ==> KeySeen(table, seen, pending.value.key))
      && Fits(table, seen, log) && Commits(table, log)
    }

    constructor (table: Table)
      requires Ordered(table)
      ensures Valid() && this.table == table && log == [] && cursor == None && seen == 0
    {
      this.table, log, pending, saved, quarantine, cursor, seen := table, [], None, None, map[], None, 0;
      faults := 0;
    }

    /** A process that runs on what an earlier one left on disk. */
    constructor Resume(table: Table, seen: nat, log: Log)
      requires Ordered(table) && Lawful(log) && seen <= |table| && Fits(table, seen, log) && Commits(table, log)
      ensures Valid() && this.table == table && this.log == log && this.seen == seen
      ensures pending == PendingOf(log) && cursor == saved == CursorOf(log) && quarantine == QuarantineOf(log)
    {
      this.table, this.log, this.seen := table, log, seen;
      pending, saved, quarantine, cursor := PendingOf(log), CursorOf(log), QuarantineOf(log), CursorOf(log);
      faults := 0;
      if PendingOf(log).Some? {
        AccountedAfter(log);
        PendingSeen(table, seen, log);
      }
      LawfulIsAttended(log);
    }

    /** One durable step; it may raise before or after its effect. */
    method Do(e: Event) returns (ok: bool)
      requires Valid() && Permitted(log, e) && !e.CursorChosen?
      requires MovesCursor(e) ==> cursor == Some(NewCursor(e)) && e.seen == seen
      requires e.PendingCleared? ==> cursor == saved
      requires EventFits(table, seen, e)
      requires e.CursorSaved? ==> Chosen(table, seen, e.start, e.batch)
      modifies this`log, this`pending, this`saved, this`quarantine, this`faults
      ensures Valid() && (log == old(log) || log == old(log) + [e]) && (ok ==> log == old(log) + [e])
      ensures faults == old(faults) + if ok then 0 else 1
      ensures log == old(log) ==> pending == old(pending) && saved == old(saved) && quarantine == old(quarantine)
      ensures log != old(log) ==>
                && pending == (if e.PendingSaved? then Some(e.pending) else if e.PendingCleared? then None
                               else old(pending))
                && saved == (if MovesCursor(e) then Some(NewCursor(e)) else old(saved))
                && quarantine == (if e.QuarantineSaved? then old(quarantine)[e.key := LastId(e.batch)]
                                  else old(quarantine))
      ensures !e.PendingSaved? && !e.PendingCleared? ==> pending == old(pending)
      ensures !MovesCursor(e) ==> saved == old(saved)
      ensures !e.QuarantineSaved? ==> quarantine == old(quarantine)
    {
      ok := *;
      var reached: bool := *;
      if ok || reached { Record(e); }
      if !ok { faults := faults + 1; }
    }

    /** One step that happens. */
    method Record(e: Event)
      requires Valid() && Permitted(log, e) && !e.CursorChosen?
      requires MovesCursor(e) ==> cursor == Some(NewCursor(e)) && e.seen == seen
      requires e.PendingCleared? ==> cursor == saved
      requires EventFits(table, seen, e)
      requires e.CursorSaved? ==> Chosen(table, seen, e.start, e.batch)
      modifies this`log, this`pending, this`saved, this`quarantine
      ensures Valid() && log == old(log) + [e]
      ensures pending == (if e.PendingSaved? then Some(e.pending) else if e.PendingCleared? then None else old(pending))
      ensures saved == (if MovesCursor(e) then Some(NewCursor(e)) else old(saved))
      ensures quarantine == (if e.QuarantineSaved? then old(quarantine)[e.key := LastId(e.batch)] else old(quarantine))
    {
      hide CursorOf, ChosenOf, PendingOf, QuarantineOf, Jobs, Extent, Lawful, Accounted, Ordered, Fits, Commits, MoveOk,
           OfTable, Chosen, Permitted, CursorKept, EventFits, KeySeen, OriginOf;
      Stepped(log, e);
      StepKeepsCursor(log, e, cursor);
      FitsStep(table, seen, log, e);
      if MovesCursor(e) { MoveIsOk(table, log, e); }
      CommitsStep(table, log, e);
      if PendingOf(log + [e]).Some? {
        AccountedAfter(log + [e]);
        PendingSeen(table, seen, log + [e]);
      }
      log := log + [e];
      if e.PendingSaved? { pending := Some(e.pending); }
      if e.PendingCleared? { pending := None; }
      if MovesCursor(e) { saved := Some(NewCursor(e)); }
      if e.QuarantineSaved? { quarantine := quarantine[e.key := LastId(e.batch)]; }
    }

    /** `save_pending_delivery`. */
    method Save(q: Pending) returns (ok: bool)
      requires Valid() && MaySave(log, q) && KeySeen(table, seen, q.key)
      modifies this`log, this`pending, this`saved, this`quarantine, this`faults
      ensures Valid() && saved == old(saved) && quarantine == old(quarantine)
      ensures log == old(log) || log == old(log) + [PendingSaved(q)]
      ensures ok ==> pending == Some(q) && log == old(log) + [PendingSaved(q)]
      ensures faults == old(faults) + if ok then 0 else 1
    {
      ok := Do(PendingSaved(q));
    }

    /** The channel context of a delivered batch; writing it may raise. */
    method WriteContext(key: nat) returns (ok: bool)
      requires Valid()
      modifies this`log, this`pending, this`saved, this`quarantine, this`faults
      ensures Valid() && pending == old(pending) && saved == old(saved) && quarantine == old(quarantine)
      ensures log == old(log) || log == old(log) + [ContextWritten(key)]
      ensures (ok ==> log == old(log) + [ContextWritten(key)]) && faults == old(faults) + if ok then 0 else 1
    {
      hide Lawful, PendingOf, CursorOf, ChosenOf, QuarantineOf, Jobs, Fits, Commits, Ordered, OfTable, Extent,
           CursorKept;
      ok := Do(ContextWritten(key));
    }

    /** `_record_delivery_failure`; the announcements of a skip are best effort. */
    method RecordFailure(p: Pending, batch: seq<Row>, now: real) returns (o: Outcome)
      requires Valid() && pending == Some(p) && InFlight(p) && !Terminal(p.status)
      requires JustResent(log) == 0
      requires InHand(table, seen, batch, p.key)
      modifies this`log, this`pending, this`saved, this`quarantine, this`faults
      ensures Valid() && saved == old(saved) && NoJobs(old(log), log) && NothingSent(old(log), log)
      ensures if o == Skip then AllTried(log, p.key, batch) else o == TryLater ==> NothingHandled(old(log), log)
      ensures o == Raised || (&& pending.Some? && FailedAttempt(p, pending.value)
                              && pending.value.key == p.key && pending.value.last == p.last)
      ensures CountsFailure(p.attempts, o, pending) && NothingRead(old(log), log)
      ensures Says(o, pending) && (o == Skip ==> SettledAs(p, pending))
      ensures o != Raised ==> pending.Some? && pending.value.attempts == p.attempts + 1
      ensures o == TryLater ==> pending.value.retryAfter == now + 120.0 * (p.attempts + 1) as real
      ensures o in {TryLater, Skip, Raised}
      ensures o == Raised <==> faults != old(faults)
    {
      hide Lawful, PendingOf, CursorOf, ChosenOf, QuarantineOf, Jobs, Fits, Commits, Ordered, OfTable, Extent,
           CursorKept;
      var attempts := p.attempts + 1;
      var q := p.(attempts := attempts, job := None);
      if attempts < MAX_ATTEMPTS {
        var ok := Save(q.(status := Retry, retryAfter := now + BRAIN_RETRY_DELAY * attempts as real));
        return if ok then TryLater else Raised;
      }
      for i := 0 to |batch|
        invariant Valid() && pending == Some(p) && saved == old(saved) && NoJobs(old(log), log) &&
                  NothingSent(old(log), log)
        invariant JustResent(log) == 0 && faults == old(faults)
        invariant AllTried(log, p.key, batch[..i]) && NothingRead(old(log), log)
      {
        var sent: bool := *;
        ghost var was := log;
        Record(NoticeTried(p.key, batch[i], sent));
        OneMoreTried(was, p.key, batch, i, sent);
      }
      assert batch[..|batch|] == batch;
      var ok := Save(q.(status := Skipped, retryAfter := 0.0));
      o := if ok then Skip else Raised;
    }

    /** The delivery verdict on a job whose run completed: `_confirm_job_delivery` after the status checks. */
    method DeliverAnswer(p: Pending, now: real, error: bool, uncertain: bool) returns (o: Outcome)
      requires Valid() && pending == Some(p) && p.job.Some? && !Terminal(p.status)
      requires log != [] && Last(log) == JobRead(p.job.value, RunOk(error, uncertain))
      modifies this`log, this`pending, this`saved, this`quarantine, this`faults
      ensures Valid() && saved == old(saved) && NoJobs(old(log), log) && NothingHandled(old(log), log)
      ensures o == Success ==> SettledAs(p, pending) && pending.value.status == Succeeded
      ensures o in {Success, TryLater, StillPending, Raised} && (!error ==> o in {Success, Raised})
      ensures NothingRead(old(log), log) && (o != Raised ==> pending.Some? && pending.value.attempts == p.attempts)
      ensures (o == StillPending ==> pending.value.status == ManualReview) && Says(o, pending)
      ensures o != Raised ==> pending.value.job == p.job
      ensures error && uncertain && !p.uncertainSeen ==>
                && o in {TryLater, Raised} && (forall i :: |old(log)| <= i < |log| ==> !log[i].Resent?)
                && (o == TryLater ==> pending == Some(p.(status := DeliveryUncertain, originUncertain := true,
                                                         uncertainSeen := true, retryAfter := now + 300.0)))
      ensures error && !(uncertain && !p.uncertainSeen) ==>
                && (o == Success ==>
                      |log| > |old(log)| && log[|old(log)|].Resent? && log[|old(log)|].delivered &&
                      MayResend(p, p.originUncertain || uncertain))
                && (o in {TryLater, StillPending} ==>
                     Unsent(p, p.originUncertain || uncertain, now, old(log), log, pending.value))
      ensures o == Raised <==> faults != old(faults)
      ensures o == Success ==> pending.value.redeliveries == p.redeliveries + if error then 1 else 0
    {
      hide Lawful, PendingOf, CursorOf, ChosenOf, QuarantineOf, Jobs, Fits, Commits, Ordered, OfTable, Extent,
           CursorKept, Unsent, KeySeen;
      var q := p;
      if error {
        var origin := p.originUncertain || uncertain;
        if uncertain && !p.uncertainSeen {
          var ok := Save(p.(status := DeliveryUncertain, originUncertain := true, uncertainSeen := true,
                            retryAfter := now + UNCERTAIN_GRACE));
          return if ok then TryLater else Raised;
        }
        var delivered;
        delivered, o := Redeliver(p, now, origin);
        if !delivered { return; }
        q := p.(redeliveries := p.redeliveries + 1);
      }
      o := RecordSuccess(q);
    }

    /** A re-send of the answer, within its limit; delivered is the only outcome that goes on. */
    method Redeliver(p: Pending, now: real, origin: bool) returns (delivered: bool, o: Outcome)
      requires Valid() && pending == Some(p) && p.job.Some? && !Terminal(p.status)
      requires JustResent(log) == 0
      modifies this`log, this`pending, this`saved, this`quarantine, this`faults
      ensures Valid() && saved == old(saved) && NoJobs(old(log), log) && NothingHandled(old(log), log)
      ensures delivered ==> pending == Some(p) && exists unsure :: log == old(log) + [Resent(true, unsure)]
      ensures delivered ==> MayResend(p, origin)
      ensures NothingRead(old(log), log)
      ensures !delivered ==> o in {TryLater, StillPending, Raised}
      ensures !delivered && o != Raised ==>
                && pending.Some? && Unsent(p, origin, now, old(log), log, pending.value)
                && (o == StillPending <==> pending.value.status == ManualReview)
                && pending.value.attempts == p.attempts && pending.value.job == p.job
      ensures if delivered then faults == old(faults) else (o == Raised <==> faults != old(faults))
    {
      hide Lawful, PendingOf, CursorOf, ChosenOf, QuarantineOf, Jobs, Fits, Commits, Ordered, OfTable, Extent,
           CursorKept, Unsent;
      delivered, o := false, Raised;
      var limit := if origin then 1 else MAX_REDELIVERIES;
      if p.redeliveries >= limit {
        var ok := Save(p.(status := ManualReview, retryAfter := 0.0));
        if ok { Exhausted(p, origin, now, old(log), log, pending.value); }
        return false, if ok then StillPending else Raised;
      }
      var unsure: bool;
      delivered, unsure := *, *;
      var ok := Do(Resent(delivered, unsure));
      if !ok { return false, Raised; }
      if delivered { return; }
      o := PutOff(p, now, origin || unsure || p.redeliveries + 1 >= limit);
      if o != Raised { UnsentBy(p, origin, unsure, now, old(log), log, pending.value); }
    }

    /** A re-send that failed: for manual review, or for another try. */
    method PutOff(p: Pending, now: real, review: bool) returns (o: Outcome)
      requires Valid() && pending == Some(p) && p.job.Some? && !Terminal(p.status) && JustResent(log) == 1
      modifies this`log, this`pending, this`saved, this`quarantine, this`faults
      ensures Valid() && saved == old(saved) && o in {StillPending, TryLater, Raised}
      ensures var q := p.(redeliveries := p.redeliveries + 1);
              var r := if review then q.(status := ManualReview, retryAfter := 0.0)
                       else q.(status := DeliveryRetry, retryAfter := now + 30.0);
              && (log == old(log) || log == old(log) + [PendingSaved(r)])
              && (o != Raised ==> pending == Some(r) && log == old(log) + [PendingSaved(r)])
      ensures (o == StillPending ==> review) && (o == TryLater ==> !review) && (o == Raised <==> faults != old(faults))
    {
      hide Lawful, PendingOf, CursorOf, ChosenOf, QuarantineOf, Jobs, Fits, Commits, Ordered, OfTable, Extent,
           CursorKept;
      var q := p.(redeliveries := p.redeliveries + 1);
      if review {
        var ok := Save(q.(status := ManualReview, retryAfter := 0.0));
        return if ok then StillPending else Raised;
      }
      var ok := Save(q.(status := DeliveryRetry, retryAfter := now + DELIVERY_RETRY_DELAY));
      o := if ok then TryLater else Raised;
    }

    /** `_record_delivery_success`: the success is durable before the channel context is written. */
    method RecordSuccess(q: Pending) returns (o: Outcome)
      requires Valid() && MaySave(log, q.(status := Succeeded, retryAfter := 0.0)) && q.job.Some?
      modifies this`log, this`pending, this`saved, this`quarantine, this`faults
      ensures Valid() && saved == old(saved)
      ensures o == Success ==>
                && SettledAs(q, pending) && pending.value.status == Succeeded && pending.value.job == q.job
                && pending.value.redeliveries == q.redeliveries && pending.value.attempts == q.attempts
      ensures o in {Success, Raised} && NoJobs(old(log), log) && NothingHandled(old(log), log)
      ensures NothingRead(old(log), log) && forall i :: |old(log)| <= i < |log| ==>
                                                    log[i].PendingSaved? || log[i].ContextWritten?
      ensures o == Raised <==> faults != old(faults)
    {
      hide Lawful, CursorOf, ChosenOf, QuarantineOf, Jobs, Fits, Commits, Ordered, OfTable, Extent, CursorKept;
      var done := q.(status := Succeeded, retryAfter := 0.0);
      var ok := Save(done);
      if !ok { return Raised; }
      if !done.contextWritten {
        ok := WriteContext(q.key);
        if !ok { return Raised; }
        ok := Save(done.(contextWritten := true));
        if !ok { return Raised; }
      }
      o := Success;
    }

    /** A recorded success whose channel context may still be missing. */
    method CompleteSuccess(p: Pending) returns (o: Outcome)
      requires Valid() && pending == Some(p) && p.status == Succeeded
      modifies this`log, this`pending, this`saved, this`quarantine, this`faults
      ensures Valid() && saved == old(saved) && o in {Success, Raised}
      ensures o == Success ==> pending == Some(p.(contextWritten := true))
      ensures p.contextWritten ==> o == Success && log == old(log) && pending == old(pending)
      ensures o == Success && !p.contextWritten ==>
                |log| > |old(log)| && log[|old(log)|] == ContextWritten(p.key)
      ensures NoJobs(old(log), log) && NothingHandled(old(log), log) && NothingRead(old(log), log)
      ensures Consequent(old(log), log, p.attempts, o, pending) && (o == Raised <==> faults != old(faults))
    {
      hide Lawful, PendingOf, CursorOf, ChosenOf, QuarantineOf, Jobs, Fits, Commits, Ordered, OfTable, Extent,
           CursorKept;
      if !p.contextWritten {
        ResentIsOpen(log);
        var ok := WriteContext(p.key);
        if !ok { return Raised; }
        ok := Save(p.(contextWritten := true));
        if !ok { return Raised; }
      }
      o := Success;
    }

    /** Observe a created job: no answer yet, a brain failure, or an answer to confirm. */
    method ObserveJob(p: Pending, batch: seq<Row>, now: real) returns (o: Outcome)
      requires Valid() && pending == Some(p) && p.job.Some? && !Terminal(p.status)
      requires InHand(table, seen, batch, p.key)
      modifies this`log, this`pending, this`saved, this`quarantine, this`faults
      ensures Valid() && saved == old(saved) && NoJobs(old(log), log)
      ensures o in {Success, Skip, TryLater, StillPending, Raised}
      ensures NothingSent(old(log), log) && (o == Skip ==> AllTried(log, p.key, batch))
      ensures o == Success ==>
                NothingHandled(old(log), log) && SettledAs(p, pending) &&
                pending.value.status == Succeeded
      ensures Settles(o) ==> SettledAs(p, pending)
      ensures Consequent(old(log), log, p.attempts, o, pending) && Says(o, pending)
      ensures o == Raised || (|log| > |old(log)| && log[|old(log)|].AnswerRead? && log[|old(log)|].job == p.job.value)
      ensures o != Raised && log[|old(log)|].response == Answer ==>
                |log| > |old(log)| + 1 && log[|old(log)| + 1].JobRead? && log[|old(log)| + 1].job == p.job.value
      ensures o == StillPending ==> pending == Some(p) || (pending.Some? && pending.value.status == ManualReview)
      ensures o != Raised ==> pending.Some? && (pending.value.job == p.job || pending.value.attempts == p.attempts + 1)
      ensures o == Raised <==> faults != old(faults)
      ensures o != Raised ==> Ended(old(log), log)
    {
      hide SignalFeeder.Valid, InHand, Unsent, AllTried, CountsFailure, Ended, NoJobs, NothingSent, NothingHandled;
      var response: Response := *;
      ghost var e := AnswerRead(p.job.value, response);
      var read := ReadAnswer(p.job.value, response);
      if !read { return Raised; }
      ghost var was := log;
      match response {
        case NoResponse => o := StillPending;
        case BrainFailure => o := RecordFailure(p, batch, now);
        case Answer => o := ConfirmJob(p, batch, now);
      }
      if response != Answer { QuietlyOn(was, log, p.attempts, o, pending); }
      ReadThen(old(log), e, log, p.attempts, o, pending);
      EndedAt(old(log), e, log);
      ReadFirst(old(log), e, log);
    }

    /** What is read of the job's answer. */
    method ReadAnswer(job: nat, response: Response) returns (ok: bool)
      requires Valid()
      modifies this`log, this`pending, this`saved, this`quarantine, this`faults
      ensures Valid() && saved == old(saved) && pending == old(pending) && quarantine == old(quarantine)
      ensures faults == old(faults) + if ok then 0 else 1
      ensures log == old(log) || log == old(log) + [AnswerRead(job, response)]
      ensures ok ==> log == old(log) + [AnswerRead(job, response)] && JustResent(log) == 0
      ensures NoJobs(old(log), log) && NothingHandled(old(log), log) && NothingSent(old(log), log)
      ensures forall attempts, q :: Consequent(old(log), log, attempts, Raised, q)
    {
      hide Lawful, PendingOf, CursorOf, ChosenOf, QuarantineOf, Jobs, Fits, Commits, Ordered, OfTable, Extent,
           CursorKept;
      ok := Do(AnswerRead(job, response));
    }

    /** `_confirm_job_delivery`: the retained job record decides. */
    method ConfirmJob(p: Pending, batch: seq<Row>, now: real) returns (o: Outcome)
      requires Valid() && pending == Some(p) && p.job.Some? && !Terminal(p.status)
      requires InHand(table, seen, batch, p.key)
      modifies this`log, this`pending, this`saved, this`quarantine, this`faults
      ensures Valid() && saved == old(saved) && NoJobs(old(log), log)
      ensures o in {Success, Skip, TryLater, StillPending, Raised}
      ensures NothingSent(old(log), log) && (o == Skip ==> AllTried(log, p.key, batch))
      ensures o == Success ==> NothingHandled(old(log), log)
      ensures Settles(o) ==> SettledAs(p, pending)
      ensures Consequent(old(log), log, p.attempts, o, pending) && Says(o, pending)
      ensures o == Raised || (|log| > |old(log)| && log[|old(log)|].JobRead? && log[|old(log)|].job == p.job.value)
      ensures o == StillPending ==> pending == Some(p) || (pending.Some? && pending.value.status == ManualReview)
      ensures o != Raised ==> pending.Some? && (pending.value.job == p.job || pending.value.attempts == p.attempts + 1)
      ensures o == Raised <==> faults != old(faults)
    {
      hide Lawful, PendingOf, CursorOf, ChosenOf, QuarantineOf, Jobs, Fits, Commits, Ordered, OfTable, Extent,
           CursorKept, Unsent, AllTried, CountsFailure;
      var status: JobStatus := *;
      ghost var e := JobRead(p.job.value, status);
      var ok := Do(JobRead(p.job.value, status));
      if !ok {
        RaisedAtOnce(old(log), e, log, p.attempts, pending);
        return Raised;
      }
      ghost var was := log;
      match status {
        case RunFailed => o := RecordFailure(p, batch, now);
        case RunOk(error, uncertain) => o := DeliverAnswer(p, now, error, uncertain);
        case _ => o := StillPending;
      }
      QuietlyOn(was, log, p.attempts, o, pending);
      ReadThen(old(log), e, log, p.attempts, o, pending);
    }

    /** `find_existing_cron_job`: the scheduler knows only jobs that were created. */
    method LookUpJob(key: nat) returns (answer: Lookup)
      requires Valid()
      modifies this`log, this`pending, this`saved, this`quarantine
      ensures Valid() && pending == old(pending) && saved == old(saved) && quarantine == old(quarantine)
      ensures log == old(log) + [JobLookup(answer)]
      ensures answer.FoundJob? ==> Jobs(old(log), key) > 0 && Jobs(log, key) > 0
    {
      hide Lawful, PendingOf, CursorOf, ChosenOf, QuarantineOf, Fits, Commits, Ordered, OfTable, Extent, CursorKept;
      answer := *;
      if answer.FoundJob? && Jobs(log, key) == 0 { answer := NoSuchJob; }
      Record(JobLookup(answer));
      JobsKept(old(log), log, key);
    }

    /** A job that is known by its ID is observed from now on. */
    method NoteJob(p: Pending, job: nat) returns (q: Pending, ok: bool)
      requires Valid() && pending == Some(p) && p.status == Dispatching && p.job.None?
      requires Jobs(log, p.key) > 0 && JustResent(log) == 0
      modifies this`log, this`pending, this`saved, this`quarantine, this`faults
      ensures Valid() && saved == old(saved) && quarantine == old(quarantine)
      ensures q == p.(job := Some(job), status := Observing, retryAfter := 0.0)
      ensures log == old(log) || log == old(log) + [PendingSaved(q)]
      ensures ok ==> pending == Some(q) && log == old(log) + [PendingSaved(q)]
      ensures faults == old(faults) + if ok then 0 else 1
    {
      hide Lawful, CursorOf, ChosenOf, QuarantineOf, Jobs, Fits, Commits, Ordered, OfTable, Extent, CursorKept;
      q := p.(job := Some(job), status := Observing, retryAfter := 0.0);
      ok := Save(q);
    }

    /**
     `_recover_uncertain_dispatch`: a dispatch without a known job is looked up by name before anything else.
     */
    method RecoverUncertainDispatch(p: Pending, batch: seq<Row>, now: real) returns (found: Option<Pending>, o: Outcome)
      requires Valid() && pending == Some(p) && p.status == Dispatching && p.job.None?
      requires InHand(table, seen, batch, p.key)
      modifies this`log, this`pending, this`saved, this`quarantine, this`faults
      ensures Valid() && saved == old(saved) && NoJobs(old(log), log)
      ensures NothingSent(old(log), log) && (found.Some? ==> NothingHandled(old(log), log))
      ensures found.None? && o == Skip ==> AllTried(log, p.key, batch)
      ensures found.Some? ==>
                && pending == found && found.value.job.Some? && found.value.status == Observing
                && found.value.key == p.key && found.value.last == p.last && Jobs(old(log), p.key) > 0
      ensures found.None? && Settles(o) ==> SettledAs(p, pending)
      ensures found.None? ==> o in {StillPending, TryLater, Skip, Raised}
      ensures |log| > |old(log)| && log[|old(log)|].JobLookup?
      ensures forall i :: |old(log)| < i < |log| ==> !Answers(log[i])
      ensures if found.Some? then log[|old(log)|].answer == FoundJob(found.value.job.value) &&
              found.value.attempts == p.attempts
              else Follows(log[|old(log)|], p.attempts, o, pending) && Says(o, pending)
      ensures if found.Some? then faults == old(faults) else (o == Raised <==> faults != old(faults))
    {
      hide Lawful, PendingOf, CursorOf, ChosenOf, QuarantineOf, Fits, Commits, Ordered, OfTable, Extent, CursorKept,
           CountsFailure, AllTried, Jobs;
      found, o := None, StillPending;
      var answer := LookUpJob(p.key);
      if answer.LookupFailed? { return; }
      if answer.NoSuchJob? {
        o := RecordFailure(p, batch, now);
        return;
      }
      var q, ok := NoteJob(p, answer.job);
      if ok { found := Some(q); } else { o := Raised; }
    }

    /** An announced dispatch without a known job: look it up, and observe it if there is one. */
    method ResumeDispatch(p: Pending, batch: seq<Row>, now: real) returns (o: Outcome)
      requires Valid() && pending == Some(p) && p.status == Dispatching && p.job.None?
      requires InHand(table, seen, batch, p.key)
      modifies this`log, this`pending, this`saved, this`quarantine, this`faults
      ensures Valid() && saved == old(saved) && NoJobs(old(log), log) && NothingSent(old(log), log)
      ensures o in {Success, Skip, TryLater, StillPending, Raised} && (Settles(o) ==> SettledAs(p, pending))
      ensures o == Skip ==> AllTried(log, p.key, batch)
      ensures o == Success ==> NothingHandled(old(log), log) && Jobs(old(log), p.key) > 0
      ensures Consequent(old(log), log, p.attempts, o, pending) && Says(o, pending) && log != old(log)
      ensures o == Raised <==> faults != old(faults)
      ensures Ended(old(log), log)
    {
      hide SignalFeeder.Valid, InHand, Jobs, AllTried, CountsFailure, StaysOpen, Done;
      var found;
      found, o := RecoverUncertainDispatch(p, batch, now);
      ghost var was := log;
      assert Ends(log[|old(log)|]);
      if found.Some? { o := ObserveJob(found.value, batch, now); }
      EndedLater(old(log), was, log);
    }

    /** In-memory work on a batch whose durable record, if any, has nothing in flight. */
    ghost predicate Preparing(p: Pending)
      reads this
    {
      && p.key <= p.last && p.attempts < MAX_ATTEMPTS && !InFlight(p) && !Terminal(p.status)
      && seen <= |table| && KeySeen(table, seen, p.key)
      && (pending.None? ==>
            && !Passed(saved, p.key) && p.attempts == p.redeliveries == 0 && p.ingested == {} && !p.contextWritten)
      && (pending.Some? ==>
            && p == pending.value.(status := p.status, job := p.job, retryAfter := p.retryAfter)
            && !InFlight(pending.value) && !Terminal(pending.value.status))
    }

    /** `_ensure_canonical_ingress`. */
    method EnsureIngress(p0: Pending, batch: seq<Row>, now: real) returns (p: Pending, o: Outcome)
      requires Valid() && Preparing(p0)
      modifies this`log, this`pending, this`saved, this`quarantine, this`faults
      ensures Valid() && saved == old(saved) && o in {Success, TryLater, Raised}
      ensures NoJobs(old(log), log) && NothingHandled(old(log), log) && quarantine == old(quarantine)
      ensures o == Success ==> pending == Some(p) && p.attempts == p0.attempts && p.status == Ready && log != old(log)
      ensures Consequent(old(log), log, p0.attempts, if o == Success then Raised else o, pending)
      ensures o == TryLater ==>
                pending.Some? && pending.value.status == IngressRetry &&
                pending.value.retryAfter == now + 15.0
      ensures (o == Success ==> NothingRead(old(log), log)) && (o != Raised ==> log != old(log))
      ensures o == Success ==> forall i :: 0 <= i < |batch| ==>
                               batch[i].id in p0.ingested || RowIngested(batch[i].id) in log
      ensures o == Success ==> Preparing(p) && p.key == p0.key && p.last == p0.last &&
                               forall i :: 0 <= i < |batch| ==> batch[i].id in p.ingested
      ensures o == Raised <==> faults != old(faults)
      ensures o == TryLater ==> Ended(old(log), log)
    {
      hide Lawful, PendingOf, CursorOf, ChosenOf, QuarantineOf, Jobs, Fits, Commits, Ordered, OfTable, Extent,
           CursorKept;
      p, o := p0, Raised;
      for i := 0 to |batch|
        invariant Valid() && Preparing(p) && saved == old(saved) && p.key == p0.key && p.last == p0.last
        invariant OnlyIngress(old(log), log) && quarantine == old(quarantine) && p.attempts == p0.attempts
        invariant forall k :: 0 <= k < i ==> batch[k].id in p.ingested
        invariant forall id :: id in p.ingested ==> id in p0.ingested || RowIngested(id) in log
        invariant faults == old(faults)
      {
        if batch[i].id in p.ingested { continue; }
        ghost var was := log;
        p, o := IngestRow(p, batch[i].id, now);
        if o != Success {
          OnlyIngressMeans(old(log), was);
          EndedLater(old(log), was, log);
          StillIngress(old(log), was, log, p0.attempts, o, pending);
          return;
        }
      }
      ResentIsOpen(log);
      p := p.(status := Ready, retryAfter := 0.0);
      var ok := Save(p);
      OnlyIngressMeans(old(log), log);
      o := if ok then Success else Raised;
    }

    /** The ingress of one row: accepted and remembered before the next, or put off. */
    method IngestRow(p0: Pending, row: nat, now: real) returns (p: Pending, o: Outcome)
      requires Valid() && Preparing(p0) && row !in p0.ingested
      modifies this`log, this`pending, this`saved, this`quarantine, this`faults
      ensures Valid() && saved == old(saved) && o in {Success, TryLater, Raised} && quarantine == old(quarantine)
      ensures NoJobs(old(log), log) && NothingHandled(old(log), log)
      ensures o == Success ==>
                && p == p0.(ingested := p0.ingested + {row}, status := Ready, retryAfter := 0.0) && pending == Some(p)
                && log == old(log) + [RowIngested(row)] + [PendingSaved(p)]
      ensures o == TryLater ==>
                pending == Some(p0.(status := IngressRetry, retryAfter := now + 15.0)) &&
                log != old(log)
      ensures o != Success ==> Consequent(old(log), log, p0.attempts, o, pending)
      ensures o == Raised <==> faults != old(faults)
      ensures o == TryLater ==> Ended(old(log), log)
    {
      hide Lawful, PendingOf, CursorOf, ChosenOf, QuarantineOf, Jobs, Fits, Commits, Ordered, OfTable, Extent,
           CursorKept;
      p, o := p0, Raised;
      var accepted: bool := *;
      if !accepted {
        o := RefuseIngress(p, row, now);
        return;
      }
      var ok := Do(RowIngested(row));
      if !ok { return; }
      p := p.(ingested := p.ingested + {row}, status := Ready, retryAfter := 0.0);
      ok := Save(p);
      if ok { o := Success; }
    }

    /** An ingress that refuses a row puts the batch off. */
    method RefuseIngress(p: Pending, row: nat, now: real) returns (o: Outcome)
      requires Valid() && Preparing(p)
      modifies this`log, this`pending, this`saved, this`quarantine, this`faults
      ensures Valid() && saved == old(saved) && o in {TryLater, Raised} && quarantine == old(quarantine)
      ensures NoJobs(old(log), log) && NothingHandled(old(log), log) && old(log) + [IngressRefused(row)] <= log
      ensures o == TryLater ==> pending == Some(p.(status := IngressRetry, retryAfter := now + 15.0))
      ensures Consequent(old(log), log, p.attempts, o, pending)
      ensures o == Raised <==> faults != old(faults)
      ensures Ended(old(log), log)
    {
      hide Lawful, PendingOf, CursorOf, ChosenOf, QuarantineOf, Jobs, Fits, Commits, Ordered, OfTable, Extent,
           CursorKept;
      Record(IngressRefused(row));
      var ok := Save(p.(status := IngressRetry, retryAfter := now + INGRESS_RETRY_DELAY));
      EndedAt(old(log), IngressRefused(row), log);
      o := if ok then TryLater else Raised;
    }

    /** `_block_unroutable_batch`. */
    method BlockUnroutable(p: Pending, batch: seq<Row>) returns (o: Outcome)
      requires Valid() && Preparing(p) && pending == Some(p) && InHand(table, seen, batch, p.key)
      modifies this`log, this`pending, this`saved, this`quarantine, this`faults
      ensures Valid() && saved == old(saved) && o in {QuarantinedBatch, Raised} && NoJobs(old(log), log)
      ensures if p.key in old(quarantine) then NothingHandled(old(log), log)
              else o == QuarantinedBatch ==>
                     AllSent(log, p.key, batch) && p.key in quarantine && quarantine[p.key] == LastId(batch)
      ensures o == QuarantinedBatch ==>
                SettledAs(p, pending) && pending.value.status == Quarantined && p.key in quarantine
      ensures NothingRead(old(log), log)
      ensures o == Raised <==> faults != old(faults)
    {
      hide Lawful, CursorOf, ChosenOf, Jobs, Fits, Commits, Ordered, OfTable, Extent, CursorKept;
      if p.key !in quarantine {
        var ok := Do(QuarantineSaved(p.key, batch));
        if !ok { return Raised; }
        assert Handles(log[|log| - 1]);
      }
      ResentIsOpen(log);
      ghost var entered := log;
      var ok := Save(p.(status := Quarantined, job := None, retryAfter := 0.0));
      if p.key !in old(quarantine) { SentSurvives(entered, log, p.key, batch); }
      o := if ok then QuarantinedBatch else Raised;
    }

    /**
     The dispatch itself: announce durably, create, remember the job, observe.  A creation may fail without raising.
     */
    method DispatchJob(p0: Pending, batch: seq<Row>, now: real) returns (o: Outcome)
      requires Valid() && Preparing(p0) && InHand(table, seen, batch, p0.key)
      requires forall r :: r in batch ==> r.id in p0.ingested
      modifies this`log, this`pending, this`saved, this`quarantine, this`faults
      ensures Valid() && saved == old(saved) && old(log) <= log
      ensures o == Success ==> AllSent(log, p0.key, batch) || Jobs(old(log), p0.key) > 0
      ensures o == Skip ==> AllTried(log, p0.key, batch)
      ensures o in {Success, Skip, TryLater, StillPending, Raised}
      ensures Settles(o) ==> SettledAs(p0, pending)
      ensures Consequent(old(log), log, p0.attempts, o, pending) && Says(o, pending) &&
              (o != Raised ==> log != old(log))
      ensures o != Raised ==>
                && |log| > |old(log)| + 1
                && log[|old(log)|].PendingSaved? && log[|old(log)|].pending.status == Dispatching
                && log[|old(log)| + 1] in {JobCreated(p0.key, batch), JobRefused(p0.key)}
      ensures o == Raised <==> faults != old(faults)
      ensures o != Raised ==> Ended(old(log), log)
      ensures o != Raised ==> Asked(old(log), log, p0.key, batch)
    {
      hide SignalFeeder.Valid, InHand, Jobs, AllSent, AllTried, NothingSent, NothingHandled, NoJobs, CountsFailure,
           StaysOpen, Done, Follows, JustResent, Ended;
      var p, ok := Announce(p0);
      if !ok { return Raised; }
      JobsKept(old(log), log, p.key);
      ghost var announced := log;
      var created: bool := *;
      if created {
        o := CreateJob(p, batch, now);
        StillIngress(old(log), announced, log, p.attempts, o, pending);
      } else {
        o := RefusedJob(p, batch, now);
        StillIngress(old(log), announced, log, p.attempts, o, pending);
      }
      EndedLater(old(log), announced, log);
    }

    /** The write-ahead of a dispatch. */
    method Announce(p0: Pending) returns (p: Pending, ok: bool)
      requires Valid() && Preparing(p0)
      modifies this`log, this`pending, this`saved, this`quarantine, this`faults
      ensures Valid() && saved == old(saved) && faults == old(faults) + if ok then 0 else 1
      ensures p == p0.(status := Dispatching, job := None, retryAfter := 0.0)
      ensures log == old(log) || log == old(log) + [PendingSaved(p)]
      ensures ok ==> pending == Some(p) && log == old(log) + [PendingSaved(p)]
      ensures NoJobs(old(log), log) && NothingRead(old(log), log)
      ensures Consequent(old(log), log, p0.attempts, Raised, pending)
    {
      hide Lawful, PendingOf, CursorOf, ChosenOf, QuarantineOf, Jobs, Fits, Commits, Ordered, OfTable, Extent,
           CursorKept;
      p := p0.(status := Dispatching, job := None, retryAfter := 0.0);
      ResentIsOpen(log);
      ok := Save(p);
    }

    /** A creation that failed without raising is looked up like any other dispatch. */
    method RefusedJob(p: Pending, batch: seq<Row>, now: real) returns (o: Outcome)
      requires Valid() && pending == Some(p) && p.status == Dispatching && p.job.None?
      requires InHand(table, seen, batch, p.key)
      modifies this`log, this`pending, this`saved, this`quarantine, this`faults
      ensures Valid() && saved == old(saved) && old(log) + [JobRefused(p.key)] <= log
      ensures o in {Success, Skip, TryLater, StillPending, Raised} && (Settles(o) ==> SettledAs(p, pending))
      ensures o == Skip ==> AllTried(log, p.key, batch)
      ensures o == Success ==> Jobs(old(log), p.key) > 0
      ensures Consequent(old(log), log, p.attempts, o, pending) && Says(o, pending)
      ensures o == Raised <==> faults != old(faults)
      ensures o != Raised ==> Ended(old(log), log)
    {
      hide Lawful, PendingOf, CursorOf, ChosenOf, QuarantineOf, Jobs, Fits, Commits, Ordered, OfTable, Extent,
           CursorKept, InHand, AllTried, CountsFailure, StaysOpen, Done, Follows, KeySeen, Ended;
      Record(JobRefused(p.key));
      JobsKept(old(log), log, p.key);
      ghost var was := log;
      o := ResumeDispatch(p, batch, now);
      StillIngress(old(log), was, log, p.attempts, o, pending);
      EndedLater(old(log), was, log);
    }

    /** The creation itself, with the rows of the batch in its prompt. */
    method SubmitJob(p: Pending, batch: seq<Row>) returns (ok: bool)
      requires Valid() && pending == Some(p) && p.status == Dispatching && p.job.None? &&
               InHand(table, seen, batch, p.key)
      requires log != [] && Last(log) == PendingSaved(p)
      requires forall r :: r in batch ==> r.id in p.ingested
      modifies this`log, this`pending, this`saved, this`quarantine, this`faults
      ensures Valid() && saved == old(saved) && pending == old(pending) && faults == old(faults) + if ok then 0 else 1
      ensures log == old(log) || log == old(log) + [JobCreated(p.key, batch)]
      ensures ok ==>
                && log == old(log) + [JobCreated(p.key, batch)] && AllSent(log, p.key, batch) && Jobs(log, p.key) > 0
                && JustResent(log) == 0
      ensures NothingRead(old(log), log) && Consequent(old(log), log, p.attempts, Raised, pending)
    {
      hide Lawful, PendingOf, CursorOf, ChosenOf, QuarantineOf, Fits, Commits, Ordered, OfTable, Extent, CursorKept,
           Jobs, AllSent;
      ok := Do(JobCreated(p.key, batch));
      JobMade(old(log), p.key, batch);
    }

    /** The scheduler creates the job; its answer may name it or not, or get lost. */
    method CreateJob(p: Pending, batch: seq<Row>, now: real) returns (o: Outcome)
      requires Valid() && pending == Some(p) && p.status == Dispatching && p.job.None? &&
               InHand(table, seen, batch, p.key)
      requires log != [] && Last(log) == PendingSaved(p)
      requires forall r :: r in batch ==> r.id in p.ingested
      modifies this`log, this`pending, this`saved, this`quarantine, this`faults
      ensures Valid() && saved == old(saved) && old(log) <= log
      ensures o != Raised ==> AllSent(log, p.key, batch)
      ensures o == Skip ==> AllTried(log, p.key, batch)
      ensures o in {Success, Skip, TryLater, StillPending, Raised}
      ensures Settles(o) ==> SettledAs(p, pending)
      ensures o != Raised ==> |log| > |old(log)| && log[|old(log)|] == JobCreated(p.key, batch)
      ensures Consequent(old(log), log, p.attempts, o, pending) && Says(o, pending)
      ensures o == Raised <==> faults != old(faults)
      ensures o != Raised ==> Ended(old(log), log)
    {
      hide SignalFeeder.Valid, InHand, Jobs, AllSent, AllTried, NothingSent, NothingHandled, NoJobs, CountsFailure,
           StaysOpen, Done, Follows, JustResent, Ended;
      var ok := SubmitJob(p, batch);
      if !ok { return Raised; }
      ghost var sent := log;
      var reported: Option<nat> := *;
      if reported.Some? {
        var q;
        q, ok := NoteJob(p, reported.value);
        if !ok {
          QuietlyOn(old(log), log, p.attempts, Raised, pending);
          return Raised;
        }
        ghost var noted := log;
        o := ObserveJob(q, batch, now);
        StillIngress(old(log), noted, log, p.attempts, o, pending);
        EndedLater(old(log), noted, log);
      } else {
        o := ResumeDispatch(p, batch, now);
        StillIngress(old(log), sent, log, p.attempts, o, pending);
        EndedLater(old(log), sent, log);
      }
      SentSurvives(sent, log, p.key, batch);
    }

    /** A fresh attempt: ingest every row, then route and dispatch the batch or quarantine it. */
    method StartAttempt(p0: Pending, batch: seq<Row>, now: real) returns (o: Outcome)
      requires Valid() && Preparing(p0) && InHand(table, seen, batch, p0.key)
      modifies this`log, this`pending, this`saved, this`quarantine, this`faults
      ensures Valid() && saved == old(saved) && old(log) <= log
      ensures Settles(o) ==> SettledAs(p0, pending)
      ensures o == Skip ==> AllTried(log, p0.key, batch)
      ensures o == Success ==> AllSent(log, p0.key, batch) || Jobs(old(log), p0.key) > 0
      ensures o == QuarantinedBatch && p0.key !in old(quarantine) ==> AllSent(log, p0.key, batch)
      ensures Consequent(old(log), log, p0.attempts, o, pending) && Says(o, pending) &&
              (o != Raised ==> log != old(log))
      ensures o == Raised <==> faults != old(faults)
      ensures o != Raised ==> Ended(old(log), log)
      ensures o != Raised && o != QuarantinedBatch && !(pending.Some? && pending.value.status == IngressRetry) ==>
                Asked(old(log), log, p0.key, batch)
    {
      hide SignalFeeder.Valid, Jobs, InHand, AllSent, AllTried, NothingSent, NothingHandled, CountsFailure, StaysOpen,
           MaySave, Ended, Asked, Follows, Done, NoJobs;
      var p;
      p, o := EnsureIngress(p0, batch, now);
      ghost var ingested := log;
      JobsKept(old(log), ingested, p0.key);
      if o != Success { return; }
      assert forall r :: r in batch ==> r.id in p.ingested;
      o := RouteBatch(p, batch, now);
      StillIngress(old(log), ingested, log, p0.attempts, o, pending);
      EndedLater(old(log), ingested, log);
      if Asked(ingested, log, p0.key, batch) { AskedLater(old(log), ingested, log, p0.key, batch); }
    }

    /** A batch whose rows are all ingested is dispatched to a trading job, or quarantined if nobody may trade it. */
    method RouteBatch(p: Pending, batch: seq<Row>, now: real) returns (o: Outcome)
      requires Valid() && Preparing(p) && pending == Some(p) && InHand(table, seen, batch, p.key)
      requires forall r :: r in batch ==> r.id in p.ingested
      modifies this`log, this`pending, this`saved, this`quarantine, this`faults
      ensures Valid() && saved == old(saved) && old(log) <= log
      ensures Settles(o) ==> SettledAs(p, pending)
      ensures o == Skip ==> AllTried(log, p.key, batch)
      ensures o == Success ==> AllSent(log, p.key, batch) || Jobs(old(log), p.key) > 0
      ensures o == QuarantinedBatch && p.key !in old(quarantine) ==> AllSent(log, p.key, batch)
      ensures Consequent(old(log), log, p.attempts, o, pending) && Says(o, pending)
      ensures o == Raised <==> faults != old(faults)
      ensures o != Raised ==> Ended(old(log), log) && (o == QuarantinedBatch || Asked(old(log), log, p.key, batch))
    {
      hide SignalFeeder.Valid, Jobs, InHand, AllSent, AllTried, NothingSent, NothingHandled, CountsFailure, StaysOpen,
           MaySave, Ended, Asked, NoJobs;
      var routable: bool := *;
      var routed := Route(routable);
      if !routed { return Raised; }
      JobsKept(old(log), log, p.key);
      ghost var was := log;
      if routable {
        o := DispatchJob(p, batch, now);
        EndedLater(old(log), was, log);
        if o != Raised { AskedLater(old(log), was, log, p.key, batch); }
      } else {
        o := BlockUnroutable(p, batch);
        QuietlyOn(was, log, p.attempts, o, pending);
        EndedAt(old(log), Routed(false), log);
      }
      ReadThen(old(log), Routed(routable), log, p.attempts, o, pending);
    }

    /** What the routing says of the batch. */
    method Route(routable: bool) returns (ok: bool)
      requires Valid()
      modifies this`log, this`pending, this`saved, this`quarantine, this`faults
      ensures Valid() && saved == old(saved) && pending == old(pending) && quarantine == old(quarantine)
      ensures faults == old(faults) + if ok then 0 else 1
      ensures (log == old(log) || log == old(log) + [Routed(routable)]) && (ok ==> log == old(log) + [Routed(routable)])
      ensures NoJobs(old(log), log) && forall attempts, q :: Consequent(old(log), log, attempts, Raised, q)
    {
      hide Lawful, PendingOf, CursorOf, ChosenOf, QuarantineOf, Jobs, Fits, Commits, Ordered, OfTable, Extent,
           CursorKept;
      ok := Do(Routed(routable));
    }

    /** `attempt_batch_delivery`, legacy branch. */
    method AttemptBatchDelivery(batch: seq<Row>, now: real) returns (o: Outcome)
      requires Valid() && cursor.Some? && batch != [] && InHand(table, seen, batch, batch[0].id)
      requires cursor.value < batch[0].id <= LastId(batch)
      modifies this`log, this`pending, this`saved, this`quarantine, this`faults
      ensures Valid() && saved == old(saved) && old(log) <= log
      ensures Settles(o) ==>
                SettledAs(if old(pending).Some? then old(pending).value
                          else NewPending(batch[0].id, LastId(batch)), pending)
      ensures old(pending).Some? && old(pending).value.key != batch[0].id ==> o == StillPending && log == old(log)
      ensures old(pending).Some? && now < old(pending).value.retryAfter && !Terminal(old(pending).value.status) ==>
                o in {StillPending, TryLater} && log == old(log)
      ensures old(pending).Some? && old(pending).value.key == batch[0].id &&
              old(pending).value.status == ManualReview ==>
                o == StillPending && log == old(log)
      ensures Says(o, pending) && Consequent(old(log), log, AttemptsOf(old(pending)), o, pending)
      ensures o != Raised && !NothingDue(old(pending), batch[0].id, now) ==> Ended(old(log), log)
      ensures Done(old(pending)) && old(pending).value.key == batch[0].id ==>
                Settles(o) && log == old(log) && pending == old(pending)
      ensures Underway(old(pending)) ==>
                && NoJobs(old(log), log) && NothingSent(old(log), log)
                && (Settles(o) && (o == Skip ==> Terminal(old(pending).value.status)) ==> NothingHandled(old(log), log))
      ensures o == Skip && !(old(pending).Some? && Terminal(old(pending).value.status)) ==>
                AllTried(log, batch[0].id, batch)
      ensures !Underway(old(pending)) && o == Success ==>
                AllSent(log, batch[0].id, batch) || Jobs(old(log), batch[0].id) > 0
      ensures !Underway(old(pending)) && o == QuarantinedBatch && batch[0].id !in old(quarantine) ==>
                AllSent(log, batch[0].id, batch)
      ensures o == Raised <==> faults != old(faults)
    {
      hide Lawful, PendingOf, CursorOf, ChosenOf, QuarantineOf, Jobs, Fits, Commits, Ordered, OfTable, Extent, AllSent,
           AllTried, Ended;
      var key := batch[0].id;
      if pending.Some? && pending.value.key != key { return StillPending; }
      var p := if pending.Some? then pending.value else NewPending(key, LastId(batch));
      match p.status {
        case Quarantined => return QuarantinedBatch;
        case Skipped => return Skip;
        case ManualReview => return StillPending;
        case Succeeded =>
          o := CompleteSuccess(p);
          return;
        case _ =>
      }
      if now < p.retryAfter { return TryLater; }
      if p.job.None? && p.status == Dispatching {
        o := ResumeDispatch(p, batch, now);
        return;
      }
      if p.job.Some? {
        o := ObserveJob(p, batch, now);
        return;
      }
      InHandSeen(table, seen, batch, key);
      o := StartAttempt(p, batch, now);
    }

    /** One round of the delivery loop: select a batch, attempt it, commit its cursor. */
    method DeliverNext(now: real) returns (raised: bool, more: bool, ghost batch: seq<Row>, ghost o: Outcome)
      requires Valid() && cursor.Some?
      modifies this`log, this`pending, this`saved, this`quarantine, this`cursor, this`faults
      ensures Valid() && cursor.Some? && old(cursor.value) <= cursor.value && old(log) <= log
      ensures raised <==> faults != old(faults)
      ensures Selected(Fetched(table, seen, old(cursor.value)), now, batch)
      ensures batch == [] ==> !raised && !more && log == old(log)
      ensures batch != [] && !Settles(o) ==>
                && Consequent(old(log), log, AttemptsOf(old(pending)), o, pending)
                && (o != Raised && !NothingDue(old(pending), batch[0].id, now) ==> Ended(old(log), log))
      ensures batch != [] ==>
                && (more <==> Settles(o) && !raised) && (o == Raised ==> raised)
                && (Settles(o) <==> cursor == Some(LastId(batch))) && (!Settles(o) ==> cursor == old(cursor))
      ensures more ==>
                !raised && log != old(log) && old(cursor.value) < cursor.value && saved == cursor &&
                pending == None && seen > 0 && cursor.value <= table[seen - 1].id
      ensures !more && !raised ==> cursor == old(cursor)
      ensures Behind(old(pending), old(cursor)) ==>
                !raised && !more && log == old(log) && pending == old(pending) && cursor == old(cursor) &&
                    saved == old(saved)
      ensures Done(old(pending)) && log != old(log) ==> log[|old(log)|].CursorSaved? && log[|old(log)|].seen == seen
    {
      hide Lawful, PendingOf, CursorOf, ChosenOf, QuarantineOf, Jobs, Accounted, Fits, Commits, Ordered, OfTable,
           Extent, AllHandled, AllSent, AllTried, NothingHandled, NothingSent, NoJobs, FetchNew, MaximalBatch, Settled,
           Consequent, Selected, NothingDue, Ended, Timed, CursorKept;
      raised, more, o := false, false, StillPending;
      var start := cursor.value;
      var chosen := SelectDeliverableBatch(Fetched(table, seen, start), now);
      batch := chosen;
      if chosen == [] { return; }
      ChosenIsOfTable(table, seen, start, chosen);
      ChosenEnds(table, seen, start, chosen);
      var outcome := AttemptBatchDelivery(chosen, now);
      o := outcome;
      if outcome == Raised { return true, false, chosen, Raised; }
      if !Settles(outcome) { return; }
      var ok := CommitBatch(start, chosen);
      raised, more := !ok, ok;
    }

    /** `commit_batch_cursor`: the cursor in memory, the cursor file, then the record. */
    method CommitBatch(start: nat, batch: seq<Row>) returns (ok: bool)
      requires Valid() && cursor == Some(start) && batch != [] && Chosen(table, seen, start, batch)
      requires start < batch[0].id <= LastId(batch) && OfTable(table, seen, batch)
      requires pending.Some? && Terminal(pending.value.status) && pending.value.key == batch[0].id
      modifies this`log, this`pending, this`saved, this`quarantine, this`cursor, this`faults
      ensures Valid() && cursor == Some(LastId(batch)) && (ok <==> faults == old(faults))
      ensures log == old(log) || old(log) + [CursorSaved(start, batch, seen)] <= log
      ensures ok ==>
                && saved == cursor && pending == None
                && log == old(log) + [CursorSaved(start, batch, seen)] + [PendingCleared]
    {
      hide Lawful, PendingOf, CursorOf, ChosenOf, QuarantineOf, Jobs, Accounted, Fits, Commits, Ordered, OfTable,
           Extent, FetchNew, MaximalBatch, Chosen, Timed;
      cursor := Some(LastId(batch));
      ok := Do(CursorSaved(start, batch, seen));
      if !ok { return; }
      ok := Do(PendingCleared);
    }

    /** The delivery loop of one poll over the rows that exist now: it ends when a round does not go on. */
    method DeliverBatches(now: real)
      returns (raised: bool, ghost batch: seq<Row>, ghost o: Outcome, ghost was: Log)
      requires Valid() && cursor.Some?
      modifies this`log, this`pending, this`saved, this`quarantine, this`cursor, this`faults
      ensures Valid() && cursor.Some? && old(cursor.value) <= cursor.value && old(log) <= log
      ensures raised <==> faults != old(faults)
      ensures !raised ==> Drained(table, seen, cursor.value, now, batch, o, was, log, pending)
      ensures Behind(old(pending), old(cursor)) ==>
                !raised && log == old(log) && pending == old(pending) && cursor == old(cursor) && saved == old(saved)
      ensures Done(old(pending)) && log != old(log) ==> log[|old(log)|].CursorSaved? && log[|old(log)|].seen == seen
    {
      hide SignalFeeder.Valid, Selected, Consequent, NothingDue, Ended, Fetched;
      var more;
      was := log;
      raised, more, batch, o := Round(now);
      while more
        invariant Valid() && cursor.Some? && old(cursor.value) <= cursor.value && old(log) <= log
        invariant (raised <==> faults != old(faults)) && (more ==> !raised)
        invariant Behind(old(pending), old(cursor)) ==>
                    !more && !raised && log == old(log) && pending == old(pending) && cursor == old(cursor) &&
                        saved == old(saved)
        invariant more ==> log != old(log) && 0 < seen <= |table| && cursor.value <= table[seen - 1].id
        invariant !more && !raised ==> seen <= |table| &&
                                       Drained(table, seen, cursor.value, now, batch, o, was, log, pending)
        invariant Done(old(pending)) && log != old(log) ==> log[|old(log)|].CursorSaved? && log[|old(log)|].seen == seen
        decreases if more then table[seen - 1].id - cursor.value + 1 else 0
      {
        was := log;
        raised, more, batch, o := Round(now);
      }
    }

    /** A round, seen from the loop. */
    method Round(now: real) returns (raised: bool, more: bool, ghost batch: seq<Row>, ghost o: Outcome)
      requires Valid() && cursor.Some?
      modifies this`log, this`pending, this`saved, this`quarantine, this`cursor, this`faults
      ensures Valid() && cursor.Some? && old(cursor.value) <= cursor.value && old(log) <= log
      ensures raised <==> faults != old(faults)
      ensures more ==>
                && !raised && log != old(log) && old(cursor.value) < cursor.value
                && 0 < seen <= |table| && cursor.value <= table[seen - 1].id
      ensures !more && !raised ==> seen <= |table| &&
                                   Drained(table, seen, cursor.value, now, batch, o, old(log), log, pending)
      ensures Behind(old(pending), old(cursor)) ==>
                !raised && !more && log == old(log) && pending == old(pending) && cursor == old(cursor) &&
                    saved == old(saved)
      ensures Done(old(pending)) && log != old(log) ==> log[|old(log)|].CursorSaved? && log[|old(log)|].seen == seen
    {
      hide Lawful, PendingOf, CursorOf, ChosenOf, QuarantineOf, Jobs, Accounted, Fits, Commits, Ordered, OfTable,
           Extent, Selected, Consequent, NothingDue, Ended, Fetched;
      raised, more, batch, o := DeliverNext(now);
    }

    /** The ingress pass, as far as delivery can see it: it may quarantine single rows in the shared store. */
    method QuarantinePoisonRows() returns (raised: bool)
      requires Valid()
      modifies this`log, this`pending, this`saved, this`quarantine, this`faults
      ensures Valid() && pending == old(pending) && saved == old(saved) && OnlyQuarantines(old(log), log)
      ensures raised <==> faults != old(faults)
    {
      hide Lawful, PendingOf, CursorOf, ChosenOf, QuarantineOf, Jobs, Accounted, Fits, Commits, OfTable, NewRows,
           Changed;
      raised := false;
      var rounds: int := *;
      while rounds > 0
        invariant faults == old(faults) && !raised
        invariant Valid() && pending == old(pending) && saved == old(saved) && OnlyQuarantines(old(log), log)
      {
        rounds := rounds - 1;
        var j: int := *;
        if 0 <= j < seen && table[j].id > 0 && Changed(table, j) && table[j].id !in quarantine {
          RowIsOfTable(table, seen, j);
          var ok := Do(QuarantineSaved(table[j].id, [table[j]]));
          if !ok { return true; }
        }
      }
    }

    /** A process without a cursor file takes the latest row, in memory. */
    method ChooseCursor()
      requires Valid() && cursor.None? && seen > 0
      modifies this`log, this`cursor
      ensures Valid() && cursor == Some(table[seen - 1].id) &&
              log == old(log) + [CursorChosen(table[seen - 1].id, seen)]
    {
      hide CursorOf, ChosenOf, PendingOf, QuarantineOf, Jobs, Lawful, Accounted, Fits, Commits, MoveOk, OfTable;
      var e := CursorChosen(table[seen - 1].id, seen);
      if ChosenOf(log).Some? { ChosenSeen(table, seen, log); }
      Stepped(log, e);
      FitsStep(table, seen, log, e);
      CommitsStep(table, log, e);
      if pending.Some? { AccountedAfter(log + [e]); }
      log, cursor := log + [e], Some(e.cursor);
    }

    /** One poll: the table may have grown; initialize the cursor to the latest row if there is none, then deliver. */
    method Poll(visible: nat, now: real)
      returns (raised: bool, ghost batch: seq<Row>, ghost o: Outcome, ghost was: Log)
      requires Valid() && seen <= visible <= |table|
      modifies this`log, this`pending, this`saved, this`quarantine, this`cursor, this`faults, this`seen
      ensures Valid() && old(log) <= log && seen == visible && (old(cursor).Some? ==> cursor.Some?)
      ensures raised <==> faults != old(faults)
      ensures !raised && cursor.Some? ==> Drained(table, seen, cursor.value, now, batch, o, was, log, pending)
      ensures visible > 0 && !raised ==> cursor.Some?
      ensures old(cursor).None? && visible > 0 ==>
                old(log) + [CursorChosen(table[visible - 1].id, visible)] <= log && cursor.Some?
      ensures old(cursor).None? && old(pending).Some? && visible > 0 ==>
                && pending == old(pending) && cursor == Some(table[visible - 1].id) && (saved.Some? ==> saved == cursor)
                && OnlyQuarantines(old(log) + [CursorChosen(table[visible - 1].id, visible)] +
                                   (if saved.Some? then [CursorInitialized(table[visible - 1].id, visible)] else []),
                                       log)
      ensures Behind(old(pending), old(cursor)) ==>
                pending == old(pending) && saved == old(saved) && cursor == old(cursor) &&
                    OnlyQuarantines(old(log), log)
    {
      hide Lawful, PendingOf, CursorOf, ChosenOf, QuarantineOf, Jobs, Accounted, Fits, Commits;
raised, batch, o, was := false, [], StillPending, log;
      FitsGrows(table, seen, visible, log);
      seen := visible;
      if cursor.None? {
        if visible == 0 { return; }
        ChooseCursor();
        var ok := Do(CursorInitialized(cursor.value, visible));
        if !ok { return true, [], StillPending, log; }
      }
      raised := QuarantinePoisonRows();
      if raised { return; }
      raised, batch, o, was := DeliverBatches(now);
    }

    /** An unsettled record behind the cursor file is stuck. */
    lemma PassedIsStuck()
      requires Valid() && Unsettled(pending) && Behind(pending, saved)
      ensures Stuck(log)
    {
    }

    /** The process dies after any k of its steps; on start it reloads and runs `reconcile_committed_pending`. */
    method Restart(k: nat) returns (s: StartUp)
      requires Valid() && k <= |log|
      modifies this
      ensures Valid() && seen == old(seen) && old(log)[..k] <= log && cursor == saved == CursorOf(old(log)[..k])
      ensures s == StartRefused <==> Disputed(old(log)[..k])
      ensures !Reconcilable(old(log)[..k]) ==> log == old(log)[..k] && s != StartRaised
      ensures Reconcilable(old(log)[..k]) && s == Started ==> log == old(log)[..k] + [PendingCleared] && pending == None
    {
      LawfulPrefix(log, k);
      FitsPrefix(table, seen, log, k);
      CommitsPrefix(table, log, k);
      log := log[..k];
      pending, saved, quarantine := PendingOf(log), CursorOf(log), QuarantineOf(log);
      cursor := saved;
      if pending.Some? {
        AccountedAfter(log);
        PendingSeen(table, seen, log);
      }
      LawfulIsAttended(log);
      if Disputed(log) { return StartRefused; }
      s := Started;
      if Reconcilable(log) {
        var ok := Do(PendingCleared);
        if !ok { s := StartRaised; }
      }
    }
  }

  /** The record's batch lies behind the cursor in memory: no selected batch will ever have its key. */
  predicate Behind(p: Option<Pending>, cursor: Option<nat>) { p.Some? && cursor.Some? && p.value.key <= cursor.value }

  /** A job may exist for the record, or its outcome is settled: no further job will be made for this attempt. */
  predicate Underway(p: Option<Pending>) { p.Some? && (InFlight(p.value) || Terminal(p.value.status)) }

  ghost predicate OnlyQuarantines(was: Log, now: Log) {
    was <= now && forall i :: |was| <= i < |now| ==> now[i].QuarantineSaved?
  }

  lemma RowIsOfTable(table: Table, seen: nat, j: nat)
    requires Ordered(table) && j < seen <= |table| && table[j].id > 0 && Changed(table, j)
    ensures OfTable(table, seen, [table[j]])
  {
    hide Changed, NewRows;
    var rows := NewRows(table, table[j].id - 1, seen);
    NewRowsExact(table, table[j].id - 1, seen);
    NewRowsOrdered(table, table[j].id - 1, seen);
    assert table[j] in rows;
    assert rows[0] in rows;
    var m :| 0 <= m < |rows| && rows[m] == table[j];
    var i :| 0 <= i < seen && table[i] == rows[0];
    assert rows[0] == table[j];
  }

  /** No step but the choice of a cursor brings the cursor in memory out of step with the files. */
  lemma StepKeepsCursor(log: Log, e: Event, cursor: Option<nat>)
    requires Permitted(log, e) && !e.CursorChosen? && CursorKept(cursor, CursorOf(log), ChosenOf(log), PendingOf(log))
    requires MovesCursor(e) ==> cursor == Some(NewCursor(e))
    requires e.PendingCleared? ==> cursor == CursorOf(log)
    ensures CursorKept(cursor, CursorOf(log + [e]), ChosenOf(log + [e]), PendingOf(log + [e]))
  {
    hide CursorOf, ChosenOf, PendingOf, QuarantineOf, Jobs, Extent, Lawful, OriginOf;
    Stepped(log, e);
  }

  lemma {:induction false} JobsKept(was: Log, now: Log, key: nat)
    requires NoJobs(was, now)
    ensures Jobs(now, key) == Jobs(was, key)
    decreases |now|
  {
    if |was| < |now| {
      JobsKept(was, now[..|now| - 1], key);
    } else {
      assert was == now;
    }
  }

  lemma JobMade(log: Log, key: nat, batch: seq<Row>)
    ensures Jobs(log + [JobCreated(key, batch)], key) > 0 && AllSent(log + [JobCreated(key, batch)], key, batch)
  {
    var longer := log + [JobCreated(key, batch)];
    assert Handles(longer[|log|]);
  }

  lemma InHandSeen(table: Table, seen: nat, batch: seq<Row>, key: nat)
    requires Ordered(table) && seen <= |table| && InHand(table, seen, batch, key)
    ensures KeySeen(table, seen, key)
  {
    NewRowsOrdered(table, key - 1, seen);
    assert batch[0] == NewRows(table, key - 1, seen)[0];
    assert batch[0] in NewRows(table, key - 1, seen);
  }

  lemma OneMoreTried(log: Log, key: nat, batch: seq<Row>, i: nat, sent: bool)
    requires i < |batch| && AllTried(log, key, batch[..i])
    ensures AllTried(log + [NoticeTried(key, batch[i], sent)], key, batch[..i + 1])
  {
    assert batch[..i + 1] == batch[..i] + [batch[i]];
    assert forall e :: e in log ==> e in log + [NoticeTried(key, batch[i], sent)];
  }

  /** A cursor that was chosen earlier is not beyond the latest row. */
  lemma {:induction false} ChosenSeen(table: Table, seen: nat, log: Log)
    requires Ordered(table) && seen <= |table| && Fits(table, seen, log) && ChosenOf(log).Some?
    ensures seen > 0 && ChosenOf(log).value <= table[seen - 1].id
  {
    if Last(log).CursorChosen? {
      assert EventFits(table, seen, log[|log| - 1]);
    } else {
      FitsPrefix(table, seen, log, |log| - 1);
      ChosenSeen(table, seen, log[..|log| - 1]);
    }
  }

  lemma AccountedAfter(log: Log)
    requires Lawful(log) && PendingOf(log).Some?
    ensures Accounted(log, PendingOf(log).value)
  {
    LawfulIsBounded(log);
  }

  /**
   Any number of polls over a growing table, with restarts after any step.  No batch ever gets a fourth trading
   job, two jobs of one batch are separated by a recorded failure, and MoveOk says of every move of the cursor file
   which rows it passed and what had been done with them.  No changed row is lost exactly when no move is lossy.
   */
  method RunFeeder(table: Table, polls: nat) returns (log: Log)
    requires Ordered(table)
    ensures Lawful(log)
    ensures forall key :: Jobs(log, key) <= MAX_ATTEMPTS
    ensures forall i, j :: 0 <= i < j < |log| && log[i].JobCreated? && JobFor(log[j], log[i].key) ==>
                             exists k :: i < k < j && RecordsFailure(log, k)
    ensures forall i, row :: 0 <= i < |log| && log[i].JobCreated? && row in log[i].batch ==>
                               RowIngested(row.id) in log[..i]
    ensures Commits(table, log)
    ensures NoRowLost(table, log) <==> NoLossyMove(table, log)
    ensures forall i :: 0 <= i < |log| && MovesCursor(log[i]) ==>
                          (PassesUnsettled(log, i) <==> log[i].CursorInitialized? && Unsettled(PendingOf(log[..i])))
  {
    hide MoveOk, NoRowLost, NoLossyMove, Fits, OfTable, Lawful, PendingOf, CursorOf, ChosenOf, QuarantineOf,
         RecordsFailure, Bounded, Ordered, PassesUnsettled, Unsettled;
    var feeder := new SignalFeeder(table);
    var running := true;
    for n := 0 to polls
      invariant feeder.Valid() && fresh(feeder) && feeder.table == table
    {
      if running {
        var visible :| feeder.seen <= visible <= |table|;
        var now: real := *;
        var _, _, _, _ := feeder.Poll(visible, now);
      }
      var died: bool := *;
      if died || !running {
        var k :| 0 <= k <= |feeder.log|;
        var s := feeder.Restart(k);
        running := s == Started;
      }
    }
    log := feeder.log;
    BoundedJobs(log);
    forall i, row | 0 <= i < |log| && log[i].JobCreated? && row in log[i].batch
      ensures RowIngested(row.id) in log[..i]
    {
      IngestedBeforeJob(log, i, row);
    }
    NoRowLostExactly(table, feeder.seen, log);
    forall i | 0 <= i < |log| && MovesCursor(log[i])
      ensures PassesUnsettled(log, i) <==> log[i].CursorInitialized? && Unsettled(PendingOf(log[..i]))
    {
      PassesUnsettledExactly(table, log, i);
    }
    forall i, j | 0 <= i < j < |log| && log[i].JobCreated? && JobFor(log[j], log[i].key)
      ensures exists k :: i < k < j && RecordsFailure(log, k)
    {
      FailureRecordedBetweenJobs(log, i, j, log[i].key);
    }
  }

  lemma BoundedJobs(log: Log)
    requires Lawful(log)
    ensures forall key :: Jobs(log, key) <= MAX_ATTEMPTS
  {
    LawfulIsBounded(log);
  }

  /**
   Once a record is stuck, no number of polls and restarts over any growth of the table creates a job, moves the cursor
   or touches the record: delivery has stopped.
   */
  method StuckForever(feeder: SignalFeeder, polls: nat)
    requires feeder.Valid() && Stuck(feeder.log) && feeder.cursor == feeder.saved
    modifies feeder
    ensures feeder.Valid() && Stuck(feeder.log) && OnlyQuarantines(old(feeder.log), feeder.log)
    ensures feeder.pending == old(feeder.pending) && feeder.saved == old(feeder.saved) == feeder.cursor
  {
    hide Lawful, PendingOf, CursorOf, ChosenOf, QuarantineOf, Fits, Commits, Accounted, Ordered;
    var running := true;
    for n := 0 to polls
      invariant feeder.Valid() && Stuck(feeder.log) && OnlyQuarantines(old(feeder.log), feeder.log)
      invariant feeder.pending == old(feeder.pending) && feeder.saved == old(feeder.saved) == feeder.cursor
    {
      if running {
        var visible :| feeder.seen <= visible <= |feeder.table|;
        var now: real := *;
        ghost var was := feeder.log;
        var _, _, _, _ := feeder.Poll(visible, now);
        StuckAfterQuarantines(was, feeder.log);
      }
      var died: bool := *;
      if died || !running {
        assert feeder.log[..|feeder.log|] == feeder.log;
        var s := feeder.Restart(|feeder.log|);
        running := s == Started;
      }
    }
  }

  lemma {:induction false} StuckAfterQuarantines(was: Log, now: Log)
    requires Lawful(now) && Stuck(was) && OnlyQuarantines(was, now)
    ensures Stuck(now)
    decreases |now|
  {
    if |was| < |now| {
      var init, e := now[..|now| - 1], now[|now| - 1];
      assert now == init + [e];
      StuckAfterQuarantines(was, init);
      StuckSurvives(init, e);
    } else {
      assert was == now;
    }
  }
}
