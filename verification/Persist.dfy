/**
 The feeder's ingress pass: `persist_new_watcher_messages` and the loop around it, over restarts,
 ingress failures and exceptions at any save.
 */
module Persist {
  import opened Basics
  import opened Watcher

  /**
   Taken: a process without a persist cursor file starts, in memory, from the delivery cursor.  Answered: what the
   ingress service said.  The rest is durable.
   */
  datatype Event =
    | Taken(cursor: nat)
    | Answered(row: nat, reply: IngressReply)
    | Accepted(row: nat)
    | Quarantined(row: nat)
    | CursorSaved(cursor: nat)

  type Log = seq<Event>

  /** How the ingress service answers one row. */
  datatype IngressReply = Inserted | RowRejected | ServiceDown | Unexpected

  function Init(log: Log): Log
    requires log != []
  {
    log[..|log| - 1]
  }

  function Last(log: Log): Event
    requires log != []
  {
    log[|log| - 1]
  }

  /** The persist cursor on disk. */
  function CursorOf(log: Log): Option<nat> {
    if log == [] then None else if Last(log).CursorSaved? then Some(Last(log).cursor) else CursorOf(Init(log))
  }

  /** Where the latest process without a file started. */
  function TakenOf(log: Log): Option<nat> {
    if log == [] then None else if Last(log).Taken? then Some(Last(log).cursor) else TakenOf(Init(log))
  }

  /** Where the first process started. */
  function OriginOf(log: Log): Option<nat> {
    if log == [] then None
    else if OriginOf(Init(log)).Some? then OriginOf(Init(log))
    else if Last(log).Taken? then Some(Last(log).cursor)
    else None
  }

  /** What had happened when the latest process without a file started. */
  function BeforeTake(log: Log): Log {
    if log == [] then [] else if Last(log).Taken? then Init(log) else BeforeTake(Init(log))
  }

  function AcceptedCount(log: Log): nat {
    if log == [] then 0 else AcceptedCount(Init(log)) + if Last(log).Accepted? then 1 else 0
  }

  predicate Dealt(log: Log, row: nat) { Accepted(row) in log || Quarantined(row) in log }

  /** Each row up to the cursor reached ingress, was set aside, or repeats its message's previous version. */
  ghost predicate Covered(t: Table, from: nat, cursor: nat, log: Log) {
    forall i :: 0 <= i < |t| && from < t[i].id <= cursor ==> Dealt(log, t[i].id) || !Changed(t, i)
  }

  ghost predicate Permitted(t: Table, log: Log, e: Event) {
    match e
    case Taken(_) => CursorOf(log).None?
    case Answered(_, _) => true
    case Accepted(row) => TakenOf(log).Some? && TakenOf(log).value < row
    case Quarantined(row) => TakenOf(log).Some? && TakenOf(log).value < row
    case CursorSaved(c) => TakenOf(log).Some? && TakenOf(log).value <= c && Covered(t, TakenOf(log).value, c, log)
  }

  ghost predicate Lawful(t: Table, log: Log) {
    log == [] || (Lawful(t, Init(log)) && Permitted(t, Init(log), Last(log)))
  }

  lemma Stepped(t: Table, log: Log, e: Event)
    ensures Lawful(t, log + [e]) <==> Lawful(t, log) && Permitted(t, log, e)
    ensures CursorOf(log + [e]) == if e.CursorSaved? then Some(e.cursor) else CursorOf(log)
    ensures TakenOf(log + [e]) == if e.Taken? then Some(e.cursor) else TakenOf(log)
    ensures AcceptedCount(log + [e]) == AcceptedCount(log) + if e.Accepted? then 1 else 0
  {
    assert Init(log + [e]) == log;
  }

  lemma {:induction false} LawfulPrefix(t: Table, log: Log, k: nat)
    requires Lawful(t, log) && k <= |log|
    ensures Lawful(t, log[..k])
    decreases |log|
  {
    if k < |log| {
      assert Init(log)[..k] == log[..k];
      LawfulPrefix(t, Init(log), k);
    } else {
      assert log[..k] == log;
    }
  }

  lemma CoveredGrows(t: Table, from: nat, cursor: nat, log: Log, longer: Log)
    requires Covered(t, from, cursor, log) && log <= longer
    ensures Covered(t, from, cursor, longer)
  {
    assert forall e :: e in log ==> e in longer;
  }

  /** Whatever cursor is on disk, no changed row is missing between it and where its process started. */
  lemma {:induction false} DurableCursorCovers(t: Table, log: Log)
    requires Lawful(t, log) && CursorOf(log).Some?
    ensures TakenOf(log).Some? && TakenOf(log).value <= CursorOf(log).value
    ensures Covered(t, TakenOf(log).value, CursorOf(log).value, log)
  {
    if Last(log).CursorSaved? {
      CoveredGrows(t, TakenOf(log).value, Last(log).cursor, Init(log), log);
    } else {
      DurableCursorCovers(t, Init(log));
      CoveredGrows(t, TakenOf(log).value, CursorOf(log).value, Init(log), log);
    }
  }

  lemma {:induction false} OriginKnown(t: Table, log: Log)
    requires Lawful(t, log)
    ensures OriginOf(log).Some? <==> TakenOf(log).Some?
    ensures BeforeTake(log) <= log
  {
    if log != [] { OriginKnown(t, Init(log)); }
  }

  /** A row at or before the start of the latest process was dealt with before that start, or never. */
  lemma {:induction false} DealtBeforeStart(t: Table, log: Log, row: nat)
    requires Lawful(t, log) && TakenOf(log).Some? && row <= TakenOf(log).value
    ensures Dealt(log, row) <==> Dealt(BeforeTake(log), row)
  {
    var init, e := Init(log), Last(log);
    assert log == init + [e];
    if !e.Taken? { DealtBeforeStart(t, init, row); }
  }

  /**
   No changed row since the very first start is missing exactly when the process whose cursor was the first to be saved
   did not start past one that nobody had dealt with.
   */
  lemma CoveredExactly(t: Table, log: Log)
    requires Lawful(t, log) && CursorOf(log).Some?
    ensures OriginOf(log).Some? && TakenOf(log).Some?
    ensures Covered(t, OriginOf(log).value, CursorOf(log).value, log) <==>
            Covered(t, OriginOf(log).value, TakenOf(log).value, BeforeTake(log))
  {
    hide CursorOf, TakenOf, OriginOf, BeforeTake, Lawful, Changed, Dealt;
    DurableCursorCovers(t, log);
    OriginKnown(t, log);
    forall row: nat | row <= TakenOf(log).value ensures Dealt(log, row) <==> Dealt(BeforeTake(log), row) {
      DealtBeforeStart(t, log, row);
    }
  }

  /** If the first start was also the one that was saved, no changed row is ever missing. */
  lemma FirstStartSaved(t: Table, log: Log)
    requires Lawful(t, log) && CursorOf(log).Some? && OriginOf(log) == TakenOf(log)
    ensures OriginOf(log).Some? && Covered(t, OriginOf(log).value, CursorOf(log).value, log)
  {
    CoveredExactly(t, log);
  }

  /** A lost first save and a delivery cursor that moved on in between: the row between the two starts is missing. */
  lemma LateStartMissesRow()
    ensures exists t: Table, log: Log ::
              && Ordered(t) && Lawful(t, log) && CursorOf(log).Some? && OriginOf(log).Some?
              && !Covered(t, OriginOf(log).value, CursorOf(log).value, log)
  {
    var t := [Row(1, Some("c"), Some(1), None, None, 0.0), Row(2, Some("c"), Some(2), None, None, 1.0)];
    assert PreviousVersion(t, t[1], 0).None? && PreviousVersion(t, t[1], 1).None?;
    var a: Log := [Taken(1)];
    var b := a + [Taken(2)];
    var c := b + [CursorSaved(2)];
    assert Init(a) == [] && Init(b) == a && Init(c) == b;
    assert Lawful(t, []) && CursorOf([]).None?;
    assert Lawful(t, a) && Lawful(t, b) && Covered(t, 2, 2, b) && Lawful(t, c);
    assert OriginOf(a) == Some(1) && OriginOf(b) == Some(1) && OriginOf(c) == Some(1);
    assert Changed(t, 1) && !Dealt(c, 2);
  }

  /** A cursor that moves to the next fetched row passes only unchanged rows in between. */
  lemma NextRowCovered(t: Table, from: nat, n: nat, cursor: nat, rows: seq<Row>, k: nat, reached: nat, log: Log)
    requires Ordered(t) && n <= |t| && rows == FetchNew(t[..n], cursor, PAGE) && k < |rows|
    requires reached == (if k == 0 then cursor else rows[k - 1].id) && Covered(t, from, reached, log)
    requires Dealt(log, rows[k].id)
    ensures Covered(t, from, rows[k].id, log)
  {
    var seen := t[..n];
    var at := FetchedIsInTable(seen, cursor, PAGE, k);
    forall i | 0 <= i < |t| && reached < t[i].id <= rows[k].id
      ensures Dealt(log, t[i].id) || !Changed(t, i)
    {
      assert t[i].id <= t[at].id;
      if Changed(t, i) {
        assert t == seen + t[n..];
        ChangedIsStable(seen, t[n..], i);
        NothingBetween(seen, cursor, PAGE, k, i);
      }
    }
  }

  /** The feeder process: its log and the cursor it holds in memory. */
  class IngressPass {
    const table: Table
    var log: Log
    var cursor: Option<nat>

    /** The cursor in memory covers its rows since the start of the process that owns the file. */
    ghost predicate Reaches(c: nat)
      reads this`log
    {
      TakenOf(log).Some? && TakenOf(log).value <= c && Covered(table, TakenOf(log).value, c, log)
    }

    ghost predicate Valid()
      reads this
    {
      Ordered(table) && Lawful(table, log) && (if cursor.Some? then Reaches(cursor.value) else CursorOf(log).None?)
    }

    constructor (table: Table)
      requires Ordered(table)
      ensures Valid() && this.table == table && log == [] && cursor == None
    {
      this.table, log, cursor := table, [], None;
    }

    /** One durable step; it may raise before or after the effect. */
    method Do(e: Event) returns (ok: bool)
      requires Lawful(table, log) && Permitted(table, log, e) && !e.Taken?
      modifies this`log
      ensures Lawful(table, log) && (log == old(log) || log == old(log) + [e]) && (ok ==> log == old(log) + [e])
      ensures forall c :: old(Reaches(c)) ==> Reaches(c)
      ensures ok ==> AcceptedCount(log) == AcceptedCount(old(log)) + (if e.Accepted? then 1 else 0)
      ensures ok && e.CursorSaved? ==> CursorOf(log) == Some(e.cursor)
    {
      hide Lawful, Permitted, TakenOf, CursorOf, AcceptedCount, Covered;
      ok := *;
      var reached: bool := *;
      if ok || reached {
        Stepped(table, log, e);
        ghost var was := log;
        log := log + [e];
        forall c | TakenOf(was).Some? && Covered(table, TakenOf(was).value, c, was)
          ensures Covered(table, TakenOf(was).value, c, log)
        {
          CoveredGrows(table, TakenOf(was).value, c, was, log);
        }
      }
    }

    /** A process without a persist cursor takes the delivery cursor and saves it; the save may raise. */
    method TakeDeliveryCursor(delivery: nat) returns (raised: bool)
      requires Valid() && cursor.None?
      modifies this`log, this`cursor
      ensures Valid() && cursor == Some(delivery) && old(log) + [Taken(delivery)] <= log
      ensures !raised ==> CursorOf(log) == Some(delivery)
    {
      hide Lawful, TakenOf, CursorOf, Changed, AcceptedCount;
      Stepped(table, log, Taken(delivery));
      log, cursor := log + [Taken(delivery)], Some(delivery);
      var ok := Do(CursorSaved(delivery));
      raised := !ok;
    }

    /**
     `persist_new_watcher_messages` on the part of the table that exists now.  A systemic failure stops the pass
     before the row; a rejected row is quarantined and passed; an unexpected error raises and leaves the
     in-memory cursor where it was.
     */
    method PersistNewMessages(visible: nat) returns (raised: bool, last: nat, persisted: nat)
      requires Valid() && cursor.Some? && visible <= |table|
      modifies this`log
      ensures Valid() && old(log) <= log
      ensures !raised ==> Reaches(last) && persisted <= PAGE
      ensures !raised ==> AcceptedCount(log) == AcceptedCount(old(log)) + persisted
      ensures !raised && last != cursor.value ==> CursorOf(log) == Some(last)
      ensures PassEnded(log, |old(log)|, raised, last)
      ensures !raised ==>
                || last == LastOf(FetchNew(table[..visible], cursor.value, PAGE), cursor.value)
                || (log != [] && Last(log).Answered? && Last(log).reply == ServiceDown)
    {
      hide Covered, Lawful, FetchNew, AcceptedCount, CursorOf, Ordered, Dealt, TakenOf, PassGoesOn, PassEnded;
      NothingHeard(log);
      var start := cursor.value;
      var rows := FetchNew(table[..visible], start, PAGE);
      raised, last, persisted := false, start, 0;
      for k := 0 to |rows|
        invariant Valid() && old(log) <= log && !raised && Reaches(start)
        invariant last == (if k == 0 then start else rows[k - 1].id) && Reaches(last)
        invariant persisted <= k && |rows| <= PAGE && AcceptedCount(log) == AcceptedCount(old(log)) + persisted
        invariant k > 0 ==> CursorOf(log) == Some(last)
        invariant PassGoesOn(log, |old(log)|)
      {
        ghost var was := log;
        ghost var at := FetchedIsInTable(table[..visible], start, PAGE, k);
        RowsAscend(table, visible, start, k);
        var reply: IngressReply := *;
        Hear(rows[k].id, reply);
        PassTail(was, rows[k].id, reply, log, |old(log)|, last);
        if reply.ServiceDown? { return; }
        if !Records(reply) { raised := true; return; }
        var ok := TakeRow(rows[k].id, reply);
        PassTail(was, rows[k].id, reply, log, |old(log)|, last);
        if !ok { raised := true; return; }
        NextRowCovered(table, TakenOf(log).value, visible, start, rows, k, last, log);
        last := rows[k].id;
        ok := Do(CursorSaved(last));
        PassTail(was, rows[k].id, reply, log, |old(log)|, last);
        if !ok { raised := true; return; }
        if reply.Inserted? { persisted := persisted + 1; }
      }
      OnThenEnded(log, |old(log)|, last);
    }

    /** The service's answer, which changes nothing by itself. */
    method Hear(row: nat, reply: IngressReply)
      requires Valid()
      modifies this`log
      ensures Valid() && log == old(log) + [Answered(row, reply)] && (forall c :: old(Reaches(c)) ==> Reaches(c))
      ensures AcceptedCount(log) == AcceptedCount(old(log)) && CursorOf(log) == CursorOf(old(log))
    {
      hide Lawful, TakenOf, CursorOf, AcceptedCount, Covered;
      Stepped(table, log, Answered(row, reply));
      ghost var was := log;
      log := log + [Answered(row, reply)];
      forall c | TakenOf(was).Some? && Covered(table, TakenOf(was).value, c, was)
        ensures Covered(table, TakenOf(was).value, c, log)
      {
        CoveredGrows(table, TakenOf(was).value, c, was, log);
      }
    }

    /** The row is taken in, or set aside if the service rejected it. */
    method TakeRow(row: nat, reply: IngressReply) returns (ok: bool)
      requires Valid() && cursor.Some? && cursor.value < row && (reply.Inserted? || reply.RowRejected?)
      modifies this`log
      ensures Valid() && (forall c :: old(Reaches(c)) ==> Reaches(c))
      ensures var e := if reply.Inserted? then Accepted(row) else Quarantined(row);
              (log == old(log) || log == old(log) + [e]) && (ok ==> log == old(log) + [e])
      ensures ok ==> AcceptedCount(log) == AcceptedCount(old(log)) + (if reply.Inserted? then 1 else 0)
      ensures ok ==> Dealt(log, row) && CursorOf(log) == CursorOf(old(log)) && TakenOf(log) == TakenOf(old(log))
    {
      hide Lawful, TakenOf, CursorOf, AcceptedCount, Covered;
      var e := if reply.Inserted? then Accepted(row) else Quarantined(row);
      Stepped(table, log, e);
      ok := Do(e);
    }

    /** The process dies after any k of its steps and starts again from disk. */
    method Restart(k: nat)
      requires Valid() && k <= |log|
      modifies this
      ensures Valid() && log == old(log)[..k] && cursor == CursorOf(log)
    {
      LawfulPrefix(table, log, k);
      log := log[..k];
      cursor := CursorOf(log);
      if cursor.Some? { DurableCursorCovers(table, log); }
    }
  }

  /** The ID of the last row, or the cursor if there is none. */
  function LastOf(rows: seq<Row>, cursor: nat): nat { if rows == [] then cursor else rows[|rows| - 1].id }

  /** A row is taken in or set aside only right after the service said so. */
  predicate Justified(log: Log, from: nat, i: nat)
    requires i < |log|
  {
    && (log[i].Accepted? ==> from < i && log[i - 1] == Answered(log[i].row, Inserted))
    && (log[i].Quarantined? ==> from < i && log[i - 1] == Answered(log[i].row, RowRejected))
  }

  /** An answer about a row has its consequence: it is recorded at once, ends the pass before the row, or raises. */
  predicate Obeyed(log: Log, i: nat, raised: bool, last: nat)
    requires i < |log| && log[i].Answered?
  {
    match log[i].reply
    case Inserted => (i + 1 < |log| && log[i + 1] == Accepted(log[i].row)) || (raised && i + 1 == |log|)
    case RowRejected => (i + 1 < |log| && log[i + 1] == Quarantined(log[i].row)) || (raised && i + 1 == |log|)
    case ServiceDown => !raised && i + 1 == |log| && last < log[i].row
    case Unexpected => raised && i + 1 == |log|
  }

  /** Everything heard since `from` was carried out. */
  ghost predicate PassGoesOn(log: Log, from: nat) {
    && from <= |log| && (forall i :: from <= i < |log| ==> Justified(log, from, i))
    && (forall i :: from <= i < |log| && log[i].Answered? ==>
                      i + 1 < |log| && log[i + 1] == RecordOf(log[i].row, log[i].reply) && Records(log[i].reply))
  }

  /** Everything heard since `from` had its consequence. */
  ghost predicate PassEnded(log: Log, from: nat, raised: bool, last: nat) {
    && from <= |log| && (forall i :: from <= i < |log| ==> Justified(log, from, i))
    && (forall i :: from <= i < |log| && log[i].Answered? ==> Obeyed(log, i, raised, last))
  }

  predicate Records(reply: IngressReply) { reply.Inserted? || reply.RowRejected? }

  function RecordOf(row: nat, reply: IngressReply): Event {
    if reply.Inserted? then Accepted(row) else Quarantined(row)
  }

  lemma NothingHeard(log: Log)
    ensures PassGoesOn(log, |log|)
  {
  }

  lemma OnThenEnded(log: Log, from: nat, last: nat)
    requires PassGoesOn(log, from)
    ensures PassEnded(log, from, false, last)
  {
  }

  /** One more answer, with as much of its consequence as was carried out. */
  lemma PassTail(was: Log, row: nat, reply: IngressReply, now: Log, from: nat, last: nat)
    requires PassGoesOn(was, from)
    requires || now == was + [Answered(row, reply)]
             || (Records(reply) && now == was + [Answered(row, reply)] + [RecordOf(row, reply)])
             || exists c ::
                  Records(reply) && now == was + [Answered(row, reply)] + [RecordOf(row, reply)] + [CursorSaved(c)]
    ensures reply.ServiceDown? && last < row && |now| == |was| + 1 ==> PassEnded(now, from, false, last)
    ensures !reply.ServiceDown? ==> PassEnded(now, from, true, last)
    ensures |now| > |was| + 1 ==> PassGoesOn(now, from)
  {
    assert now[|was|] == Answered(row, reply);
    assert |now| > |was| + 1 ==> now[|was| + 1] == RecordOf(row, reply);
    assert forall i :: 0 <= i < |was| ==> now[i] == was[i];
    forall i | from <= i < |now| ensures Justified(now, from, i) {
      if i < |was| { assert Justified(was, from, i); }
    }
  }

  /** Fetched rows lie beyond the cursor, each beyond the one before. */
  lemma RowsAscend(t: Table, n: nat, cursor: nat, k: nat)
    requires Ordered(t) && n <= |t| && k < |FetchNew(t[..n], cursor, PAGE)|
    ensures var rows := FetchNew(t[..n], cursor, PAGE);
            rows[k].id > cursor && (k > 0 ==> rows[k - 1].id < rows[k].id)
  {
    var all := NewRows(t[..n], cursor, |t[..n]|);
    NewRowsOrdered(t[..n], cursor, |t[..n]|);
    assert all[k] in all;
  }

  /**
   What every durable cursor guarantees, and exactly when it guarantees it for all rows since the very first start.
   */
  ghost predicate DurablyCovered(t: Table, log: Log) {
    CursorOf(log).Some? ==>
      && TakenOf(log).Some? && OriginOf(log).Some?
      && Covered(t, TakenOf(log).value, CursorOf(log).value, log)
      && (Covered(t, OriginOf(log).value, CursorOf(log).value, log) <==>
          Covered(t, OriginOf(log).value, TakenOf(log).value, BeforeTake(log)))
  }

  /**
   Any number of polls over a growing table and any delivery cursors, with exceptions and restarts anywhere: at every
   moment the cursor on disk misses no changed row since its process started, and none since the first start exactly
   when that process did not start past one.  The cursor itself may move back.
   */
  method PollForever(table: Table, polls: nat) returns (log: Log)
    requires Ordered(table)
    ensures Lawful(table, log) && forall k :: 0 <= k <= |log| ==> DurablyCovered(table, log[..k])
  {
    hide Lawful, DurablyCovered, Covered, CursorOf, TakenOf, Ordered;
    var pass := new IngressPass(table);
    for n := 0 to polls
      invariant pass.Valid() && fresh(pass) && pass.table == table
    {
      var visible :| 0 <= visible <= |table|;
      var raised := false;
      if pass.cursor.None? {
        var delivery: nat := *;
        raised := pass.TakeDeliveryCursor(delivery);
      }
      if !raised {
        var last, persisted;
        raised, last, persisted := pass.PersistNewMessages(visible);
        if !raised { pass.cursor := Some(last); }
      }
      var died: bool := *;
      if died {
        var k :| 0 <= k <= |pass.log|;
        pass.Restart(k);
      }
    }
    log := pass.log;
    forall k | 0 <= k <= |log| ensures DurablyCovered(table, log[..k]) {
      LawfulPrefix(table, log, k);
      LawfulIsCovered(table, log[..k]);
    }
  }

  lemma LawfulIsCovered(t: Table, log: Log)
    requires Lawful(t, log)
    ensures DurablyCovered(t, log)
  {
    if CursorOf(log).Some? {
      DurableCursorCovers(t, log);
      CoveredExactly(t, log);
    }
  }
}
