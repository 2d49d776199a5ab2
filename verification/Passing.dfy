/**
 Which rows the delivery cursor passes and what had been done with them: the delivery log read against the
 watcher table.
 */
module Passing {
  import opened Basics
  import opened Watcher
  import opened Batching
  import opened Delivery

  /** The changed rows of the table from the first one of the batch on, each joining those before it. */
  ghost predicate OfTable(table: Table, seen: nat, batch: seq<Row>)
    requires seen <= |table|
  {
    batch != [] && batch[0].id > 0 && Contiguous(batch) && batch <= NewRows(table, batch[0].id - 1, seen)
  }

  /** The batch being worked on under this key. */
  ghost predicate InHand(table: Table, seen: nat, batch: seq<Row>, key: nat)
    requires seen <= |table|
  {
    batch != [] && batch[0].id == key && OfTable(table, seen, batch)
  }

  /** Everything in the log is about the first `seen` rows of the table. */
  ghost predicate Fits(table: Table, seen: nat, log: Log)
    requires seen <= |table|
  {
    forall i :: 0 <= i < |log| ==> EventFits(table, seen, log[i])
  }

  /** Jobs and entries have batches of the table, records keys of it, and a chosen cursor was its latest row. */
  ghost predicate EventFits(table: Table, seen: nat, e: Event)
    requires seen <= |table|
  {
    && (Handles(e) ==> OfTable(table, seen, e.batch) && e.batch[0].id == e.key)
    && (e.PendingSaved? ==> KeySeen(table, seen, e.pending.key))
    && (e.CursorChosen? ==> 0 < e.seen <= seen && e.cursor == table[e.seen - 1].id)
  }

  predicate KeySeen(table: Table, seen: nat, key: nat)
    requires seen <= |table|
  {
    seen > 0 && key <= table[seen - 1].id
  }

  function Fetched(table: Table, seen: nat, cursor: nat): seq<Row>
    requires seen <= |table|
  {
    FetchNew(table[..seen], cursor, PAGE)
  }

  /** The batch that `select_deliverable_batch` finds in a table of `seen` rows. */
  ghost predicate Chosen(table: Table, seen: nat, cursor: nat, batch: seq<Row>)
    requires seen <= |table|
  {
    batch <= Fetched(table, seen, cursor) && MaximalBatch(Fetched(table, seen, cursor), |batch|)
  }

  /** Every changed row between the start and the end of the batch is in the batch. */
  ghost predicate CoversRange(table: Table, start: nat, batch: seq<Row>) {
    forall j :: 0 <= j < |table| && Changed(table, j) && start < table[j].id <= LastId(batch) ==> table[j] in batch
  }

  /**
   What holds when the cursor moves past a batch.  The batch is all the changed rows since the cursor it starts from
   and its own record is settled; HandledPart says what was done with its rows.
   */
  ghost predicate CommitOk(table: Table, before: Log, e: Event)
    requires e.CursorSaved?
  {
    && e.seen <= |table| && Chosen(table, e.seen, e.start, e.batch) && e.batch != []
    && Some(e.start) == (if CursorOf(before).Some? then CursorOf(before) else ChosenOf(before))
    && PendingOf(before).Some? && Terminal(PendingOf(before).value.status)
    && PendingOf(before).value.key == e.batch[0].id
    && CoversRange(table, e.start, e.batch)
    && HandledPart(before, Fetched(table, e.seen, e.start), e.batch, PendingOf(before).value.status.Skipped?)
  }

  /**
   The first n rows were sent or quarantined together and no other row was; only a skipped batch can have n == 0.
   Every row was handled exactly when no row is left over after them: unless the batch was skipped, when the next
   fetched row does not join them; or when each row left over was announced as skipped.
   */
  ghost predicate HandledPart(log: Log, fetched: seq<Row>, batch: seq<Row>, skipped: bool)
    requires batch != []
  {
    var key := batch[0].id;
    var n := Extent(log, key);
    && n <= |batch| <= |fetched| && (n == 0 ==> skipped)
    && (forall r :: r in batch[..n] ==> Sent(log, key, r))
    && (forall r :: r in batch[n..] ==> !Sent(log, key, r))
    && (AllHandled(log, key, batch) <==>
          !LateUnsent(log, fetched, batch, skipped) &&
          !SilentlySkipped(log, batch, skipped))
  }

  /** A row joined the batch after it was sent, and its skip was not announced either. */
  ghost predicate LateUnsent(log: Log, fetched: seq<Row>, batch: seq<Row>, skipped: bool)
    requires batch != []
  {
    var n := Extent(log, batch[0].id);
    !skipped && 0 < n < |fetched| && Joins(fetched, n) && Unannounced(log, batch)
  }

  /** The batch was skipped, and a row that was in none of its jobs was not announced. */
  ghost predicate SilentlySkipped(log: Log, batch: seq<Row>, skipped: bool)
    requires batch != []
  {
    skipped && Unannounced(log, batch)
  }

  /** Some row beyond those that were sent has no announcement. */
  ghost predicate Unannounced(log: Log, batch: seq<Row>)
    requires batch != []
  {
    exists k :: Extent(log, batch[0].id) <= k < |batch| && !Noticed(log, batch[0].id, batch[k])
  }

  // ---------- moves outside any batch ----------

  /** Where a move starts: the cursor file or, while there is none, the cursor that the first process took. */
  function From(before: Log): Option<nat> { if CursorOf(before).Some? then CursorOf(before) else OriginOf(before) }

  /** Where the batch of a move starts; an initialization has no batch. */
  function JumpTo(e: Event): nat
    requires MovesCursor(e)
  {
    if e.CursorInitialized? then e.cursor else e.start
  }

  /** A move of the cursor file.  Only without a cursor file can it jump, or pass a record it does not commit. */
  ghost predicate MoveOk(table: Table, before: Log, e: Event)
    requires MovesCursor(e)
  {
    && From(before).Some? && From(before).value <= JumpTo(e) && e.seen <= |table|
    && (CursorOf(before).Some? ==> e.CursorSaved? && From(before).value == e.start)
    && (if e.CursorSaved? then CommitOk(table, before, e) else InitOk(table, before, e))
  }

  ghost predicate InitOk(table: Table, before: Log, e: Event)
    requires e.CursorInitialized?
  {
    && 0 < e.seen <= |table| && e.cursor == table[e.seen - 1].id
    && (PendingOf(before).Some? ==> PendingOf(before).value.key <= e.cursor)
  }

  ghost predicate Commits(table: Table, log: Log) {
    forall i :: 0 <= i < |log| && MovesCursor(log[i]) ==> MoveOk(table, log[..i], log[i])
  }

  // ---------- batches of the table ----------

  lemma OfTableGrows(table: Table, seen: nat, more: nat, batch: seq<Row>)
    requires seen <= more <= |table| && OfTable(table, seen, batch)
    ensures OfTable(table, more, batch)
  {
    NewRowsPrefix(table, batch[0].id - 1, seen, more);
  }

  lemma FitsGrows(table: Table, seen: nat, more: nat, log: Log)
    requires Ordered(table) && seen <= more <= |table| && Fits(table, seen, log)
    ensures Fits(table, more, log)
  {
    forall i | 0 <= i < |log| ensures EventFits(table, more, log[i]) {
      assert EventFits(table, seen, log[i]);
      if Handles(log[i]) { OfTableGrows(table, seen, more, log[i].batch); }
    }
  }

  lemma {:induction false} PendingSeen(table: Table, seen: nat, log: Log)
    requires seen <= |table| && Fits(table, seen, log) && PendingOf(log).Some?
    ensures KeySeen(table, seen, PendingOf(log).value.key)
  {
    if Last(log).PendingSaved? {
      assert EventFits(table, seen, log[|log| - 1]);
    } else {
      assert forall i :: 0 <= i < |log| - 1 ==> log[..|log| - 1][i] == log[i];
      PendingSeen(table, seen, log[..|log| - 1]);
    }
  }

  lemma FetchedIsPrefix(table: Table, seen: nat, cursor: nat)
    requires seen <= |table|
    ensures Fetched(table, seen, cursor) <= NewRows(table, cursor, seen)
    ensures |NewRows(table, cursor, seen)| <= PAGE ==> Fetched(table, seen, cursor) == NewRows(table, cursor, seen)
    ensures |NewRows(table, cursor, seen)| > PAGE ==> |Fetched(table, seen, cursor)| == PAGE
  {
    NewRowsOfPrefix(table, seen, cursor, seen);
  }

  lemma ChosenEnds(table: Table, seen: nat, cursor: nat, batch: seq<Row>)
    requires Ordered(table) && seen <= |table| && Chosen(table, seen, cursor, batch) && batch != []
    ensures seen > 0 && LastId(batch) <= table[seen - 1].id
  {
    hide NewRows, Changed, Chosen, OfTable, Fetched;
    ChosenIsOfTable(table, seen, cursor, batch);
    NewRowsExact(table, cursor, seen);
    assert batch[|batch| - 1] in NewRows(table, cursor, seen);
  }

  lemma ChosenIsOfTable(table: Table, seen: nat, cursor: nat, batch: seq<Row>)
    requires Ordered(table) && seen <= |table| && Chosen(table, seen, cursor, batch)
    ensures OfTable(table, seen, batch) && batch <= NewRows(table, cursor, seen)
    ensures cursor < batch[0].id <= LastId(batch)
    ensures NewRows(table, batch[0].id - 1, seen) == NewRows(table, cursor, seen)
  {
    hide NewRows, Changed, Joins;
    var rows := NewRows(table, cursor, seen);
    FetchedIsPrefix(table, seen, cursor);
    MaximalIsContiguous(Fetched(table, seen, cursor), |batch|);
    assert batch == Fetched(table, seen, cursor)[..|batch|];
    assert batch[0] == rows[0] && batch[|batch| - 1] == rows[|batch| - 1];
    NewRowsFromHead(table, cursor, seen);
    NewRowsOrdered(table, cursor, seen);
  }

  lemma ChosenCoversRange(table: Table, seen: nat, cursor: nat, batch: seq<Row>)
    requires Ordered(table) && seen <= |table| && Chosen(table, seen, cursor, batch)
    ensures CoversRange(table, cursor, batch)
  {
    hide NewRows, Changed, Joins, Chosen, OfTable;
    ChosenIsOfTable(table, seen, cursor, batch);
    forall j | 0 <= j < |table| && Changed(table, j) && cursor < table[j].id <= LastId(batch)
      ensures table[j] in batch {
      RowIsInBatch(table, seen, cursor, batch, j);
    }
  }

  lemma RowIsInBatch(table: Table, seen: nat, cursor: nat, batch: seq<Row>, j: nat)
    requires Ordered(table) && seen <= |table| && batch != [] && batch <= NewRows(table, cursor, seen)
    requires j < |table| && Changed(table, j) && cursor < table[j].id <= LastId(batch)
    ensures table[j] in batch
  {
    hide NewRows, Changed;
    var rows := NewRows(table, cursor, seen);
    NewRowsExact(table, cursor, seen);
    NewRowsOrdered(table, cursor, seen);
    assert rows[|batch| - 1] == batch[|batch| - 1] && rows[|batch| - 1] in rows;
    var i :| 0 <= i < seen && table[i] == rows[|batch| - 1];
    assert j < seen;
    assert table[j] in rows;
    var m :| 0 <= m < |rows| && rows[m] == table[j];
    assert m < |batch| && batch[m] == table[j];
  }

  // ---------- how much of a batch was handled ----------

  /** Whatever was handled under the key of the chosen batch is the beginning of it. */
  lemma HandledIsPrefix(table: Table, seen: nat, cursor: nat, batch: seq<Row>, part: seq<Row>)
    requires Ordered(table) && seen <= |table| && Chosen(table, seen, cursor, batch)
    requires OfTable(table, seen, part) && part[0].id == batch[0].id
    ensures part <= batch
  {
    hide NewRows, Changed;
    var fetched := Fetched(table, seen, cursor);
    ChosenIsOfTable(table, seen, cursor, batch);
    FetchedIsPrefix(table, seen, cursor);
    assert |part| > 1 ==> Joins(part, |part| - 1);
    assert part <= fetched;
    ChainIsInBatch(fetched, part, |batch|);
  }

  lemma DistinctRows(table: Table, seen: nat, cursor: nat, batch: seq<Row>)
    requires Ordered(table) && seen <= |table| && batch <= NewRows(table, cursor, seen)
    ensures forall i, j :: 0 <= i < j < |batch| ==> batch[i] != batch[j]
  {
    NewRowsOrdered(table, cursor, seen);
  }

  /** Of a chosen batch exactly the first rows were sent or quarantined. */
  lemma SentIsPrefix(table: Table, seen: nat, cursor: nat, batch: seq<Row>, log: Log)
    requires Ordered(table) && seen <= |table| && Chosen(table, seen, cursor, batch) && Fits(table, seen, log)
    ensures var n := Extent(log, batch[0].id);
            && n <= |batch|
            && (forall r :: r in batch[..n] ==> Sent(log, batch[0].id, r))
            && (forall r :: r in batch[n..] ==> !Sent(log, batch[0].id, r))
  {
    hide NewRows, Changed, Joins, Extent, Fetched, OfTable, Ordered;
    var key, n := batch[0].id, Extent(log, batch[0].id);
    ExtentReached(log, key);
    ChosenIsOfTable(table, seen, cursor, batch);
    DistinctRows(table, seen, cursor, batch);
    forall i | 0 <= i < |log| && Handles(log[i]) && log[i].key == key ensures log[i].batch <= batch {
      assert EventFits(table, seen, log[i]);
      HandledIsPrefix(table, seen, cursor, batch, log[i].batch);
    }
    if n > 0 {
      var w :| 0 <= w < |log| && Handles(log[w]) && log[w].key == key && |log[w].batch| == n;
      assert log[w].batch == batch[..n];
    }
    forall r | r in batch[n..] ensures !Sent(log, key, r) {
      NotSentBeyond(log, key, batch, n, r);
    }
  }

  lemma NotSentBeyond(log: Log, key: nat, batch: seq<Row>, n: nat, r: Row)
    requires n <= |batch| && r in batch[n..] && forall i, j :: 0 <= i < j < |batch| ==> batch[i] != batch[j]
    requires forall i :: 0 <= i < |log| && Handles(log[i]) && log[i].key == key ==>
                           log[i].batch <= batch && |log[i].batch| <= n
    ensures !Sent(log, key, r)
  {
    assert forall i :: 0 <= i < |log| && Handles(log[i]) && log[i].key == key ==>
                         log[i].batch == batch[..|log[i].batch|];
  }

  /** The handled part of a chosen batch, and exactly when it is the whole batch. */
  lemma ExtentIsExact(table: Table, seen: nat, cursor: nat, batch: seq<Row>, log: Log, skipped: bool)
    requires Ordered(table) && seen <= |table| && Chosen(table, seen, cursor, batch) && Fits(table, seen, log)
    requires Extent(log, batch[0].id) > 0 || skipped
    ensures HandledPart(log, Fetched(table, seen, cursor), batch, skipped)
  {
    hide NewRows, Changed, Joins, Extent, Fetched, OfTable, Ordered, Sent, Noticed, Fits;
    var key, n := batch[0].id, Extent(log, batch[0].id);
    SentIsPrefix(table, seen, cursor, batch, log);
    if n > 0 { ChainIsBatchExactly(Fetched(table, seen, cursor), n, |batch|); }
    assert AllHandled(log, key, batch) <==> !Unannounced(log, batch) by {
      forall r | r in batch ensures r in batch[..n] || exists k :: n <= k < |batch| && batch[k] == r {
        var k :| 0 <= k < |batch| && batch[k] == r;
        if k < n { assert batch[..n][k] == r; }
      }
      forall k | n <= k < |batch| ensures Handled(log, key, batch[k]) <==> Noticed(log, key, batch[k]) {
        assert batch[n..][k - n] == batch[k];
      }
    }
  }

  /** A permitted cursor move over the chosen batch passes only the batch of a settled record. */
  lemma CommitIsOk(table: Table, log: Log, e: Event)
    requires Ordered(table) && Lawful(log) && e.CursorSaved? && Permitted(log, e)
    requires e.seen <= |table| && Fits(table, e.seen, log) && Chosen(table, e.seen, e.start, e.batch)
    ensures CommitOk(table, log, e)
  {
    hide Ordered, Lawful, Extent, Chosen, Fits, CoversRange, HandledPart, Fetched;
    LawfulIsAttended(log);
    ChosenCoversRange(table, e.seen, e.start, e.batch);
    ExtentIsExact(table, e.seen, e.start, e.batch, log, PendingOf(log).value.status.Skipped?);
  }

  /** Every permitted move of the cursor file. */
  lemma MoveIsOk(table: Table, log: Log, e: Event)
    requires Ordered(table) && Lawful(log) && MovesCursor(e) && Permitted(log, e)
    requires e.seen <= |table| && Fits(table, e.seen, log)
    requires e.CursorSaved? ==> Chosen(table, e.seen, e.start, e.batch)
    ensures MoveOk(table, log, e)
  {
    hide Ordered, Lawful, Chosen, CommitOk;
    LawfulIsAttended(log);
    if e.CursorSaved? {
      CommitIsOk(table, log, e);
    } else {
      assert EventFits(table, e.seen, log[|log| - 1]);
      if PendingOf(log).Some? { PendingSeen(table, e.seen, log); }
    }
  }

  predicate Unsettled(p: Option<Pending>) { p.Some? && !Terminal(p.value.status) }

  /** Event i takes the cursor past the unsettled record on disk. */
  predicate PassesUnsettled(log: Log, i: nat)
    requires i < |log|
  {
    var p := PendingOf(log[..i]);
    Unsettled(p) && !Passed(CursorOf(log[..i]), p.value.key) && Passed(CursorOf(log[..i + 1]), p.value.key)
  }

  /** The cursor passes an unsettled record exactly when it is initialized while that record is on disk. */
  lemma PassesUnsettledExactly(table: Table, log: Log, i: nat)
    requires Lawful(log) && Commits(table, log) && i < |log| && MovesCursor(log[i])
    ensures PassesUnsettled(log, i) <==> log[i].CursorInitialized? && Unsettled(PendingOf(log[..i]))
  {
    LawfulAt(log, i);
    assert log[..i + 1][..i] == log[..i] && Last(log[..i + 1]) == log[i];
    assert MoveOk(table, log[..i], log[i]);
  }

  /** An initialization over any record strands it, unless it is settled and ends at the very cursor that was taken. */
  lemma InitializationStrands(table: Table, log: Log, i: nat)
    requires Lawful(log) && Commits(table, log) && i < |log| && log[i].CursorInitialized?
    requires PendingOf(log[..i]).Some?
    ensures Stuck(log[..i + 1]) <==> !Reconcilable(log[..i + 1])
    ensures PendingOf(log[..i + 1]) == PendingOf(log[..i])
    ensures !Terminal(PendingOf(log[..i]).value.status) ==> Stuck(log[..i + 1])
  {
    assert log[..i + 1][..i] == log[..i] && Last(log[..i + 1]) == log[i];
    assert MoveOk(table, log[..i], log[i]);
  }

  // ---------- over a whole run ----------

  /** Under whatever key, somebody got the row or was told. */
  ghost predicate Touched(log: Log, row: Row) { exists key :: Handled(log, key, row) }

  /**
   Every changed row that the cursor file ever passed, since the first process took a cursor, had been handled by then.
   */
  ghost predicate NoRowLost(table: Table, log: Log) {
    forall i :: 0 <= i < |log| && MovesCursor(log[i]) ==> NoneLost(table, log[..i], log[i])
  }

  ghost predicate NoneLost(table: Table, before: Log, e: Event)
    requires MovesCursor(e)
  {
    && (From(before).Some? ==>
          forall j :: 0 <= j < |table| && Changed(table, j) && From(before).value < table[j].id <= JumpTo(e) ==>
                        Touched(before, table[j]))
    && (e.CursorSaved? && e.batch != [] ==>
          forall j :: 0 <= j < |table| && Changed(table, j) && e.start < table[j].id <= LastId(e.batch) ==>
                        Handled(before, e.batch[0].id, table[j]))
  }

  /** A row joined after its batch was sent, or its skip was not announced. */
  ghost predicate LosesBatchRow(table: Table, before: Log, e: Event)
    requires MovesCursor(e)
  {
    && e.CursorSaved? && e.batch != [] && e.seen <= |table| && PendingOf(before).Some?
    && var skipped := PendingOf(before).value.status.Skipped?;
       LateUnsent(before, Fetched(table, e.seen, e.start), e.batch, skipped) ||
           SilentlySkipped(before, e.batch, skipped)
  }

  /**
   A process that found no cursor file took the latest row although an earlier one had taken a cursor, and between the
   two lies a changed row that neither the quarantine store nor the record on disk accounts for.
   */
  ghost predicate JumpsOverRow(table: Table, before: Log, e: Event)
    requires MovesCursor(e)
  {
    && CursorOf(before).None? && From(before).Some?
    && exists j :: && 0 <= j < |table| && Changed(table, j) && From(before).value < table[j].id <= JumpTo(e)
                   && !OnDisk(before, table[j])
  }

  /** What the files say about a row: an entry of its own, or the record's jobs, entry and notices. */
  ghost predicate OnDisk(before: Log, row: Row) {
    row.id in QuarantineOf(before) ||
    (PendingOf(before).Some? && Handled(before, PendingOf(before).value.key, row))
  }

  ghost predicate NoLossyMove(table: Table, log: Log) {
    forall i :: 0 <= i < |log| && MovesCursor(log[i]) ==>
                  !LosesBatchRow(table, log[..i], log[i]) && !JumpsOverRow(table, log[..i], log[i])
  }

  /** While there is no cursor file, the files account for exactly the rows that were handled. */
  lemma FilesKnowRow(table: Table, seen: nat, log: Log, j: nat)
    requires Ordered(table) && seen <= |table| && Fits(table, seen, log) && j < |table|
    requires Lawful(log) && CursorOf(log).None?
    ensures Touched(log, table[j]) <==> OnDisk(log, table[j])
  {
    hide Lawful, OfTable, NewRows, Changed, CursorOf, Ordered;
    RecordPersists(log);
    var row := table[j];
    if Touched(log, row) {
      var key :| Handled(log, key, row);
      if Sent(log, key, row) {
        var i :| 0 <= i < |log| && Handles(log[i]) && log[i].key == key && row in log[i].batch;
        if !OfRecord(log[i]) { SingleEntry(table, seen, log, i); }
      }
    }
    if row.id in QuarantineOf(log) { EntryIsHandled(table, seen, log, j); }
  }

  /** An entry for one row is found under that row. */
  lemma SingleEntry(table: Table, seen: nat, log: Log, i: nat)
    requires seen <= |table| && Fits(table, seen, log) && i < |log| && log[i].QuarantineSaved? && |log[i].batch| == 1
    ensures log[i].key == log[i].batch[0].id && log[i].key in QuarantineOf(log)
  {
    assert EventFits(table, seen, log[i]);
    EntryStays(log, i, |log|);
    assert log[..|log|] == log;
  }

  lemma {:induction false} EntryStays(log: Log, i: nat, k: nat)
    requires i < k <= |log| && log[i].QuarantineSaved?
    ensures log[i].key in QuarantineOf(log[..k])
    decreases k
  {
    assert log[..k][..k - 1] == log[..k - 1];
    if i < k - 1 { EntryStays(log, i, k - 1); }
  }

  lemma {:induction false} EntryWasSaved(log: Log, key: nat)
    requires key in QuarantineOf(log)
    ensures exists i :: 0 <= i < |log| && log[i].QuarantineSaved? && log[i].key == key
  {
    var init := log[..|log| - 1];
    if !(Last(log).QuarantineSaved? && Last(log).key == key) {
      EntryWasSaved(init, key);
      var i :| 0 <= i < |init| && init[i].QuarantineSaved? && init[i].key == key;
      assert log[i] == init[i];
    }
  }

  lemma EntryIsHandled(table: Table, seen: nat, log: Log, j: nat)
    requires Ordered(table) && seen <= |table| && Fits(table, seen, log) && j < |table| &&
             table[j].id in QuarantineOf(log)
    ensures Handled(log, table[j].id, table[j])
  {
    hide NewRows, Changed, QuarantineOf;
    EntryWasSaved(log, table[j].id);
    var i :| 0 <= i < |log| && log[i].QuarantineSaved? && log[i].key == table[j].id;
    assert EventFits(table, seen, log[i]);
    var head := log[i].batch[0];
    NewRowsExact(table, head.id - 1, seen);
    assert head == NewRows(table, head.id - 1, seen)[0];
    assert head in NewRows(table, head.id - 1, seen);
    var m :| 0 <= m < seen && table[m] == head;
    assert head == table[j];
    assert head in log[i].batch;
  }

  /** The rows of a chosen batch are changed rows of the range it ends. */
  lemma BatchIsRange(table: Table, seen: nat, cursor: nat, batch: seq<Row>)
    requires Ordered(table) && seen <= |table| && Chosen(table, seen, cursor, batch)
    ensures forall r :: r in batch ==>
                          exists j :: && 0 <= j < |table| && table[j] == r && Changed(table, j)
                                      && cursor < table[j].id <= LastId(batch)
  {
    hide Changed, NewRows, Chosen, OfTable;
    ChosenIsOfTable(table, seen, cursor, batch);
    NewRowsExact(table, cursor, seen);
    NewRowsOrdered(table, cursor, seen);
    forall r | r in batch
      ensures exists j :: && 0 <= j < |table| && table[j] == r && Changed(table, j)
                          && cursor < table[j].id <= LastId(batch)
    {
      var m :| 0 <= m < |batch| && batch[m] == r;
      assert r == NewRows(table, cursor, seen)[m] && r in NewRows(table, cursor, seen);
      var j :| 0 <= j < seen && table[j] == r && table[j].id > cursor && Changed(table, j);
      assert NewRows(table, cursor, seen)[|batch| - 1] == batch[|batch| - 1];
      assert table[j].id <= LastId(batch);
    }
  }

  /** A move loses no row exactly when it neither leaves a row of its batch unhandled nor jumps over one. */
  lemma NoneLostExactly(table: Table, seen: nat, before: Log, e: Event)
    requires Ordered(table) && MovesCursor(e) && MoveOk(table, before, e)
    requires Lawful(before) && seen <= |table| && Fits(table, seen, before)
    ensures NoneLost(table, before, e) <==> !LosesBatchRow(table, before, e) && !JumpsOverRow(table, before, e)
  {
    hide Changed, Extent, Fetched, Handled, NewRows, Joins, Chosen, Ordered, Fits, Lawful, Touched, OnDisk, CursorOf,
      LateUnsent, SilentlySkipped;
    if e.CursorSaved? { BatchIsRange(table, e.seen, e.start, e.batch); }
    if CursorOf(before).None? {
      forall j | 0 <= j < |table| ensures Touched(before, table[j]) <==> OnDisk(before, table[j]) {
        FilesKnowRow(table, seen, before, j);
      }
    }
  }

  /** Over a whole log, no changed row is lost exactly when no move leaves one unhandled or jumps over one. */
  lemma NoRowLostExactly(table: Table, seen: nat, log: Log)
    requires Ordered(table) && Lawful(log) && seen <= |table| && Fits(table, seen, log) && Commits(table, log)
    ensures NoRowLost(table, log) <==> NoLossyMove(table, log)
  {
    hide MoveOk, NoneLost, LosesBatchRow, JumpsOverRow, Ordered, Lawful, Fits;
    forall i | 0 <= i < |log| && MovesCursor(log[i])
      ensures NoneLost(table, log[..i], log[i]) <==>
              !LosesBatchRow(table, log[..i], log[i]) && !JumpsOverRow(table, log[..i], log[i])
    {
      LawfulPrefix(log, i);
      FitsPrefix(table, seen, log, i);
      assert MoveOk(table, log[..i], log[i]);
      NoneLostExactly(table, seen, log[..i], log[i]);
    }
  }

  // ---------- the invariants step by step ----------

  lemma FitsPrefix(table: Table, seen: nat, log: Log, k: nat)
    requires seen <= |table| && Fits(table, seen, log) && k <= |log|
    ensures Fits(table, seen, log[..k])
  {
  }

  lemma FitsStep(table: Table, seen: nat, log: Log, e: Event)
    requires seen <= |table| && Fits(table, seen, log) && EventFits(table, seen, e)
    ensures Fits(table, seen, log + [e])
  {
  }

  lemma CommitsStep(table: Table, log: Log, e: Event)
    requires Commits(table, log) && (MovesCursor(e) ==> MoveOk(table, log, e))
    ensures Commits(table, log + [e])
  {
    var longer := log + [e];
    forall i | 0 <= i < |longer| && MovesCursor(longer[i]) ensures MoveOk(table, longer[..i], longer[i]) {
      if i < |log| {
        assert longer[..i] == log[..i] && MoveOk(table, log[..i], log[i]);
      } else {
        assert longer[..i] == log;
      }
    }
  }

  lemma CommitsPrefix(table: Table, log: Log, k: nat)
    requires Commits(table, log) && k <= |log|
    ensures Commits(table, log[..k])
  {
    forall i | 0 <= i < k && MovesCursor(log[..k][i]) ensures MoveOk(table, log[..k][..i], log[..k][i]) {
      assert log[..k][..i] == log[..i] && MoveOk(table, log[..i], log[i]);
    }
  }
}
