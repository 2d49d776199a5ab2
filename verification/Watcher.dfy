/**
 The watcher's append-only message table and the query that feeds on it: `fetch_new` skips a row whose
 text and media repeat the previous version of the same message.
 */
module Watcher {
  import opened Basics

  datatype Row = Row(
    id: nat, channel: Option<string>, messageId: Option<int>,
    text: Option<string>, media: Option<string>, receivedAt: real)

  type Table = seq<Row>

  const PAGE := 50

  function Coalesce<T>(x: Option<T>, otherwise: T): T { if x.Some? then x.value else otherwise }

  predicate SameMessage(a: Row, b: Row) {
    Coalesce(a.channel, "") == Coalesce(b.channel, "") && Coalesce(a.messageId, -1) == Coalesce(b.messageId, -1)
  }

  predicate SameContent(a: Row, b: Row) {
    Coalesce(a.text, "") == Coalesce(b.text, "") && Coalesce(a.media, "") == Coalesce(b.media, "")
  }

  /** One channel and one message number, an absent one counting as "" and -1. */
  predicate OneMessage(a: Row, b: Row) {
    && (a.channel == b.channel || (a.channel in {None, Some("")} && b.channel in {None, Some("")}))
    && (a.messageId == b.messageId || (a.messageId in {None, Some(-1)} && b.messageId in {None, Some(-1)}))
  }

  /** The same text and the same media, an absent one counting as empty. */
  predicate OneContent(a: Row, b: Row) {
    && (a.text == b.text || (a.text in {None, Some("")} && b.text in {None, Some("")}))
    && (a.media == b.media || (a.media in {None, Some("")} && b.media in {None, Some("")}))
  }

  lemma SameMeansOne(a: Row, b: Row)
    ensures (SameMessage(a, b) <==> OneMessage(a, b)) && (SameContent(a, b) <==> OneContent(a, b))
  {
  }

  /** A row is skipped exactly when the latest earlier row of its message has the same text and media. */
  lemma ChangedExactly(t: Table, i: nat)
    requires i < |t|
    ensures !Changed(t, i) <==>
            exists p :: 0 <= p < i && OneMessage(t[p], t[i]) && OneContent(t[p], t[i]) &&
                        forall k :: p < k < i ==> !OneMessage(t[k], t[i])
  {
    forall k | 0 <= k < i
      ensures SameMessage(t[k], t[i]) <==> OneMessage(t[k], t[i])
      ensures SameContent(t[k], t[i]) <==> OneContent(t[k], t[i])
    {
      SameMeansOne(t[k], t[i]);
    }
  }

  /** Row IDs are assigned in insertion order. */
  predicate Ordered(t: Table) {
    forall i, j :: 0 <= i < j < |t| ==> t[i].id < t[j].id
  }

  /** The latest row before position n that belongs to the message of `row`. */
  function PreviousVersion(t: Table, row: Row, n: nat): (p: Option<nat>)
    requires n <= |t|
    ensures p.Some? ==> p.value < n && SameMessage(t[p.value], row)
    ensures forall k :: (if p.Some? then p.value + 1 else 0) <= k < n ==> !SameMessage(t[k], row)
  {
    if n == 0 then None
    else if SameMessage(t[n - 1], row) then Some(n - 1)
    else PreviousVersion(t, row, n - 1)
  }

  /** The NOT EXISTS condition: new, or different from the previous version. */
  predicate Changed(t: Table, i: nat)
    requires i < |t|
  {
    var p := PreviousVersion(t, t[i], i);
    p.None? || !SameContent(t[p.value], t[i])
  }

  /** The changed rows after the cursor among the first n rows. */
  function NewRows(t: Table, cursor: nat, n: nat): (rows: seq<Row>)
    requires n <= |t|
    ensures |rows| <= n
  {
    if n == 0 then []
    else
      var rows := NewRows(t, cursor, n - 1);
      if t[n - 1].id > cursor && Changed(t, n - 1) then rows + [t[n - 1]] else rows
  }

  /** `fetch_new`. */
  function FetchNew(t: Table, cursor: nat, limit: nat): (page: seq<Row>)
    ensures |page| <= limit
  {
    var rows := NewRows(t, cursor, |t|);
    if |rows| <= limit then rows else rows[..limit]
  }

  // ---------- no edit is lost ----------

  /**
   At every point of the table, the latest fetched row of a message has the content of its latest row:
   what the feeder saw last of each message is what the message says now.
   */
  lemma {:induction false} NoEditLost(t: Table, i: nat) returns (j: nat)
    requires i < |t|
    ensures j <= i && Changed(t, j) && SameMessage(t[j], t[i]) && SameContent(t[j], t[i])
    ensures OneMessage(t[j], t[i]) && OneContent(t[j], t[i])
    ensures forall k :: j < k <= i && SameMessage(t[k], t[i]) ==> !Changed(t, k)
    decreases i
  {
    if Changed(t, i) {
      j := i;
    } else {
      hide OneMessage, OneContent;
      hide Changed, PreviousVersion, SameMessage, SameContent;
      var p := UnchangedHasPrevious(t, i);
      j := NoEditLost(t, p);
      SameContentTransfers(t[j], t[p], t[i]);
      SameMessageTransfers(t[j], t[p], t[i]);
      NothingChangedSince(t, i, p, j);
      SameMeansOne(t[j], t[i]);
    }
  }

  lemma UnchangedHasPrevious(t: Table, i: nat) returns (p: nat)
    requires i < |t| && !Changed(t, i)
    ensures p < i && SameMessage(t[p], t[i]) && SameContent(t[p], t[i])
    ensures forall k :: p < k < i ==> !SameMessage(t[k], t[i])
  {
    hide SameMessage, SameContent;
    p := PreviousVersion(t, t[i], i).value;
  }

  lemma NothingChangedSince(t: Table, i: nat, p: nat, j: nat)
    requires j <= p < i < |t| && !Changed(t, i) && SameMessage(t[p], t[i])
    requires forall k :: j < k <= p && SameMessage(t[k], t[p]) ==> !Changed(t, k)
    requires forall k :: p < k < i ==> !SameMessage(t[k], t[i])
    ensures forall k :: j < k <= i && SameMessage(t[k], t[i]) ==> !Changed(t, k)
  {
    hide Changed, PreviousVersion, SameMessage;
    forall k | j < k <= i && SameMessage(t[k], t[i]) ensures !Changed(t, k) {
      if k <= p { SameMessageTransfers(t[k], t[p], t[i]); }
    }
  }

  lemma SameMessageTransfers(a: Row, b: Row, c: Row)
    requires SameMessage(b, c)
    ensures SameMessage(a, b) <==> SameMessage(a, c)
  {
  }

  lemma SameContentTransfers(a: Row, b: Row, c: Row)
    requires SameContent(a, b) && SameContent(b, c)
    ensures SameContent(a, c)
  {
  }

  /** Appending rows never changes whether an earlier row is fetched. */
  lemma {:induction false} ChangedIsStable(t: Table, more: Table, i: nat)
    requires i < |t|
    ensures Changed(t + more, i) <==> Changed(t, i)
  {
    PreviousIsStable(t, more, t[i], i);
  }

  lemma {:induction false} PreviousIsStable(t: Table, more: Table, row: Row, n: nat)
    requires n <= |t|
    ensures PreviousVersion(t + more, row, n) == PreviousVersion(t, row, n)
  {
    if n > 0 { PreviousIsStable(t, more, row, n - 1); }
  }

  // ---------- paging ----------

  /** Every row of the answer is a changed row after the cursor, and every such row is in the answer. */
  lemma {:induction false} NewRowsExact(t: Table, cursor: nat, n: nat)
    requires n <= |t|
    ensures forall i :: 0 <= i < n && t[i].id > cursor && Changed(t, i) ==> t[i] in NewRows(t, cursor, n)
    ensures forall r :: r in NewRows(t, cursor, n) ==>
                          exists i :: 0 <= i < n && t[i] == r && t[i].id > cursor && Changed(t, i)
  {
    hide Changed;
    if n > 0 { NewRowsExact(t, cursor, n - 1); }
  }

  lemma {:induction false} NewRowsOrdered(t: Table, cursor: nat, n: nat)
    requires n <= |t| && Ordered(t)
    ensures Ordered(NewRows(t, cursor, n))
    ensures forall r :: r in NewRows(t, cursor, n) ==> r.id > cursor && (n > 0 && r.id <= t[n - 1].id)
  {
    if n > 0 {
      NewRowsOrdered(t, cursor, n - 1);
    }
  }

  lemma {:induction false} NewRowsPrefix(t: Table, cursor: nat, n: nat, m: nat)
    requires n <= m <= |t|
    ensures NewRows(t, cursor, n) <= NewRows(t, cursor, m)
    decreases m
  {
    if n < m { NewRowsPrefix(t, cursor, n, m - 1); }
  }

  /** Asking again from the k-th answered row gives exactly the rest of the answer. */
  lemma {:induction false} ResumeFromRow(t: Table, cursor: nat, k: nat, n: nat)
    requires Ordered(t) && n <= |t| && 1 <= k <= |NewRows(t, cursor, |t|)|
    ensures var rows := NewRows(t, cursor, n);
            NewRows(t, NewRows(t, cursor, |t|)[k - 1].id, n) == if |rows| <= k then [] else rows[k..]
    decreases n
  {
    hide Changed, Ordered;
    if n > 0 {
      ResumeFromRow(t, cursor, k, n - 1);
      ResumePoint(t, cursor, k, n);
    }
  }

  /** Row n - 1 lies after the k-th answered row exactly when k rows were answered before it. */
  lemma {:induction false} ResumePoint(t: Table, cursor: nat, k: nat, n: nat)
    requires Ordered(t) && 0 < n <= |t| && 1 <= k <= |NewRows(t, cursor, |t|)|
    ensures NewRows(t, cursor, |t|)[k - 1].id > cursor
    ensures t[n - 1].id > cursor && Changed(t, n - 1) ==>
              (t[n - 1].id > NewRows(t, cursor, |t|)[k - 1].id <==> |NewRows(t, cursor, n - 1)| >= k)
  {
    hide Changed;
    var all := NewRows(t, cursor, |t|);
    NewRowsOrdered(t, cursor, |t|);
    assert all[k - 1] in all;
    if t[n - 1].id > cursor && Changed(t, n - 1) {
      NewRowsPrefix(t, cursor, n, |t|);
      var i := |NewRows(t, cursor, n - 1)|;
      assert NewRows(t, cursor, n)[i] == t[n - 1] == all[i];
    }
  }

  /** The rows that exist later do not change the answer about the first n. */
  lemma {:induction false} NewRowsOfPrefix(t: Table, seen: nat, cursor: nat, n: nat)
    requires n <= seen <= |t|
    ensures NewRows(t[..seen], cursor, n) == NewRows(t, cursor, n)
  {
    if n > 0 {
      NewRowsOfPrefix(t, seen, cursor, n - 1);
      assert t[..seen] + t[seen..] == t;
      ChangedIsStable(t[..seen], t[seen..], n - 1);
    }
  }

  /** Asking from just before the first answered row gives the same answer. */
  lemma {:induction false} NewRowsFromHead(t: Table, cursor: nat, n: nat)
    requires Ordered(t) && n <= |t| && NewRows(t, cursor, n) != []
    ensures var key := NewRows(t, cursor, n)[0].id;
            key > cursor && NewRows(t, key - 1, n) == NewRows(t, cursor, n)
  {
    hide Changed, NewRows;
    var rows := NewRows(t, cursor, n);
    NewRowsOrdered(t, cursor, n);
    assert rows[0] in rows;
    forall i | 0 <= i < n && cursor < t[i].id <= rows[0].id - 1 ensures !Changed(t, i) {
      HeadIsFirst(t, cursor, n, i);
    }
    NothingSkipped(t, cursor, rows[0].id - 1, n);
  }

  lemma {:induction false} HeadIsFirst(t: Table, cursor: nat, n: nat, i: nat)
    requires Ordered(t) && i < n <= |t| && NewRows(t, cursor, n) != [] && cursor < t[i].id
    ensures Changed(t, i) ==> NewRows(t, cursor, n)[0].id <= t[i].id
  {
    hide Changed, NewRows;
    var rows := NewRows(t, cursor, n);
    NewRowsExact(t, cursor, n);
    NewRowsOrdered(t, cursor, n);
    if Changed(t, i) {
      assert t[i] in rows;
      var j :| 0 <= j < |rows| && rows[j] == t[i];
    }
  }

  lemma {:induction false} NothingSkipped(t: Table, cursor: nat, later: nat, n: nat)
    requires n <= |t| && cursor <= later
    requires forall i :: 0 <= i < n && cursor < t[i].id <= later ==> !Changed(t, i)
    ensures NewRows(t, later, n) == NewRows(t, cursor, n)
  {
    hide Changed;
    if n > 0 { NothingSkipped(t, cursor, later, n - 1); }
  }

  /** Between one fetched row and the next there is no changed row. */
  lemma {:induction false} NothingBetween(t: Table, cursor: nat, limit: nat, k: nat, i: nat)
    requires Ordered(t) && k < |FetchNew(t, cursor, limit)| && i < |t| && Changed(t, i)
    requires (if k == 0 then cursor else FetchNew(t, cursor, limit)[k - 1].id) < t[i].id <= FetchNew(t, cursor,
               limit)[k].id
    ensures t[i] == FetchNew(t, cursor, limit)[k]
  {
    hide Changed, NewRows;
    var all, rows := NewRows(t, cursor, |t|), FetchNew(t, cursor, limit);
    assert rows[k] == all[k] && (k > 0 ==> rows[k - 1] == all[k - 1]);
    NewRowsOrdered(t, cursor, |t|);
    assert k > 0 ==> all[k - 1] in all;
    NewRowsExact(t, cursor, |t|);
    assert t[i] in all;
    var j :| 0 <= j < |all| && all[j] == t[i];
  }

  /** A fetched row is a row of the table. */
  lemma {:induction false} FetchedIsInTable(t: Table, cursor: nat, limit: nat, k: nat) returns (at: nat)
    requires k < |FetchNew(t, cursor, limit)|
    ensures at < |t| && t[at] == FetchNew(t, cursor, limit)[k] && t[at].id > cursor && Changed(t, at)
  {
    hide Changed;
    NewRowsExact(t, cursor, |t|);
    var row := FetchNew(t, cursor, limit)[k];
    assert row in NewRows(t, cursor, |t|);
    at :| 0 <= at < |t| && t[at] == row && t[at].id > cursor && Changed(t, at);
  }

  /** The pages a reader gets when it always continues from the last row it was given. */
  function Pages(t: Table, cursor: nat, limit: nat, rounds: nat): seq<Row>
    requires limit > 0
    decreases rounds
  {
    if rounds == 0 then []
    else
      var page := FetchNew(t, cursor, limit);
      if page == [] then [] else page + Pages(t, page[|page| - 1].id, limit, rounds - 1)
  }

  /** Paging yields every changed row once, in order, for any page size. */
  lemma {:induction false} PagingIsExact(t: Table, cursor: nat, limit: nat, rounds: nat)
    requires Ordered(t) && limit > 0 && rounds > |NewRows(t, cursor, |t|)|
    ensures Pages(t, cursor, limit, rounds) == NewRows(t, cursor, |t|)
    decreases rounds
  {
    hide Changed, NewRows, Ordered;
    var rows := NewRows(t, cursor, |t|);
    var page := FetchNew(t, cursor, limit);
    if page != [] {
      var next := page[|page| - 1].id;
      ResumeFromRow(t, cursor, |page|, |t|);
      assert rows == page + NewRows(t, next, |t|);
      PagingIsExact(t, next, limit, rounds - 1);
    }
  }
}
