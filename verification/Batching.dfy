/** `select_deliverable_batch`: which watcher rows are handed to one delivery, and when. */
module Batching {
  import opened Basics
  import opened Watcher

  const HOLD := 25.0
  const MAX_MESSAGES := 6
  const MAX_SPAN := 120.0
  const FUTURE_LIMIT := -300.0

  function ChannelOf(r: Row): string { Coalesce(r.channel, "") }

  function Gap(a: Row, b: Row): real {
    if a.receivedAt < b.receivedAt then b.receivedAt - a.receivedAt else a.receivedAt - b.receivedAt
  }

  /** Row n may join a batch of the n rows before it. */
  predicate Joins(rows: seq<Row>, n: nat)
    requires 0 < n < |rows|
  {
    && ChannelOf(rows[n]) == ChannelOf(rows[0]) && Gap(rows[n - 1], rows[n]) <= HOLD
    && n < MAX_MESSAGES && rows[n].receivedAt - rows[0].receivedAt <= MAX_SPAN
  }

  /** The joining rule, in seconds and messages. */
  lemma JoinsMeans(rows: seq<Row>, n: nat)
    requires 0 < n < |rows|
    ensures Joins(rows, n) <==>
            && (rows[n].channel == rows[0].channel ||
                (rows[n].channel in {None, Some("")} && rows[0].channel in {None, Some("")}))
            && -25.0 <= rows[n].receivedAt - rows[n - 1].receivedAt <= 25.0
            && n < 6 && rows[n].receivedAt <= rows[0].receivedAt + 120.0
  {
  }

  /** The first n rows are the longest batch the rules allow. */
  predicate MaximalBatch(rows: seq<Row>, n: nat) {
    && 0 < n <= |rows|
    && (forall k :: 0 < k < n ==> Joins(rows, k))
    && (n < |rows| ==> !Joins(rows, n))
  }

  /** The batch was closed by a cap and not by a pause or another channel. */
  predicate Capped(rows: seq<Row>, n: nat)
    requires 0 < n <= |rows|
  {
    && n < |rows| && ChannelOf(rows[n]) == ChannelOf(rows[0]) && Gap(rows[n - 1], rows[n]) <= HOLD
    && (n >= MAX_MESSAGES || rows[n].receivedAt - rows[0].receivedAt > MAX_SPAN)
  }

  predicate Settled(rows: seq<Row>, n: nat, now: real)
    requires 0 < n <= |rows|
  {
    var age := now - rows[n - 1].receivedAt;
    Capped(rows, n) || age >= HOLD || age <= FUTURE_LIMIT
  }

  /** When a batch is handed on: 25 seconds after its newest row, 5 minutes before it, or as soon as a cap closed it. */
  lemma SettledMeans(rows: seq<Row>, n: nat, now: real)
    requires MaximalBatch(rows, n)
    ensures Settled(rows, n, now) <==>
            || now >= rows[n - 1].receivedAt + 25.0 || now <= rows[n - 1].receivedAt - 300.0
            || (&& n < |rows|
                && (rows[n].channel == rows[0].channel ||
                    (rows[n].channel in {None, Some("")} && rows[0].channel in {None, Some("")}))
                && -25.0 <= rows[n].receivedAt - rows[n - 1].receivedAt <= 25.0)
  {
    if n < |rows| { JoinsMeans(rows, n); }
  }

  /** The batch that `select_deliverable_batch` has to find in these rows. */
  ghost predicate Selected(rows: seq<Row>, now: real, batch: seq<Row>) {
    && batch <= rows
    && (batch == [] <==> rows == [] || exists n: nat :: MaximalBatch(rows, n) && !Settled(rows, n, now))
    && (batch != [] ==> MaximalBatch(rows, |batch|) && Settled(rows, |batch|, now))
  }

  method SelectDeliverableBatch(rows: seq<Row>, now: real) returns (batch: seq<Row>)
    ensures Selected(rows, now, batch)
    ensures batch <= rows && |batch| <= 6
    ensures batch == [] <==> rows == [] || exists n: nat :: MaximalBatch(rows, n) && !Settled(rows, n, now)
    ensures batch != [] ==> MaximalBatch(rows, |batch|) && Settled(rows, |batch|, now)
    ensures rows != [] && now - rows[0].receivedAt >= 145.0 ==> batch != []
  {
    if rows == [] { return []; }
    var n := 1;
    var capped := false;
    while n < |rows|
      invariant 1 <= n <= |rows| && n <= MAX_MESSAGES && !capped
      invariant forall k :: 0 < k < n ==> Joins(rows, k)
    {
      if ChannelOf(rows[n]) != ChannelOf(rows[0]) || Gap(rows[n - 1], rows[n]) > HOLD { break; }
      if n >= MAX_MESSAGES || rows[n].receivedAt - rows[0].receivedAt > MAX_SPAN {
        capped := true;
        break;
      }
      n := n + 1;
    }
    assert MaximalBatch(rows, n) && capped == Capped(rows, n);
    var age := now - rows[n - 1].receivedAt;
    MaximalBatchIsUnique(rows, n);
    if now - rows[0].receivedAt >= HOLD + MAX_SPAN { OldHeadIsDelivered(rows, n, now); }
    if !capped && age < HOLD && age > FUTURE_LIMIT { return []; }
    batch := rows[..n];
  }

  lemma MaximalBatchIsUnique(rows: seq<Row>, n: nat)
    requires MaximalBatch(rows, n)
    ensures forall m: nat :: MaximalBatch(rows, m) ==> m == n
  {
  }

  /** A head that is 145 seconds old is always delivered. */
  lemma OldHeadIsDelivered(rows: seq<Row>, n: nat, now: real)
    requires MaximalBatch(rows, n) && now - rows[0].receivedAt >= HOLD + MAX_SPAN
    ensures Settled(rows, n, now)
    ensures rows[n - 1].receivedAt - rows[0].receivedAt <= MAX_SPAN
  {
    if n > 1 { assert Joins(rows, n - 1); }
  }

  /** Each row joins the rows before it. */
  predicate Contiguous(batch: seq<Row>) { forall k :: 0 < k < |batch| ==> Joins(batch, k) }

  lemma MaximalIsContiguous(rows: seq<Row>, n: nat)
    requires MaximalBatch(rows, n)
    ensures Contiguous(rows[..n])
  {
    forall k | 0 < k < n ensures Joins(rows[..n], k) {
      assert Joins(rows, k);
    }
  }

  /** What was once a chained prefix of the rows is a prefix of every maximal batch of them. */
  lemma ChainIsInBatch(rows: seq<Row>, chain: seq<Row>, n: nat)
    requires MaximalBatch(rows, n) && Contiguous(chain) && chain <= rows
    ensures chain <= rows[..n]
  {
    assert n < |chain| ==> Joins(chain, n);
  }

  /** A chained prefix is the whole batch exactly when no row follows it or the next one does not join. */
  lemma ChainIsBatchExactly(rows: seq<Row>, n: nat, m: nat)
    requires MaximalBatch(rows, m) && 0 < n <= m
    ensures n == m <==> n == |rows| || !Joins(rows, n)
  {
  }

  /**
   A selected batch stays the batch exactly when it was already closed, nothing came, or the first new row does not join
   it.
   */
  lemma BatchStaysExactly(rows: seq<Row>, more: seq<Row>, n: nat)
    requires MaximalBatch(rows, n)
    ensures MaximalBatch(rows + more, n) <==> n < |rows| || more == [] || !Joins(rows + more, n)
  {
    var longer := rows + more;
    forall k | 0 < k < n ensures Joins(longer, k) {
      assert Joins(rows, k);
    }
    if n < |rows| { assert Joins(longer, n) <==> Joins(rows, n); }
  }

  /**
   A batch that was selected once stays the batch as long as no later row is stamped within 25 seconds of its
   newest row; later selections give it again or nothing.
   */
  lemma ReselectionIsStable(rows: seq<Row>, more: seq<Row>, n: nat, m: nat)
    requires MaximalBatch(rows, n)
    requires forall r :: r in more ==> r.receivedAt > rows[n - 1].receivedAt + HOLD
    requires MaximalBatch(rows + more, m)
    ensures m == n && (rows + more)[..m] == rows[..n]
  {
    var longer := rows + more;
    if n == |rows| && more != [] {
      assert longer[n] == more[0] && more[0] in more;
    }
    BatchStaysExactly(rows, more, n);
    MaximalBatchIsUnique(longer, n);
  }

  /** Without that condition the batch can grow: a late row stamped 20 seconds after the newest one joins it. */
  lemma LateStampGrowsBatch()
    ensures exists a: Row, b: Row, now: real ::
              && MaximalBatch([a], 1) && Settled([a], 1, now)
              && MaximalBatch([a, b], 2) && Settled([a, b], 2, now + HOLD)
  {
    var a := Row(1, Some("c"), Some(1), None, None, 0.0);
    var b := Row(2, Some("c"), Some(2), None, None, 20.0);
    assert MaximalBatch([a], 1) && Settled([a], 1, 25.0);
    assert Joins([a, b], 1);
    assert MaximalBatch([a, b], 2) && Settled([a, b], 2, 25.0 + HOLD);
  }
}
