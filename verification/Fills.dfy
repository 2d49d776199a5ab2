/**
 The execution projection of one order: `_execution_summary` folds fill events that may be repeated,
 reordered or incomplete into totals and completeness flags.
 */
module Fills {
  import opened Basics
  import opened Protocol

  /** The commission field of an event with the three places that may name its currency ("" when absent). */
  datatype RawCommission = RawCommission(amount: real, embedded: string, field: string, legacy: string)

  datatype ExecutionEvent = ExecutionEvent(
    clientOrderId: Id, filled: bool, tradeId: Id, quantity: real, price: real,
    commission: Option<RawCommission>, pnl: Option<real>)

  /** What `_execution_summary` reads of a fill: its trade ID and its fingerprint. */
  datatype Fill = Fill(
    tradeId: Id, quantity: real, price: real,
    charged: bool, commission: real, currency: string, usdt: bool, pnl: Option<real>)

  function Abs(x: real): real { if x < 0.0 then -x else x }

  function Named(currencies: seq<string>): set<string> {
    set c | c in currencies && c != ""
  }

  /** `_commission_value`: an amount counts only when every stated currency is USDT. */
  function CommissionOf(raw: Option<RawCommission>): (c: (bool, real, string, bool))
    ensures c.0 == raw.Some?
    ensures c.3 <==> raw.Some? && (raw.value.embedded != "" || raw.value.field != "" || raw.value.legacy != "") &&
                     (raw.value.embedded in {"", "USDT"} && raw.value.field in {"", "USDT"} &&
                      raw.value.legacy in {"", "USDT"})
    ensures c.3 ==> c.1 == if raw.value.amount < 0.0 then -raw.value.amount else raw.value.amount
    ensures !c.3 ==> c.1 == 0.0
    ensures c.2 == if raw.None? then "" else if raw.value.embedded != "" then raw.value.embedded
                   else if raw.value.field != "" then raw.value.field else raw.value.legacy
  {
    if raw.None? then (false, 0.0, "", false)
    else
      var r := raw.value;
      var named := Named([r.embedded, r.field, r.legacy]);
      var complete := named == {"USDT"};
      var currency := if r.embedded != "" then r.embedded else if r.field != "" then r.field else r.legacy;
      assert forall c :: c in named <==> c != "" && (c == r.embedded || c == r.field || c == r.legacy);
      assert complete <==> "USDT" in named && forall c :: c in named ==> c == "USDT";
      assert r.embedded != "" ==> r.embedded in named;
      assert r.field != "" ==> r.field in named;
      assert r.legacy != "" ==> r.legacy in named;
      (true, if complete then Abs(r.amount) else 0.0, currency, complete)
  }

  function FillOf(e: ExecutionEvent): Fill {
    var c := CommissionOf(e.commission);
    Fill(e.tradeId, e.quantity, e.price, c.0, c.1, c.2, c.3, e.pnl)
  }

  /** The fills of one client order, in event order; "" selects every order. */
  function FillsFor(events: seq<ExecutionEvent>, orderId: Id): seq<Fill> {
    if events == [] then []
    else
      var init, e := FillsFor(events[..|events| - 1], orderId), events[|events| - 1];
      if e.filled && (orderId == "" || e.clientOrderId == orderId) then init + [FillOf(e)] else init
  }

  /** The fill an event reports: its own trade, quantity, price and PnL, and a fee that counts only in USDT. */
  predicate Reports(e: ExecutionEvent, f: Fill) {
    && f.tradeId == e.tradeId && f.quantity == e.quantity && f.price == e.price && f.pnl == e.pnl
    && (f.charged, f.commission, f.currency, f.usdt) == CommissionOf(e.commission)
  }

  predicate OfOrder(e: ExecutionEvent, orderId: Id) { e.filled && (orderId == "" || e.clientOrderId == orderId) }

  /** The fills of an order are exactly the fills that its own fill events report. */
  lemma {:induction false} FillsForExactly(events: seq<ExecutionEvent>, orderId: Id)
    ensures forall f :: f in FillsFor(events, orderId) ==>
              exists e :: e in events && OfOrder(e, orderId) && Reports(e, f)
    ensures forall e :: e in events && OfOrder(e, orderId) ==>
              exists f :: f in FillsFor(events, orderId) && Reports(e, f)
  {
    forall f | f in FillsFor(events, orderId) ensures exists e :: e in events && OfOrder(e, orderId) && Reports(e, f) {
      var e := ReportedBy(events, orderId, f);
    }
    forall e | e in events && OfOrder(e, orderId) ensures exists f :: f in FillsFor(events, orderId) && Reports(e, f) {
      ReportKept(events, orderId, e);
      assert Reports(e, FillOf(e));
    }
  }

  /** Every fill event gives its one fill, in its place. */
  lemma {:induction false} FillsForConcat(a: seq<ExecutionEvent>, b: seq<ExecutionEvent>, orderId: Id)
    ensures FillsFor(a + b, orderId) == FillsFor(a, orderId) + FillsFor(b, orderId)
    ensures |b| == 1 ==> |FillsFor(b, orderId)| == if OfOrder(b[0], orderId) then 1 else 0
  {
    if b == [] {
      assert a + b == a;
    } else {
      assert (a + b)[..|a + b| - 1] == a + b[..|b| - 1];
      FillsForConcat(a, b[..|b| - 1], orderId);
    }
  }

  lemma {:induction false} ReportedBy(events: seq<ExecutionEvent>, orderId: Id, f: Fill) returns (e: ExecutionEvent)
    requires f in FillsFor(events, orderId)
    ensures e in events && OfOrder(e, orderId) && Reports(e, f)
  {
    var init, last := events[..|events| - 1], events[|events| - 1];
    if f in FillsFor(init, orderId) {
      e := ReportedBy(init, orderId, f);
    } else {
      e := last;
    }
  }

  lemma {:induction false} ReportKept(events: seq<ExecutionEvent>, orderId: Id, e: ExecutionEvent)
    requires e in events && OfOrder(e, orderId)
    ensures FillOf(e) in FillsFor(events, orderId)
  {
    hide FillOf;
    var init, last := events[..|events| - 1], events[|events| - 1];
    if e != last {
      assert e in init;
      ReportKept(init, orderId, e);
    }
  }

  // ---------- the set-based meaning ----------

  datatype Totals = Totals(
    quantity: real, quote: real, fees: real, pnl: real,
    events: nat, charged: nat, usdt: nat, priced: nat, detailed: nat)

  const NOTHING := Totals(0.0, 0.0, 0.0, 0.0, 0, 0, 0, 0, 0)

  predicate Detailed(f: Fill) { f.quantity > 0.0 && f.price > 0.0 }

  function Add(t: Totals, f: Fill): Totals {
    Totals(t.quantity + if Detailed(f) then f.quantity else 0.0,
           t.quote + if Detailed(f) then f.quantity * f.price else 0.0,
           t.fees + if f.charged then f.commission else 0.0,
           t.pnl + if f.pnl.Some? then f.pnl.value else 0.0,
           t.events + 1,
           t.charged + if f.charged then 1 else 0,
           t.usdt + if f.charged && f.usdt then 1 else 0,
           t.priced + if f.pnl.Some? then 1 else 0,
           t.detailed + if Detailed(f) then 1 else 0)
  }

  function Sum(fills: seq<Fill>): Totals {
    if fills == [] then NOTHING else Add(Sum(fills[..|fills| - 1]), fills[|fills| - 1])
  }

  // ---------- what the totals are, column by column ----------

  function SumOf(fills: seq<Fill>, value: Fill -> real): real {
    if fills == [] then 0.0 else SumOf(fills[1..], value) + value(fills[0])
  }

  function CountOf(fills: seq<Fill>, counted: Fill -> bool): nat {
    if fills == [] then 0 else CountOf(fills[1..], counted) + if counted(fills[0]) then 1 else 0
  }

  predicate HasDetails(f: Fill) { 0.0 < f.quantity && 0.0 < f.price }
  function QuantityIn(f: Fill): real { if HasDetails(f) then f.quantity else 0.0 }
  function QuoteIn(f: Fill): real { if HasDetails(f) then f.price * f.quantity else 0.0 }
  function FeeIn(f: Fill): real { if f.charged then f.commission else 0.0 }
  function PnlIn(f: Fill): real { match f.pnl case Some(pnl) => pnl case None => 0.0 }
  predicate IsCharged(f: Fill) { f.charged }
  predicate IsUsdt(f: Fill) { f.charged && f.usdt }
  predicate IsPriced(f: Fill) { f.pnl != None }

  /** Each total is the sum, or the count, of its own column over these fills. */
  predicate Tallies(t: Totals, fills: seq<Fill>) {
    && t.quantity == SumOf(fills, QuantityIn) && t.quote == SumOf(fills, QuoteIn)
    && t.fees == SumOf(fills, FeeIn) && t.pnl == SumOf(fills, PnlIn)
    && t.events == |fills| && t.charged == CountOf(fills, IsCharged) && t.usdt == CountOf(fills, IsUsdt)
    && t.priced == CountOf(fills, IsPriced) && t.detailed == CountOf(fills, HasDetails)
  }

  lemma {:induction false} SumOfAppend(fills: seq<Fill>, f: Fill, value: Fill -> real)
    ensures SumOf(fills + [f], value) == SumOf(fills, value) + value(f)
  {
    if fills == [] {
      assert ([f])[1..] == [];
    } else {
      assert (fills + [f])[1..] == fills[1..] + [f];
      SumOfAppend(fills[1..], f, value);
    }
  }

  lemma {:induction false} CountOfAppend(fills: seq<Fill>, f: Fill, counted: Fill -> bool)
    ensures CountOf(fills + [f], counted) == CountOf(fills, counted) + if counted(f) then 1 else 0
  {
    if fills == [] {
      assert ([f])[1..] == [];
    } else {
      assert (fills + [f])[1..] == fills[1..] + [f];
      CountOfAppend(fills[1..], f, counted);
    }
  }

  lemma {:induction false} CountsAll(fills: seq<Fill>, counted: Fill -> bool)
    ensures CountOf(fills, counted) <= |fills|
    ensures CountOf(fills, counted) == |fills| <==> forall f :: f in fills ==> counted(f)
  {
    if fills != [] {
      CountsAll(fills[1..], counted);
      assert fills == [fills[0]] + fills[1..];
    }
  }

  lemma {:induction false} SumTallies(fills: seq<Fill>)
    ensures Tallies(Sum(fills), fills)
  {
    if fills != [] {
      var init, last := fills[..|fills| - 1], fills[|fills| - 1];
      SumTallies(init);
      assert fills == init + [last];
      SumOfAppend(init, last, QuantityIn);
      SumOfAppend(init, last, QuoteIn);
      SumOfAppend(init, last, FeeIn);
      SumOfAppend(init, last, PnlIn);
      CountOfAppend(init, last, IsCharged);
      CountOfAppend(init, last, IsUsdt);
      CountOfAppend(init, last, IsPriced);
      CountOfAppend(init, last, HasDetails);
    }
  }

  predicate Mentions(fills: seq<Fill>, tradeId: Id) {
    exists f :: f in fills && f.tradeId == tradeId
  }

  /** Each identified trade once, at its first report, and every unidentified fill. */
  function Distinct(fills: seq<Fill>): seq<Fill> {
    if fills == [] then []
    else
      var init, f := fills[..|fills| - 1], fills[|fills| - 1];
      if f.tradeId != "" && Mentions(init, f.tradeId) then Distinct(init) else Distinct(init) + [f]
  }

  function TradeIds(fills: seq<Fill>): set<Id> {
    set f | f in fills && f.tradeId != "" :: f.tradeId
  }

  /** Reports of one trade never contradict each other. */
  predicate Consistent(fills: seq<Fill>) {
    forall f, g :: f in fills && g in fills && f.tradeId != "" && f.tradeId == g.tradeId ==> f == g
  }

  predicate Identified(fills: seq<Fill>) {
    forall f :: f in fills ==> f.tradeId != ""
  }

  // ---------- the loop ----------

  /** The event loop of `_execution_summary`: the totals are those of the distinct trades, column by column. */
  method FoldFills(fills: seq<Fill>) returns (t: Totals, identityComplete: bool, ids: set<Id>)
    ensures t == Sum(Distinct(fills)) && Tallies(t, Distinct(fills))
    ensures identityComplete <==> Identified(fills) && Consistent(fills)
    ensures ids == TradeIds(fills)
  {
    hide *;
    EmptyFold();
    t, identityComplete := NOTHING, true;
    var seen: map<Id, Fill> := map[];
    for i := 0 to |fills|
      invariant t == Sum(Distinct(fills[..i]))
      invariant identityComplete <==> Identified(fills[..i]) && Consistent(fills[..i])
      invariant seen.Keys == TradeIds(fills[..i])
      invariant forall id :: id in seen ==> seen[id] in fills[..i] && seen[id].tradeId == id
    {
      var f := fills[i];
      ghost var before := fills[..i];
      assert fills[..i + 1] == before + [f];
      if f.tradeId == "" || f.tradeId !in seen {
        FirstReport(before, f);
        t := Add(t, f);
        if f.tradeId == "" { identityComplete := false; } else { seen := seen[f.tradeId := f]; }
      } else {
        SeenAgain(before, f, seen[f.tradeId]);
        if seen[f.tradeId] != f { identityComplete := false; }
      }
    }
    assert fills[..|fills|] == fills;
    SumTallies(Distinct(fills));
    ids := seen.Keys;
  }

  lemma EmptyFold()
    ensures Sum(Distinct([])) == NOTHING && Identified([]) && Consistent([]) && TradeIds([]) == {}
  {
  }

  lemma {:induction false} FirstReport(before: seq<Fill>, f: Fill)
    requires f.tradeId == "" || f.tradeId !in TradeIds(before)
    ensures Sum(Distinct(before + [f])) == Add(Sum(Distinct(before)), f)
    ensures Identified(before + [f]) <==> Identified(before) && f.tradeId != ""
    ensures Consistent(before + [f]) <==> Consistent(before)
    ensures TradeIds(before + [f]) == TradeIds(before) + if f.tradeId != "" then {f.tradeId} else {}
  {
    var after := before + [f];
    assert after[..|before|] == before;
    assert forall g :: g in after <==> g in before || g == f;
    assert f.tradeId != "" ==> !Mentions(before, f.tradeId);
    var d := Distinct(before);
    assert (d + [f])[..|d|] == d;
  }

  lemma {:induction false} SeenAgain(before: seq<Fill>, f: Fill, first: Fill)
    requires f.tradeId != "" && first in before && first.tradeId == f.tradeId
    ensures Sum(Distinct(before + [f])) == Sum(Distinct(before))
    ensures Identified(before + [f]) <==> Identified(before)
    ensures Consistent(before + [f]) <==> Consistent(before) && first == f
    ensures TradeIds(before + [f]) == TradeIds(before)
  {
    var after := before + [f];
    assert after[..|before|] == before;
    assert forall g :: g in after <==> g in before || g == f;
  }

  // ---------- order and replay do not matter ----------

  /** How often a fill counts: an identified trade once, an unidentified fill as often as reported. */
  function Weight(fills: seq<Fill>, f: Fill): nat {
    if f.tradeId == "" then multiset(fills)[f] else if f in fills then 1 else 0
  }

  lemma {:induction false} DistinctWeights(fills: seq<Fill>, f: Fill)
    requires Consistent(fills)
    ensures multiset(Distinct(fills))[f] == Weight(fills, f)
  {
    if fills != [] {
      var init, last := fills[..|fills| - 1], fills[|fills| - 1];
      assert fills == init + [last];
      assert forall g :: g in init ==> g in fills;
      DistinctWeights(init, f);
      assert last in fills;
      if last.tradeId != "" && Mentions(init, last.tradeId) {
        var g :| g in init && g.tradeId == last.tradeId;
        assert g == last;
      }
    }
  }

  /** Every fill of an identified, consistent report is listed exactly once. */
  ghost predicate ListsOnce(once: seq<Fill>, fills: seq<Fill>) {
    forall f :: multiset(once)[f] == if f in fills then 1 else 0
  }

  lemma {:induction false} DistinctListsOnce(fills: seq<Fill>)
    requires Identified(fills) && Consistent(fills)
    ensures ListsOnce(Distinct(fills), fills)
  {
    forall f ensures multiset(Distinct(fills))[f] == if f in fills then 1 else 0 {
      DistinctWeights(fills, f);
      assert f in fills <==> multiset(fills)[f] > 0;
    }
  }

  lemma AddCommutes(t: Totals, f: Fill, g: Fill)
    ensures Add(Add(t, f), g) == Add(Add(t, g), f)
  {
  }

  /** Taking any one fill out of a sum. */
  lemma {:induction false} SumWithout(fills: seq<Fill>, i: nat)
    requires i < |fills|
    ensures Sum(fills) == Add(Sum(fills[..i] + fills[i + 1..]), fills[i])
    decreases |fills|
  {
    hide Add;
    var init, last := fills[..|fills| - 1], fills[|fills| - 1];
    if i == |fills| - 1 {
      assert fills[..i] + fills[i + 1..] == init;
    } else {
      var rest := fills[..i] + fills[i + 1..];
      SumWithout(init, i);
      assert rest[..|rest| - 1] == init[..i] + init[i + 1..];
      assert rest[|rest| - 1] == last;
      AddCommutes(Sum(init[..i] + init[i + 1..]), fills[i], last);
    }
  }

  /** A sum depends only on which fills occur how often. */
  lemma {:induction false} SumIsOfMultiset(a: seq<Fill>, b: seq<Fill>)
    requires multiset(a) == multiset(b)
    ensures Sum(a) == Sum(b)
    decreases |a|
  {
    if a == [] {
      assert |multiset(b)| == 0;
    } else {
      var last := a[|a| - 1];
      assert a == a[..|a| - 1] + [last];
      assert last in multiset(b);
      var i :| 0 <= i < |b| && b[i] == last;
      var rest := b[..i] + b[i + 1..];
      assert b == b[..i] + [last] + b[i + 1..];
      assert multiset(rest) == multiset(b) - multiset{last};
      assert multiset(a[..|a| - 1]) == multiset(a) - multiset{last};
      SumIsOfMultiset(a[..|a| - 1], rest);
      SumWithout(b, i);
    }
  }

  /**
   Two consistent reports that name the same trades, and the same unidentified fills equally often, have the
   same totals and the same trade IDs: order and replay are irrelevant.
   */
  lemma {:induction false} TotalsAreOfDistinctTrades(a: seq<Fill>, b: seq<Fill>)
    requires Consistent(a) && Consistent(b)
    requires forall f :: Weight(a, f) == Weight(b, f)
    ensures Sum(Distinct(a)) == Sum(Distinct(b))
    ensures TradeIds(a) == TradeIds(b) && (Identified(a) <==> Identified(b))
  {
    forall f ensures multiset(Distinct(a))[f] == multiset(Distinct(b))[f] {
      DistinctWeights(a, f);
      DistinctWeights(b, f);
      assert Weight(a, f) == Weight(b, f);
    }
    SumIsOfMultiset(Distinct(a), Distinct(b));
    assert forall f :: f in a <==> Weight(a, f) > 0;
    assert forall f :: f in b <==> Weight(b, f) > 0;
    assert forall f :: f in a <==> f in b;
  }

  /** Reordering the events changes nothing. */
  lemma {:induction false} OrderDoesNotMatter(a: seq<Fill>, b: seq<Fill>)
    requires Consistent(a) && multiset(a) == multiset(b)
    ensures Consistent(b)
    ensures Sum(Distinct(a)) == Sum(Distinct(b)) && TradeIds(a) == TradeIds(b) && (Identified(a) <==> Identified(b))
  {
    assert forall f :: f in a <==> f in multiset(a);
    assert forall f :: f in b <==> f in multiset(b);
    TotalsAreOfDistinctTrades(a, b);
  }

  /** Re-inserting an identified fill anywhere changes nothing. */
  lemma {:induction false} ReplayDoesNotMatter(fills: seq<Fill>, i: nat, f: Fill)
    requires Consistent(fills) && i <= |fills| && f in fills && f.tradeId != ""
    ensures var again := fills[..i] + [f] + fills[i..];
            && Consistent(again) && Sum(Distinct(again)) == Sum(Distinct(fills))
            && TradeIds(again) == TradeIds(fills) && (Identified(again) <==> Identified(fills))
  {
    hide Sum, Distinct;
    var again := fills[..i] + [f] + fills[i..];
    assert fills == fills[..i] + fills[i..];
    assert forall g :: g in again <==> g in fills;
    assert multiset(again) == multiset(fills) + multiset{f};
    TotalsAreOfDistinctTrades(fills, again);
  }

  /** Two reports that the totals cannot tell apart: they may differ in details of a fill that is not counted anyway. */
  predicate CountAlike(f: Fill, g: Fill) {
    && (if Detailed(f) then Detailed(g) && f.quantity == g.quantity && f.price == g.price else !Detailed(g))
    && f.charged == g.charged && (f.charged ==> f.commission == g.commission && f.usdt == g.usdt)
    && f.pnl == g.pnl
  }

  /**
   Swapping two reports of a trade changes the totals exactly when they count differently; the flag catches each of
   them.
   */
  lemma {:induction false} ContradictionMakesOrderMatter(f: Fill, g: Fill)
    requires f.tradeId != "" && f.tradeId == g.tradeId
    ensures Sum(Distinct([f, g])) == Add(NOTHING, f) && Sum(Distinct([g, f])) == Add(NOTHING, g)
    ensures Sum(Distinct([f, g])) == Sum(Distinct([g, f])) <==> CountAlike(f, g)
    ensures Consistent([f, g]) <==> f == g
  {
    hide Add, Sum, Distinct, CountAlike;
    FirstReportCounts(f, g);
    FirstReportCounts(g, f);
    AddTellsApart(f, g);
    assert f in [f, g] && g in [f, g];
  }

  /** Of two reports of one trade only the first counts. */
  lemma {:induction false} FirstReportCounts(f: Fill, g: Fill)
    requires f.tradeId != "" && f.tradeId == g.tradeId
    ensures Sum(Distinct([f, g])) == Add(NOTHING, f)
  {
    hide Add;
    var pair := [f, g];
    assert pair[..1] == [f];
    assert f in [f];
    assert Mentions([f], g.tradeId);
    OneReport(f);
  }

  lemma {:induction false} OneReport(f: Fill)
    ensures Distinct([f]) == [f] && Sum([f]) == Add(NOTHING, f)
  {
    hide Add;
    assert [f][..0] == [];
  }

  lemma AddTellsApart(f: Fill, g: Fill)
    ensures Add(NOTHING, f) == Add(NOTHING, g) <==> CountAlike(f, g)
  {
    if Detailed(f) && Detailed(g) && f.quantity == g.quantity && f.quantity * f.price == g.quantity * g.price {
      assert f.quantity * (f.price - g.price) == 0.0;
      assert f.price == g.price;
    }
  }
}
