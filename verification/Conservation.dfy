/**
 The money side of a final snapshot: order and fill projections of both legs are reconciled, every gap
 becomes a warning, and a snapshot without warnings accounts for each fill exactly once.
 */
module Conservation {
  import opened Basics
  import opened Protocol
  import opened Payloads
  import opened Fills

  datatype OrderRow = OrderRow(clientOrderId: Id, filled: real, average: real, quantity: real, price: real)

  datatype PlanSide = PlanLong | PlanShort | PlanUnknown

  /** The operator status of one intent. */
  datatype Projection = Projection(orders: seq<OrderRow>, events: seq<ExecutionEvent>, side: PlanSide)

  datatype Summary = Summary(order: Option<OrderRow>, totals: Totals, identityComplete: bool, ids: set<Id>)
  {
    function OrderFilled(): real { if order.Some? then order.value.filled else 0.0 }
    function OrderAverage(): real { if order.Some? then order.value.average else 0.0 }
    function EventAverage(): real { if totals.quantity > 0.0 then totals.quote / totals.quantity else 0.0 }
    predicate CommissionComplete() { totals.events > 0 && totals.charged == totals.events }
    predicate CurrencyComplete() { totals.events > 0 && totals.usdt == totals.events }
    predicate PnlComplete() { totals.events > 0 && totals.priced == totals.events }
  }

  const EMPTY_SUMMARY := Summary(None, NOTHING, false, {})

  predicate RowFor(row: OrderRow, orderId: Id) { orderId == "" || row.clientOrderId == orderId }

  predicate Malformed(row: OrderRow) {
    row.filled < 0.0 || row.average < 0.0 || row.quantity < 0.0 || row.price < 0.0
  }

  /** Row i is the most filled row of the order, and the last of the equally filled ones. */
  predicate MostFilled(orders: seq<OrderRow>, orderId: Id, i: nat) {
    && i < |orders| && RowFor(orders[i], orderId)
    && (forall j :: 0 <= j < |orders| && RowFor(orders[j], orderId) ==> orders[j].filled <= orders[i].filled)
    && (forall j :: i < j < |orders| && RowFor(orders[j], orderId) ==> orders[j].filled < orders[i].filled)
  }

  ghost predicate BestOf(orders: seq<OrderRow>, orderId: Id, best: Option<OrderRow>) {
    if best.None? then forall row :: row in orders ==> !RowFor(row, orderId)
    else exists i: nat :: MostFilled(orders, orderId, i) && orders[i] == best.value
  }

  /** No matching row is negatively filled, and each that is filled as much as all before it is well formed. */
  predicate OrdersReadable(orders: seq<OrderRow>, orderId: Id) {
    forall i :: 0 <= i < |orders| && RowFor(orders[i], orderId) ==>
                  orders[i].filled >= 0.0 && (HighestSoFar(orders, orderId, i) ==> !Malformed(orders[i]))
  }

  predicate HighestSoFar(orders: seq<OrderRow>, orderId: Id, i: nat)
    requires i < |orders|
  {
    forall j :: 0 <= j < i && RowFor(orders[j], orderId) ==> orders[j].filled <= orders[i].filled
  }

  /** The order loop of `_execution_summary`: the most filled row of the order, the later one on ties. */
  method BestOrder(orders: seq<OrderRow>, orderId: Id) returns (ok: bool, best: Option<OrderRow>)
    ensures ok <==> OrdersReadable(orders, orderId)
    ensures ok ==> BestOf(orders, orderId, best)
  {
    ok, best := true, None;
    ghost var at: nat := 0;
    for i := 0 to |orders|
      invariant best.None? ==> forall row :: row in orders[..i] ==> !RowFor(row, orderId)
      invariant best.Some? ==> at < i && MostFilled(orders[..i], orderId, at) && orders[at] == best.value
      invariant OrdersReadable(orders[..i], orderId)
    {
      var row := orders[i];
      assert orders[..i + 1] == orders[..i] + [row];
      HighestOnPrefix(orders, orderId, i);
      if orderId != "" && row.clientOrderId != orderId { continue; }
      if row.filled < 0.0 { return false, None; }
      if best.None? || row.filled >= best.value.filled {
        if row.average < 0.0 || row.quantity < 0.0 || row.price < 0.0 { return false, None; }
        best, at := Some(row), i;
      }
    }
    assert orders[..|orders|] == orders;
  }

  lemma HighestOnPrefix(orders: seq<OrderRow>, orderId: Id, i: nat)
    requires i < |orders|
    ensures forall k :: 0 <= k < i ==> (HighestSoFar(orders, orderId, k) <==> HighestSoFar(orders[..i], orderId, k))
    ensures forall k :: 0 <= k <= i ==> (HighestSoFar(orders, orderId, k) <==>
              HighestSoFar(orders[..i + 1], orderId, k))
  {
  }

  /** What a summary means for the projection it was computed from. */
  ghost predicate Summarizes(s: Summary, p: Projection, orderId: Id) {
    var fills := FillsFor(p.events, orderId);
    && s.totals == Sum(Distinct(fills)) && Tallies(s.totals, Distinct(fills))
    && (s.identityComplete <==> Identified(fills) && Consistent(fills))
    && s.ids == TradeIds(fills)
    && BestOf(p.orders, orderId, s.order)
  }

  /** `_execution_summary`; an unreadable projection or a soft control-plane error gives the empty summary. */
  method SummarizeLeg(p: Option<Projection>, orderId: Id) returns (degraded: bool, s: Summary)
    ensures degraded <==> p.None? || !OrdersReadable(p.value.orders, orderId)
    ensures degraded ==> s == EMPTY_SUMMARY
    ensures !degraded ==> Summarizes(s, p.value, orderId)
  {
    degraded, s := true, EMPTY_SUMMARY;
    if p.None? { return; }
    var ok, best := BestOrder(p.value.orders, orderId);
    if !ok { return; }
    var fills := CollectFills(p.value.events, orderId);
    var totals, identityComplete, ids := FoldFills(fills);
    degraded, s := false, Summary(best, totals, identityComplete, ids);
  }

  /** The filter of the event loop. */
  method CollectFills(events: seq<ExecutionEvent>, orderId: Id) returns (fills: seq<Fill>)
    ensures fills == FillsFor(events, orderId)
  {
    fills := [];
    for i := 0 to |events|
      invariant fills == FillsFor(events[..i], orderId)
    {
      assert events[..i + 1][..i] == events[..i];
      if events[i].filled && (orderId == "" || events[i].clientOrderId == orderId) {
        fills := fills + [FillOf(events[i])];
      }
    }
    assert events[..|events|] == events;
  }

  /** `_financial_summary_warning` finds nothing missing. */
  predicate LegProven(s: Summary) {
    && s.order.Some? && s.OrderFilled() > 0.0 && s.OrderAverage() > 0.0
    && s.totals.detailed > 0 && s.totals.quantity == s.OrderFilled()
    && s.identityComplete && s.totals.detailed == s.totals.events
    && s.EventAverage() == s.OrderAverage()
    && s.CommissionComplete() && s.CurrencyComplete() && s.PnlComplete()
  }

  datatype FinancialSnapshot = FinancialSnapshot(gross: real, fees: real, net: real, loss: real, warnings: nat)

  /** `_round_trip_financial_warnings`. */
  function CrossLegWarnings(open: Summary, close: Summary): nat {
    (if open.order.Some? && close.order.Some? && open.OrderFilled() > 0.0 && close.OrderFilled() > 0.0 &&
        open.OrderFilled() != close.OrderFilled() then 1 else 0) +
    (if open.ids !! close.ids then 0 else 1)
  }

  /** `_financial_open_side_warning`: only a readable projection can disagree. */
  function OpenSideWarning(p: Option<Projection>, signed: OrderSide): nat {
    if p.None? || (p.value.side == PlanLong && signed == Buy) || (p.value.side == PlanShort && signed == Sell) then 0
    else 1
  }

  /** `_financial_open_plan_warnings`. */
  function OpenPlanWarnings(open: Summary, quantity: real, price: real): nat {
    if open.order.None? then 0
    else (if open.order.value.quantity != quantity then 1 else 0) + (if open.order.value.price != price then 1 else 0)
  }

  /** `_derived_round_trip_pnl`, the fallback when some fill has no realized PnL. */
  function DerivedPnl(side: PlanSide, open: Summary, close: Summary): real {
    if open.OrderFilled() <= 0.0 || open.OrderFilled() != close.OrderFilled() then 0.0
    else if open.OrderAverage() <= 0.0 || close.OrderAverage() <= 0.0 then 0.0
    else if side == PlanShort then (open.OrderAverage() - close.OrderAverage()) * open.OrderFilled()
    else (close.OrderAverage() - open.OrderAverage()) * open.OrderFilled()
  }

  /** The derived PnL is what the closing side brought in minus what the opening side cost, turned round for a short. */
  lemma DerivedPnlIsCashDifference(side: PlanSide, open: Summary, close: Summary)
    ensures var cost, proceeds := open.OrderAverage() * open.OrderFilled(), close.OrderAverage() * close.OrderFilled();
            var comparable := open.OrderFilled() == close.OrderFilled() > 0.0 && open.OrderAverage() > 0.0 &&
                close.OrderAverage() > 0.0;
            DerivedPnl(side, open, close) ==
            if !comparable then 0.0 else if side == PlanShort then cost - proceeds else proceeds - cost
  {
  }

  /** One leg's fills, each listed once, add up to its order row, and each of them is complete. */
  ghost predicate LegConserved(p: Projection, orderId: Id, row: OrderRow) {
    var fills := FillsFor(p.events, orderId);
    && OrdersReadable(p.orders, orderId) && BestOf(p.orders, orderId, Some(row)) && row.filled > 0.0 &&
       row.average > 0.0
    && Identified(fills) && Consistent(fills) && ListsOnce(Distinct(fills), fills) && fills != []
    && SumOf(Distinct(fills), QuantityIn) == row.filled && SumOf(Distinct(fills), QuoteIn) == row.average * row.filled
    && (forall f :: f in Distinct(fills) ==> 0.0 < f.quantity && 0.0 < f.price && f.charged && f.usdt && f.pnl.Some?)
  }

  /** Both legs are conserved, match the signed plan and each other, and share no trade. */
  ghost predicate Conserved(open: Projection, close: Projection, openId: Id, closeId: Id, openRow: OrderRow,
                            closeRow: OrderRow, signedSide: OrderSide, signedQuantity: real, signedPrice: real) {
    && LegConserved(open, openId, openRow) && LegConserved(close, closeId, closeRow)
    && openRow.filled == closeRow.filled && openRow.quantity == signedQuantity && openRow.price == signedPrice
    && open.side == (if signedSide == Buy then PlanLong else PlanShort)
    && TradeIds(FillsFor(open.events, openId)) !! TradeIds(FillsFor(close.events, closeId))
  }

  /** The distinct fills of a leg; an unreadable leg has none. */
  function LegFills(p: Option<Projection>, orderId: Id): seq<Fill> {
    if p.None? || !OrdersReadable(p.value.orders, orderId) then [] else Distinct(FillsFor(p.value.events, orderId))
  }

  predicate AllPriced(fills: seq<Fill>) { fills != [] && forall f :: f in fills ==> f.pnl.Some? }

  /** The arithmetic of `_final_snapshot`. */
  method FinalSnapshot(open: Option<Projection>, close: Option<Projection>, openId: Id, closeId: Id,
                       signedSide: OrderSide, signedQuantity: real, signedPrice: real)
    returns (f: FinancialSnapshot, ghost o: Summary, ghost c: Summary)
    ensures LegRead(o, open, openId) && LegRead(c, close, closeId)
    ensures f.net == f.gross - f.fees && f.fees >= 0.0 && f.loss == if f.net < 0.0 then -f.net else 0.0
    ensures f.fees == SumOf(LegFills(open, openId), FeeIn) + SumOf(LegFills(close, closeId), FeeIn)
    ensures f.gross ==
            if AllPriced(LegFills(open, openId)) && AllPriced(LegFills(close, closeId))
            then SumOf(LegFills(open, openId), PnlIn) + SumOf(LegFills(close, closeId), PnlIn)
            else DerivedPnl(if Unreadable(open, openId) then PlanUnknown else open.value.side, o, c)
    ensures f.warnings == 0 <==>
              && open.Some? && close.Some?
              && exists openRow, closeRow :: Conserved(open.value, close.value, openId, closeId, openRow, closeRow,
                                                       signedSide, signedQuantity, signedPrice)
  {
    hide *;
    var openDegraded, opening := SummarizeLeg(open, openId);
    var closeDegraded, closing := SummarizeLeg(close, closeId);
    o, c := opening, closing;
    var warnings := (if LegProven(opening) then 0 else 1) + (if LegProven(closing) then 0 else 1)
                  + OpenSideWarning(if openDegraded then None else open, signedSide)
                  + OpenPlanWarnings(opening, signedQuantity, signedPrice) + CrossLegWarnings(opening, closing);
    var fees := opening.totals.fees + closing.totals.fees;
    var gross := opening.totals.pnl + closing.totals.pnl;
    if !opening.PnlComplete() || !closing.PnlComplete() {
      gross := DerivedPnl(if openDegraded then PlanUnknown else open.value.side, opening, closing);
    }
    var net := gross - fees;
    f := FinancialSnapshot(gross, fees, net, LossOf(net), warnings);
    LossIsShortfall(net);
    LegAmounts(o, open, openId, openDegraded);
    LegAmounts(c, close, closeId, closeDegraded);
    WarningsExactly(o, c, open, close, openId, closeId, openDegraded, closeDegraded, signedSide, signedQuantity,
                    signedPrice);
  }

  lemma LossIsShortfall(net: real)
    ensures LossOf(net) == if net < 0.0 then -net else 0.0
  {
  }

  /** How a leg is read: a summary of its projection, or an empty one if that is unreadable. */
  ghost predicate LegRead(s: Summary, p: Option<Projection>, orderId: Id) {
    if p.None? || !OrdersReadable(p.value.orders, orderId) then s == EMPTY_SUMMARY else Summarizes(s, p.value, orderId)
  }

  predicate Unreadable(p: Option<Projection>, orderId: Id) { p.None? || !OrdersReadable(p.value.orders, orderId) }

  /** What a leg contributes to the fees and the PnL. */
  lemma LegAmounts(s: Summary, p: Option<Projection>, orderId: Id, degraded: bool)
    requires degraded <==> p.None? || !OrdersReadable(p.value.orders, orderId)
    requires if degraded then s == EMPTY_SUMMARY else Summarizes(s, p.value, orderId)
    ensures s.totals.fees == SumOf(LegFills(p, orderId), FeeIn) >= 0.0
    ensures s.totals.pnl == SumOf(LegFills(p, orderId), PnlIn)
    ensures s.PnlComplete() <==> AllPriced(LegFills(p, orderId))
    ensures LegRead(s, p, orderId) && (Unreadable(p, orderId) <==> degraded)
  {
    hide Distinct, FillsFor, Sum, OrdersReadable;
    if !degraded {
      FeesNonNegative(p.value.events, orderId);
      CountsAll(LegFills(p, orderId), IsPriced);
    }
  }

  /** A leg raises no warning of its own exactly when it is conserved. */
  lemma LegProvenExactly(s: Summary, p: Projection, orderId: Id)
    requires OrdersReadable(p.orders, orderId) && Summarizes(s, p, orderId)
    ensures LegProven(s) ==> s.order.Some? && LegConserved(p, orderId, s.order.value)
    ensures forall row :: LegConserved(p, orderId, row) ==> LegProven(s) && s.order == Some(row)
  {
    hide Distinct, FillsFor, Sum, OrdersReadable, BestOf, Identified, Consistent, ListsOnce, SumOf, CountOf, HasDetails;
    var fills := FillsFor(p.events, orderId);
    var once := Distinct(fills);
    CompleteExactly(s.totals, once);
    DistinctEmptiness(fills);
    if Identified(fills) && Consistent(fills) { DistinctListsOnce(fills); }
    forall row | LegConserved(p, orderId, row) ensures LegProven(s) && s.order == Some(row) {
      BestIsUnique(p.orders, orderId, s.order, Some(row));
    }
  }

  /** The counts say that each fill is complete exactly when each fill is. */
  lemma CompleteExactly(t: Totals, fills: seq<Fill>)
    requires Tallies(t, fills)
    ensures t.events == |fills|
    ensures t.detailed == t.charged == t.usdt == t.priced == t.events <==>
            forall f :: f in fills ==> 0.0 < f.quantity && 0.0 < f.price && f.charged && f.usdt && f.pnl.Some?
  {
    hide SumOf, CountOf;
    CountsAll(fills, HasDetails);
    CountsAll(fills, IsCharged);
    CountsAll(fills, IsUsdt);
    CountsAll(fills, IsPriced);
  }

  lemma {:induction false} DistinctEmptiness(fills: seq<Fill>)
    ensures Distinct(fills) == [] <==> fills == []
  {
    if fills != [] { DistinctEmptiness(fills[..|fills| - 1]); }
  }

  lemma BestIsUnique(orders: seq<OrderRow>, orderId: Id, a: Option<OrderRow>, b: Option<OrderRow>)
    requires BestOf(orders, orderId, a) && BestOf(orders, orderId, b)
    ensures a == b
  {
  }

  /** No warning is raised exactly when the round trip is conserved. */
  lemma WarningsExactly(o: Summary, c: Summary, open: Option<Projection>, close: Option<Projection>, openId: Id,
                        closeId: Id, openDegraded: bool, closeDegraded: bool, signedSide: OrderSide,
                        signedQuantity: real, signedPrice: real)
    requires openDegraded <==> open.None? || !OrdersReadable(open.value.orders, openId)
    requires if openDegraded then o == EMPTY_SUMMARY else Summarizes(o, open.value, openId)
    requires closeDegraded <==> close.None? || !OrdersReadable(close.value.orders, closeId)
    requires if closeDegraded then c == EMPTY_SUMMARY else Summarizes(c, close.value, closeId)
    ensures (if LegProven(o) then 0 else 1) + (if LegProven(c) then 0 else 1)
            + OpenSideWarning(if openDegraded then None else open, signedSide)
            + OpenPlanWarnings(o, signedQuantity, signedPrice) + CrossLegWarnings(o, c) == 0 <==>
              && open.Some? && close.Some?
              && exists openRow, closeRow :: Conserved(open.value, close.value, openId, closeId, openRow, closeRow,
                                                       signedSide, signedQuantity, signedPrice)
  {
    hide Distinct, FillsFor, Sum, OrdersReadable, Summarizes, LegConserved, TradeIds;
    if !openDegraded { LegProvenExactly(o, open.value, openId); }
    if !closeDegraded { LegProvenExactly(c, close.value, closeId); }
    if !openDegraded && !closeDegraded {
      SummaryIds(o, open.value, openId);
      SummaryIds(c, close.value, closeId);
      if LegProven(o) && LegProven(c) {
        assert Conserved(open.value, close.value, openId, closeId, o.order.value, c.order.value, signedSide,
                         signedQuantity, signedPrice) <==>
               && OpenSideWarning(open, signedSide) == 0 && OpenPlanWarnings(o, signedQuantity, signedPrice) == 0
               && CrossLegWarnings(o, c) == 0;
      }
    }
    if open.Some? { ConservedIsReadable(open.value, openId); }
    if close.Some? { ConservedIsReadable(close.value, closeId); }
  }

  lemma SummaryIds(s: Summary, p: Projection, orderId: Id)
    requires Summarizes(s, p, orderId)
    ensures s.ids == TradeIds(FillsFor(p.events, orderId))
  {
  }

  lemma ConservedIsReadable(p: Projection, orderId: Id)
    ensures forall row :: LegConserved(p, orderId, row) ==> OrdersReadable(p.orders, orderId) && row.filled > 0.0
  {
  }

  /** The executor's arithmetic checks accept every snapshot the adapter can compute. */
  lemma AdapterArithmeticIsAccepted(f: FinancialSnapshot, r: Reply, auth: Authorization, quantity: real,
                                    side: PositionSide)
    requires f.net == f.gross - f.fees && f.fees >= 0.0 && f.loss == LossOf(f.net)
    requires r.Snapshot? && r.identityMatches && r.fromExchange && r.recent && r.hashed
    requires r.regularOrdersZero && r.algoOrdersZero && r.portfolio == auth.portfolio
    requires r.quantity == Some(quantity) && r.side == Some(side) && r.flat == (quantity == 0.0)
    requires quantity >= 0.0 && (quantity == 0.0 <==> side == Flat)
    requires r.gross == Some(f.gross) && r.fees == Some(f.fees) && r.net == Some(f.net) &&
             r.cumulativeLoss == Some(f.loss)
    ensures ValidateFinalSnapshot(r, auth, quantity, side) ==
            Some(FinalState(quantity, side, f.gross, f.fees, f.net, f.loss))
  {
  }

  lemma FeesNonNegative(events: seq<ExecutionEvent>, orderId: Id)
    ensures Sum(Distinct(FillsFor(events, orderId))).fees >= 0.0
  {
    var fills := FillsFor(events, orderId);
    FillsCarryValidCommissions(events, orderId);
    DistinctIsSubset(fills);
    SumFees(Distinct(fills));
  }

  lemma {:induction false} FillsCarryValidCommissions(events: seq<ExecutionEvent>, orderId: Id)
    ensures forall f :: f in FillsFor(events, orderId) ==> f.commission >= 0.0
  {
    if events != [] { FillsCarryValidCommissions(events[..|events| - 1], orderId); }
  }

  lemma {:induction false} DistinctIsSubset(fills: seq<Fill>)
    ensures forall f :: f in Distinct(fills) ==> f in fills
  {
    if fills != [] { DistinctIsSubset(fills[..|fills| - 1]); }
  }

  lemma {:induction false} SumFees(fills: seq<Fill>)
    requires forall f :: f in fills ==> f.commission >= 0.0
    ensures Sum(fills).fees >= 0.0
  {
    if fills != [] { SumFees(fills[..|fills| - 1]); }
  }
}
