/**
 How the executor reads what the adapter returns.  A reply that any check rejects is
 None; the caller treats it like a call that raised.
 */
module Payloads {
  import opened Basics
  import opened Protocol

  datatype TradeObservation = TradeObservation(status: OpenStatus, filled: real, average: real, loss: real) {
    function Notional(): real { filled * average }
  }

  datatype PositionSnapshot = PositionSnapshot(side: PositionSide, quantity: real, confirmedFill: real)

  datatype FinalState = FinalState(quantity: real, side: PositionSide, gross: real, fees: real, net: real, loss: real)

  predicate NonNegative(x: Option<real>) { x.Some? && x.value >= 0.0 }

  predicate TerminalOpen(s: OpenStatus) { !s.Working? }

  /** An observation never shows more than was authorized, and a fill always has a price. */
  function ParseObservation(r: Reply, auth: Authorization): (o: Option<TradeObservation>)
    ensures o.Some? <==>
              && r.Observation? && r.identityMatches && r.openId == auth.openId && r.observedFresh && r.hashed
              && r.status.Some? && r.filled.Some? && r.average.Some? && r.loss.Some?
              && 0.0 <= r.filled.value <= auth.quantity && r.average.value >= 0.0 && r.loss.value >= 0.0
              && (r.filled.value > 0.0 ==>
                    && r.average.value > 0.0 && r.markFresh && r.monitorHealthy
                    && r.markStampFresh && r.monitorStampFresh)
    ensures o.Some? ==>
              && r.status == Some(o.value.status) && r.filled == Some(o.value.filled)
              && r.average == Some(o.value.average) && r.loss == Some(o.value.loss)
  {
    if !r.Observation? || !r.identityMatches || r.openId != auth.openId || r.status.None? then None
    else if !NonNegative(r.filled) || !NonNegative(r.average) then None
    else if r.filled.value > 0.0 && r.average.value <= 0.0 then None
    else if r.filled.value > auth.quantity then None
    else if r.filled.value > 0.0 && (!r.markFresh || !r.monitorHealthy) then None
    else if !NonNegative(r.loss) || !r.observedFresh then None
    else if r.filled.value > 0.0 && (!r.markStampFresh || !r.monitorStampFresh) then None
    else if !r.hashed then None
    else Some(TradeObservation(r.status.value, r.filled.value, r.average.value, r.loss.value))
  }

  /** A position on the unauthorized side, or a side that contradicts its quantity, is never returned. */
  function ParsePosition(r: Reply, auth: Authorization): (p: Option<PositionSnapshot>)
    ensures p.Some? <==>
              && r.Position? && r.identityMatches && r.fromExchange && r.recent && r.hashed
              && r.quantity.Some? && r.quantity.value >= 0.0
              && r.confirmedFill.Some? && 0.0 <= r.confirmedFill.value <= auth.quantity
              && r.side == Some(if r.quantity.value == 0.0 then Flat else if auth.openSide == Buy then Long else Short)
    ensures p.Some? ==>
              && r.quantity == Some(p.value.quantity) && r.confirmedFill == Some(p.value.confirmedFill)
              && r.side == Some(p.value.side)
  {
    if !r.Position? || !r.identityMatches || !r.fromExchange || !r.recent || r.side.None? then None
    else if !NonNegative(r.quantity) || !NonNegative(r.confirmedFill) then None
    else if r.confirmedFill.value > auth.quantity then None
    else if r.quantity.value == 0.0 && r.side.value != Flat then None
    else if r.quantity.value > 0.0 && r.side.value == Flat then None
    else if r.quantity.value > 0.0 && r.side.value != ExpectedSide(auth.openSide) then None
    else if !r.hashed then None
    else Some(PositionSnapshot(r.side.value, r.quantity.value, r.confirmedFill.value))
  }

  /** Max(0, -net): the loss the final snapshot must state. */
  function LossOf(net: real): real { if net < 0.0 then -net else 0.0 }

  /** The final snapshot is accepted only when the whole safety statement is true of it. */
  function ValidateFinalSnapshot(r: Reply, auth: Authorization, quantity: real,
                                 side: PositionSide): (f: Option<FinalState>)
    ensures f.Some? <==>
              && r.Snapshot? && r.identityMatches && r.fromExchange && r.recent && r.hashed
              && r.regularOrdersZero && r.algoOrdersZero && r.portfolio == auth.portfolio
              && quantity >= 0.0 && (quantity == 0.0 <==> side == Flat) && (r.flat <==> quantity == 0.0)
              && r.quantity == Some(quantity) && r.side == Some(side)
              && r.gross.Some? && r.fees.Some? && r.fees.value >= 0.0 && r.net == Some(r.gross.value - r.fees.value)
              && r.cumulativeLoss == Some(if r.net.value < 0.0 then -r.net.value else 0.0)
    ensures f.Some? ==>
              && f.value.quantity == quantity && f.value.side == side && r.gross == Some(f.value.gross)
              && r.fees == Some(f.value.fees) && r.net == Some(f.value.net) && r.cumulativeLoss == Some(f.value.loss)
  {
    if !r.Snapshot? || !r.identityMatches || !r.fromExchange || !r.recent then None
    else if !r.regularOrdersZero || !r.algoOrdersZero then None
    else if !NonNegative(r.quantity) || quantity < 0.0 then None
    else if quantity == 0.0 && side != Flat then None
    else if quantity != 0.0 && side == Flat then None
    else if r.quantity.value != quantity || r.side != Some(side) then None
    else if r.flat != (quantity == 0.0) then None
    else if r.portfolio != auth.portfolio || !r.hashed then None
    else if r.gross.None? || !NonNegative(r.fees) || r.net.None? || !NonNegative(r.cumulativeLoss) then None
    else if r.net.value != r.gross.value - r.fees.value then None
    else if r.cumulativeLoss.value != LossOf(r.net.value) then None
    else Some(FinalState(quantity, side, r.gross.value, r.fees.value, r.net.value, r.cumulativeLoss.value))
  }

  /** The checks common to every acknowledgement; intentId is the original intent except for CLOSE. */
  predicate AckValid(r: Reply, action: Action, intentId: Id, effect: Effect, clientOrderId: Option<Id>) {
    && r.Ack? && r.identityMatches && r.intentId == intentId
    && r.accepted && r.action == action
    && (clientOrderId.Some? ==> r.clientOrderId == clientOrderId.value)
    && r.effect == effect && r.hashed
  }

  predicate HaltAckValid(r: Reply, auth: Authorization, effect: Effect) {
    AckValid(r, Halt, auth.intentId, effect, None) && r.fromNode && r.halted && r.recent
  }

  /** A close counts only when the venue filled exactly the requested quantity. */
  predicate CloseAckValid(r: Reply, auth: Authorization, effect: Effect, quantity: real) {
    AckValid(r, Close, auth.closeIntentId, effect, Some(auth.closeId)) &&
    r.filledQuantity == Some(quantity) && quantity > 0.0
  }
}
