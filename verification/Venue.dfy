/**
 The exchange as seen by one canary, and the adapter operation that closes against it.
 Quantities are signed along the authorized side, so a negative position is on the other side.
 */
module Venue {
  import opened Basics
  import opened Protocol
  import opened Payloads
  import opened ExchangeHistory

  /** An order of the close intent as the exchange received it. */
  datatype CloseOrder = CloseOrder(side: OrderSide, quantity: real)

  /**
   openSide: the side of the canary's OPEN; base: the position the canary must protect; openFill: how much of the
   OPEN has filled; closeAsked: the one order of the close intent the exchange accepted; closeFill: how much of it
   filled.
   */
  datatype Exchange = Exchange(
    openSide: OrderSide, base: real, openFill: real, closeAsked: Option<CloseOrder>, closeFill: real) {

    /** An order on the side of the OPEN adds to the position, one on the other side takes from it. */
    function Position(): real {
      base + openFill + if closeAsked.Some? && closeAsked.value.side == openSide then closeFill else -closeFill
    }

    /** Each order fills at most up to its quantity, and no order of the close intent is on the side of the OPEN. */
    predicate Valid() {
      openFill >= 0.0 &&
      if closeAsked.None? then closeFill == 0.0
      else closeAsked.value.side != openSide && 0.0 <= closeFill <= closeAsked.value.quantity <= openFill
    }

    /** A repeated intent is recognised and changes nothing. */
    function Accept(side: OrderSide, quantity: real): Exchange {
      if closeAsked.None? then this.(closeAsked := Some(CloseOrder(side, quantity))) else this
    }
  }

  /** What may happen at the exchange while nobody sends it anything new. */
  predicate Drifts(a: Exchange, b: Exchange) {
    && b.openSide == a.openSide && b.base == a.base && b.closeAsked == a.closeAsked
    && a.openFill <= b.openFill && a.closeFill <= b.closeFill && b.Valid()
  }

  /** What may happen over any number of drifts and close dispatches. */
  predicate Evolves(a: Exchange, b: Exchange) {
    && b.openSide == a.openSide && b.base == a.base
    && a.openFill <= b.openFill && a.closeFill <= b.closeFill && b.Valid()
    && (a.closeAsked.Some? ==> b.closeAsked == a.closeAsked)
  }

  method Wait(a: Exchange) returns (b: Exchange)
    requires a.Valid()
    ensures Drifts(a, b)
  {
    assert Drifts(a, a);
    b :| Drifts(a, b);
  }

  function Magnitude(p: real): real { if p < 0.0 then -p else p }

  function SideOf(p: real, along: PositionSide): PositionSide {
    if p == 0.0 then Flat else if p > 0.0 then along else if along == Long then Short else Long
  }

  /** An exact reading of the exchange position. */
  predicate Reads(x: Exchange, along: PositionSide, quantity: real, side: PositionSide) {
    quantity == Magnitude(x.Position()) && side == SideOf(x.Position(), along)
  }

  /** The request a cleanup builds for its close, as the adapter requires it. */
  predicate WellFormedClose(r: Request, auth: Authorization) {
    && r.SubmitClose? && r.quantity > 0.0 && r.confirmedFill == r.quantity
    && r.intentId == auth.closeIntentId && r.openIntentId == auth.intentId
    && r.clientOrderId == auth.closeId && r.openId == auth.openId
    && r.baselineQuantity >= 0.0 && (r.baselineQuantity == 0.0 <==> r.baselineSide == Flat)
    && r.positionSide in {Long, Short} && r.closingSide == (if r.positionSide == Short then Buy else Sell)
    && (r.positionSide == Long <==> auth.openSide == Buy)
  }

  /** What every acknowledged close shows: the whole close filled and the position reads as the baseline. */
  predicate CloseSeen(x: Exchange, r: Request, auth: Authorization)
    requires r.SubmitClose?
  {
    x.closeFill == r.quantity <= x.openFill && Reads(x, ExpectedSide(auth.openSide), r.baselineQuantity, r.baselineSide)
  }

  /** What it proves when the protected position is not on the other side: also the OPEN filled exactly that much. */
  predicate CloseProven(x: Exchange, r: Request, auth: Authorization)
    requires r.SubmitClose?
  {
    && x.closeFill == r.quantity == x.openFill
    && Reads(x, ExpectedSide(auth.openSide), r.baselineQuantity, r.baselineSide)
  }

  /** One look at the exchange mirror: the exchange then, and the fill it proved. */
  datatype Look = Look(x: Exchange, fill: Option<real>)

  /** What a retry saw of an earlier execution: none yet, or its close and then the OPEN. */
  datatype ExistingClose = ExistingClose(pending: bool, close: Look, open: Option<Look>)

  /** The position is the protected quantity on the protected side. */
  predicate AtBaseline(x: Exchange, r: Request, auth: Authorization)
    requires r.SubmitClose?
  {
    && r.baselineQuantity == (if x.Position() < 0.0 then -x.Position() else x.Position())
    && r.baselineSide == (if x.Position() == 0.0 then Flat
                          else if (x.Position() > 0.0) == (auth.openSide == Buy) then Long else Short)
  }

  /** The OPEN filled exactly the quantity to close, and what lies beyond it is exactly the protected position. */
  predicate SupportsClose(look: Look, r: Request, auth: Authorization)
    requires r.SubmitClose?
  {
    var p := look.x.Position();
    var size := if p < 0.0 then -p else p;
    && look.fill == Some(r.quantity) && size >= r.quantity && size - r.quantity == r.baselineQuantity
    && r.baselineSide == (if size == r.quantity then Flat else if (p > 0.0) == (auth.openSide == Buy) then Long
                          else Short)
  }

  predicate ShowsClose(e: ExistingClose, r: Request, auth: Authorization)
    requires r.SubmitClose?
  {
    && e.close.fill == Some(r.quantity) && AtBaseline(e.close.x, r, auth)
    && e.open.Some? && e.open.value.fill == Some(r.quantity)
  }

  /**
   `_submit_close`.  Each read of the exchange mirror is exact and may be preceded by any drift;
   history evidence may be missing or in conflict.  Retries first look for an existing execution of the
   intent; otherwise the quantity and the baseline are re-proved against the exchange before the
   intent is posted, and the acknowledgement waits for the exact fill and the exact baseline.
   */
  method SubmitCloseAt(x0: Exchange, r: Request, auth: Authorization)
    returns (x: Exchange, acknowledged: bool, ghost existing: Option<ExistingClose>, ghost checked: Option<Look>,
             ghost last: Option<Look>)
    requires x0.Valid() && r.SubmitClose? && x0.openSide == auth.openSide
    ensures Evolves(x0, x)
    ensures acknowledged ==>
              WellFormedClose(r, auth) && r.quantity <= LIVE_CANARY_OPEN_QUANTITY &&
              CloseSeen(x, r, auth)
    ensures acknowledged && x0.base >= 0.0 ==> CloseProven(x, r, auth)
    ensures existing.Some? <==> WellFormedClose(r, auth) && r.quantity <= 0.07 && r.attempt > 1
    ensures checked.Some? <==>
              WellFormedClose(r, auth) && r.quantity <= 0.07 && (r.attempt > 1 ==> existing.value.pending)
    ensures existing.Some? && checked.None? ==> (acknowledged <==> ShowsClose(existing.value, r, auth))
    ensures checked.None? ==> x.closeAsked == x0.closeAsked && (existing.None? ==> !acknowledged)
    ensures checked.Some? ==>
              if SupportsClose(checked.value, r, auth)
              then x.closeAsked == (if checked.value.x.closeAsked.Some? then checked.value.x.closeAsked
                                    else Some(CloseOrder(r.closingSide, r.quantity)))
              else x.closeAsked == checked.value.x.closeAsked && !acknowledged && last.None?
    ensures last.Some? ==> (acknowledged <==> last.value.fill == Some(r.quantity) && AtBaseline(last.value.x, r, auth))
    ensures checked.Some? && last.None? ==> !acknowledged
  {
    hide SupportsClose, AtBaseline, ShowsClose;
    x, acknowledged, existing, checked, last := x0, false, None, None, None;
    if !WellFormedClose(r, auth) || r.quantity > LIVE_CANARY_OPEN_QUANTITY { return; }
    if r.attempt > 1 {
      var concluded;
      ghost var found;
      x, acknowledged, concluded, found := FindExistingClose(x, r, auth);
      existing := Some(found);
      if concluded { return; }
    }
    ghost var look;
    x, acknowledged, look, last := PostClose(x, r, auth);
    checked := Some(look);
  }

  /** The posting branch: the OPEN's fill and the baseline are proved again, then the intent is posted and awaited. */
  method PostClose(x0: Exchange, r: Request, auth: Authorization)
    returns (x: Exchange, acknowledged: bool, ghost checked: Look, ghost last: Option<Look>)
    requires x0.Valid() && WellFormedClose(r, auth) && x0.openSide == auth.openSide
    ensures Evolves(x0, x) && (acknowledged ==> CloseSeen(x, r, auth))
    ensures acknowledged && x0.base >= 0.0 ==> CloseProven(x, r, auth)
    ensures if SupportsClose(checked, r, auth)
            then x.closeAsked == (if checked.x.closeAsked.Some? then checked.x.closeAsked
                                  else Some(CloseOrder(r.closingSide, r.quantity)))
            else x.closeAsked == checked.x.closeAsked && !acknowledged && last.None?
    ensures acknowledged <==> last.Some? && last.value.fill == Some(r.quantity) && AtBaseline(last.value.x, r, auth)
  {
    acknowledged, last := false, None;
    x := Wait(x0);
    var _, seenOpen, _ := ReadFill(x.openFill);
    checked := Look(x, seenOpen);
    if seenOpen != Some(r.quantity) || Magnitude(x.Position()) < r.quantity { return; }
    var along := ExpectedSide(auth.openSide);
    var baseline := Magnitude(x.Position()) - r.quantity;
    var baselineSide := if baseline == 0.0 then Flat else SideOf(x.Position(), along);
    if baseline != r.baselineQuantity || baselineSide != r.baselineSide { return; }
    ghost var before := x;
    x := x.Accept(r.closingSide, r.quantity);
    x, acknowledged, last := AwaitClose(x, r, auth);
    if acknowledged && x0.base >= 0.0 { AckProvesClose(before, x, r, auth); }
  }

  /**
   The polling after the order: it ends with the exact fill at the exact baseline, with a conflict, or without either.
   */
  method AwaitClose(x0: Exchange, r: Request, auth: Authorization)
    returns (x: Exchange, acknowledged: bool, ghost last: Option<Look>)
    requires x0.Valid() && WellFormedClose(r, auth)
    ensures Drifts(x0, x) && (acknowledged ==> CloseSeen(x, r, auth))
    ensures acknowledged <==> last.Some? && last.value.fill == Some(r.quantity) && AtBaseline(last.value.x, r, auth)
  {
    x, acknowledged, last := x0, false, None;
    var along := ExpectedSide(auth.openSide);
    var polls := *;
    while polls > 0
      invariant Drifts(x0, x) && !acknowledged
      invariant last.Some? ==> !(last.value.fill == Some(r.quantity) && AtBaseline(last.value.x, r, auth))
    {
      x := Wait(x);
      var _, seenClose, _ := ReadFill(x.closeFill);
      last := Some(Look(x, seenClose));
      if seenClose.None? { return; }
      if seenClose.value == r.quantity && Reads(x, along, r.baselineQuantity, r.baselineSide) {
        acknowledged := true;
        return;
      }
      polls := polls - 1;
    }
  }

  /** A close acknowledged at the baseline it was checked against proves that the OPEN filled no further. */
  lemma AckProvesClose(before: Exchange, x: Exchange, r: Request, auth: Authorization)
    requires before.Valid() && before.openSide == auth.openSide && before.base >= 0.0 && WellFormedClose(r, auth)
    requires before.openFill == r.quantity && Magnitude(before.Position()) - r.quantity == r.baselineQuantity
    requires Evolves(before, x) && CloseSeen(x, r, auth)
    ensures CloseProven(x, r, auth)
  {
  }

  /** The retry branch: an execution of the intent that already exists is confirmed, or refused, without a new order. */
  method FindExistingClose(x0: Exchange, r: Request, auth: Authorization)
    returns (x: Exchange, acknowledged: bool, concluded: bool, ghost found: ExistingClose)
    requires x0.Valid() && WellFormedClose(r, auth)
    ensures Drifts(x0, x) && (acknowledged ==> concluded && CloseProven(x, r, auth))
    ensures concluded <==> !found.pending
    ensures acknowledged <==> !found.pending && ShowsClose(found, r, auth)
  {
    acknowledged, concluded := false, false;
    x := Wait(x0);
    var pending, seenClose, _ := ReadFill(x.closeFill);
    found := ExistingClose(pending, Look(x, seenClose), None);
    if pending { return; }
    concluded := true;
    var along := ExpectedSide(auth.openSide);
    if seenClose != Some(r.quantity) || !Reads(x, along, r.baselineQuantity, r.baselineSide) { return; }
    x := Wait(x);
    var _, seenOpen, _ := ReadFill(x.openFill);
    found := found.(open := Some(Look(x, seenOpen)));
    acknowledged := seenOpen == Some(r.quantity);
  }

  /**
   A cleanup restarted after its close has filled computes its baseline from the reduced position; the exchange
   ignores the repeated intent, so no acknowledgement of that second request can ever be proved.
   */
  lemma RepeatedCloseIsNeverProven(x0: Exchange, x: Exchange, r: Request, auth: Authorization)
    requires x0.Valid() && Evolves(x0, x) && WellFormedClose(r, auth)
    requires x0.closeFill == x0.openFill == r.quantity && r.baselineQuantity == x0.Position() - r.quantity
    ensures x.Position() >= x0.base && !CloseProven(x, r, auth)
  {
  }
}
