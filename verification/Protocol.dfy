/**
 The vocabulary of a canary round trip: the signed authorization, the requests the
 executor sends to its adapter and the raw replies it may get back.
 Decimals are reals.  A reply field that would not parse is None.
 */
module Protocol {
  import opened Basics

  type Id = string

  datatype Mode = DryRun | Live
  datatype OrderSide = Buy | Sell
  datatype PositionSide = Long | Short | Flat
  datatype OpenStatus = Filled | Expired | Canceled | Rejected | Working

  const MAX_OPEN_NOTIONAL: real := 12.0
  const LOSS_CAP: real := 1.5
  const LIVE_CANARY_OPEN_QUANTITY: real := 0.07

  datatype Authorization = Authorization(
    target: Id, permitId: Id, releaseId: Id, intentId: Id, openId: Id,
    closeIntentId: Id, closeId: Id, digest: Id, openSide: OrderSide,
    quantity: real, limitPrice: real, maxNotional: real, maxLoss: real,
    portfolio: Id, signed: bool)

  /**
   The fields every journal access compares with the durable record.  The digest covers the whole permit; the two
   limits it covers are spelled out beside it.
   */
  datatype Identity = Identity(
    mode: Mode, target: Id, permitId: Id, releaseId: Id,
    intentId: Id, openId: Id, closeId: Id, digest: Id, maxNotional: real, maxLoss: real)

  function IdentityOf(auth: Authorization, mode: Mode): Identity {
    Identity(mode, auth.target, auth.permitId, auth.releaseId,
             auth.intentId, auth.openId, auth.closeId, auth.digest, auth.maxNotional, auth.maxLoss)
  }

  /** A permit is known by its own fields, each in its place. */
  lemma IdentityNamesPermit(auth: Authorization, mode: Mode)
    ensures var who := IdentityOf(auth, mode);
            && who.mode == mode && who.target == auth.target && who.permitId == auth.permitId
            && who.releaseId == auth.releaseId && who.intentId == auth.intentId && who.openId == auth.openId
            && who.closeId == auth.closeId && who.digest == auth.digest
            && who.maxNotional == auth.maxNotional && who.maxLoss == auth.maxLoss
  {
  }

  datatype Action =
    | NoAction | Resume | Refresh | Open | Observe | CancelOpen
    | QueryPosition | Close | FinalSnapshot | Halt | PublishEvidence

  /** A deterministic side-effect ID: a hash of the authorization digest and a label. */
  datatype Effect = Effect(digest: Id, action: Action, index: nat)

  datatype Request =
    | ResumeTrading(effect: Effect)
    | RefreshEvidence(effect: Effect)
    | SubmitOpen(clientOrderId: Id, openingSide: OrderSide, openQuantity: real, limitPrice: real, effect: Effect)
    | ObserveOpen(openId: Id, index: nat, effect: Effect)
    | CancelOpenOrder(openId: Id, attempt: nat, effect: Effect)
    | ReadPosition(openId: Id, attempt: nat, effect: Effect)
    | SubmitClose(intentId: Id, openIntentId: Id, clientOrderId: Id, openId: Id,
                  closingSide: OrderSide, positionSide: PositionSide,
                  quantity: real, confirmedFill: real,
                  baselineQuantity: real, baselineSide: PositionSide,
                  attempt: nat, effect: Effect)
    | TakeFinalSnapshot(attempt: nat, baselineQuantity: real, baselineSide: PositionSide, effect: Effect)
    | HaltTrading(attempt: nat, effect: Effect)

  /** What an adapter call gives back; Raised covers errors, timeouts and lost acknowledgements. */
  datatype Reply =
    | Raised
    | Ack(identityMatches: bool, accepted: bool, action: Action, clientOrderId: Id, effect: Effect,
          intentId: Id, filledQuantity: Option<real>, completed: bool, fromNode: bool,
          halted: bool, recent: bool, hashed: bool)
    | Observation(identityMatches: bool, openId: Id, status: Option<OpenStatus>,
                  filled: Option<real>, average: Option<real>, markFresh: bool, monitorHealthy: bool,
                  loss: Option<real>, observedFresh: bool, markStampFresh: bool, monitorStampFresh: bool,
                  hashed: bool)
    | Position(identityMatches: bool, fromExchange: bool, recent: bool, side: Option<PositionSide>,
               quantity: Option<real>, confirmedFill: Option<real>, hashed: bool)
    | Snapshot(identityMatches: bool, fromExchange: bool, recent: bool,
               regularOrdersZero: bool, algoOrdersZero: bool,
               quantity: Option<real>, side: Option<PositionSide>, flat: bool, portfolio: Id, hashed: bool,
               gross: Option<real>, fees: Option<real>, net: Option<real>, cumulativeLoss: Option<real>)

  function ExpectedSide(side: OrderSide): PositionSide {
    if side == Sell then Short else Long
  }

  function CloseSide(side: PositionSide): OrderSide {
    if side == Long then Sell else Buy
  }
}
