/**
 `AccountALiveTradeExecutor`: one canary round trip, its cleanup, its HALT and its evidence,
 against a host whose ledger writes and adapter calls may fail at any point.
 */
module Executor {
  import opened Basics
  import opened Protocol
  import opened Payloads
  import opened Journal
  import opened Venue
  import opened Timeline
  import opened HostMachine

  datatype CleanupResult = CleanupResult(
    safe: bool, closeSubmitted: bool, closeQuantity: real,
    baselineQuantity: real, baselineSide: PositionSide, final: Option<FinalState>)

  const NO_CLEANUP := CleanupResult(false, false, 0.0, 0.0, Flat, None)

  /**
   Where on the timeline the open order was last observed, and a cleanup decided to close, saw the close, re-read the
   position and took the final snapshot.
   */
  datatype CleanupWitness = CleanupWitness(observedAt: nat, decidedAt: nat, closedAt: nat, confirmedAt: nat,
                                           finalAt: nat)

  // ---------- reading the timeline ----------

  predicate CloseCall(e: Event) { e.Call? && e.request.SubmitClose? }

  ghost predicate NoCloses(log: Log, from: nat) {
    forall i :: from <= i < |log| ==> !CloseCall(log[i])
  }

  /** The one close a cleanup may ask for; only the attempt number differs between retries. */
  function CloseRequest(auth: Authorization, quantity: real, baseline: real, baselineSide: PositionSide,
                        attempt: nat): Request {
    var side := ExpectedSide(auth.openSide);
    SubmitClose(auth.closeIntentId, auth.intentId, auth.closeId, auth.openId, CloseSide(side), side,
                quantity, quantity, baseline, baselineSide, attempt, Effect(auth.digest, Close, 0))
  }

  /** Every close since `from` is this one order: the signed identifiers, against the side of the OPEN. */
  ghost predicate ClosesShare(log: Log, from: nat, auth: Authorization, quantity: real, baseline: real,
                              baselineSide: PositionSide) {
    forall i :: from <= i < |log| && CloseCall(log[i]) ==>
                  && RequestFor(log[i].request, auth)
                  && log[i].request.quantity == log[i].request.confirmedFill == quantity
                  && log[i].request.baselineQuantity == baseline && log[i].request.baselineSide == baselineSide
  }

  /** The request is the one the permit allows at its step, with the step's deterministic side-effect ID. */
  predicate RequestFor(r: Request, auth: Authorization) {
    match r
    case ResumeTrading(effect) => effect == Effect(auth.digest, Resume, 0)
    case RefreshEvidence(effect) => effect == Effect(auth.digest, Refresh, 0)
    case SubmitOpen(id, side, quantity, price, effect) =>
      && id == auth.openId && side == auth.openSide && quantity == auth.quantity && price == auth.limitPrice
      && effect == Effect(auth.digest, Open, 0)
    case ObserveOpen(id, index, effect) => id == auth.openId && effect == Effect(auth.digest, Observe, index)
    case CancelOpenOrder(id, _, effect) => id == auth.openId && effect == Effect(auth.digest, CancelOpen, 0)
    case ReadPosition(id, attempt, effect) => id == auth.openId && effect == Effect(auth.digest, QueryPosition, attempt)
    case SubmitClose(intentId, openIntentId, id, openId, side, positionSide, _, _, _, _, _, effect) =>
      && intentId == auth.closeIntentId && openIntentId == auth.intentId && id == auth.closeId && openId == auth.openId
      && side == (if auth.openSide == Buy then Sell else Buy)
      && positionSide == (if auth.openSide == Buy then Long else Short)
      && effect == Effect(auth.digest, Close, 0)
    case TakeFinalSnapshot(attempt, _, _, effect) => effect == Effect(auth.digest, FinalSnapshot, attempt)
    case HaltTrading(_, effect) => effect == Effect(auth.digest, Halt, 0)
  }

  /** Since `from`, this permit's own calls and journal writes were the only ones. */
  ghost predicate CallsAuthorized(log: Log, from: nat, who: Identity, auth: Authorization) {
    && (forall i :: from <= i < |log| && log[i].Call? ==> log[i].who == who && RequestFor(log[i].request, auth))
    && (forall i :: from <= i < |log| && log[i].Write? ==> log[i].who == who)
  }

  lemma NothingAuthorized(log: Log, who: Identity, auth: Authorization)
    ensures CallsAuthorized(log, |log|, who, auth) && NoOpens(log, |log|)
  {
  }

  lemma Alarmed(was: Log, now: Log, who: Identity, auth: Authorization)
    requires was <= now && |now| == |was| + 1 && now[|was|].HealthRead?
    ensures CallsAuthorized(now, |was|, who, auth) && NoOpens(now, |was|)
  {
  }

  lemma NothingYet(log: Log, auth: Authorization)
    ensures NothingDecisive(log, |log|, |log|, auth)
  {
  }

  /** Two stretches of this permit's calls are one. */
  lemma Joined(was: Log, mid: Log, now: Log, who: Identity, auth: Authorization)
    requires was <= mid <= now && CallsAuthorized(mid, |was|, who, auth) && CallsAuthorized(now, |mid|, who, auth)
    ensures CallsAuthorized(now, |was|, who, auth)
    ensures NoOpens(mid, |was|) && NoOpens(now, |mid|) ==> NoOpens(now, |was|)
  {
    assert forall i :: |was| <= i < |mid| ==> now[i] == mid[i];
  }

  /** The exchange's own reading of the position: quantity on this side. */
  ghost predicate PositionReadAt(log: Log, i: nat, auth: Authorization, quantity: real, side: PositionSide) {
    && i < |log| && log[i].Call? && log[i].request.ReadPosition? && ReadingTrusted(log[i].reply)
    && log[i].reply.quantity == Some(quantity) && log[i].reply.side == Some(side) && quantity >= 0.0
    && side == (if quantity == 0.0 then Flat else if auth.openSide == Buy then Long else Short)
  }

  /** The same reading's confirmed fill of the OPEN. */
  ghost predicate FillReadAt(log: Log, i: nat, auth: Authorization, fill: real) {
    && i < |log| && log[i].Call? && log[i].request.ReadPosition? && ReadingTrusted(log[i].reply)
    && log[i].reply.confirmedFill == Some(fill) && 0.0 <= fill <= auth.quantity
  }

  predicate ReadingTrusted(r: Reply) { r.Position? && r.identityMatches && r.fromExchange && r.recent && r.hashed }

  /** A reading the cleanup may act on: trusted, well formed, and not on the unauthorized side. */
  predicate ReadingUsable(r: Reply, auth: Authorization) {
    && ReadingTrusted(r) && r.quantity.Some? && r.quantity.value >= 0.0
    && r.confirmedFill.Some? && 0.0 <= r.confirmedFill.value <= auth.quantity
    && r.side == Some(if r.quantity.value == 0.0 then Flat else if auth.openSide == Buy then Long else Short)
  }

  predicate CancelAcked(e: Event, auth: Authorization) {
    && e.Call? && e.request.CancelOpenOrder? && e.reply.Ack? && e.reply.clientOrderId == auth.openId
    && Acknowledged(e, CancelOpen, auth.intentId, Effect(auth.digest, CancelOpen, 0))
  }

  /** The cancel of the open order was acknowledged since `from`. */
  ghost predicate OrderCanceled(log: Log, from: nat, auth: Authorization) {
    exists i :: from <= i < |log| && CancelAcked(log[i], auth)
  }

  lemma NothingCanceled(log: Log, auth: Authorization)
    ensures !OrderCanceled(log, |log|, auth) && !TimedOut(log, |log|)
  {
  }

  lemma MoreCanceled(was: Log, now: Log, from: nat, auth: Authorization)
    requires was <= now && from <= |was|
    ensures OrderCanceled(now, from, auth) <==> OrderCanceled(was, from, auth) || OrderCanceled(now, |was|, auth)
  {
    if OrderCanceled(was, from, auth) {
      var i :| from <= i < |was| && CancelAcked(was[i], auth);
      assert now[i] == was[i];
    }
    if OrderCanceled(now, from, auth) {
      var i :| from <= i < |now| && CancelAcked(now[i], auth);
      if i < |was| { assert was[i] == now[i]; }
    }
  }

  /** From `was` to `now` one thing happened, at `at`; the rest is journal writes. */
  ghost predicate OneStep(was: Log, now: Log, at: nat) {
    && was <= now && |was| <= at < |now|
    && forall i :: |was| <= i < |now| && i != at ==> now[i].Write?
  }

  ghost predicate OnlyWrites(was: Log, now: Log) {
    was <= now && forall i :: |was| <= i < |now| ==> now[i].Write?
  }

  lemma AfterStep(was: Log, now: Log, at: nat)
    requires OneStep(was, now, at)
    ensures forall i :: at < i < |now| ==> now[i].Write?
  {
  }

  lemma StepDone(was: Log, now: Log)
    requires was <= now && |now| == |was| + 1
    ensures OneStep(was, now, |was|)
  {
  }

  lemma NoAckInTime(log: Log, at: nat, auth: Authorization, quantity: real)
    requires at < |log| && log[at].TimeOver?
    ensures !CloseAcked(log[at], auth, quantity)
  {
  }

  lemma StepWrites(was: Log, mid: Log, now: Log, at: nat)
    requires OneStep(was, mid, at) && OnlyWrites(mid, now)
    ensures OneStep(was, now, at) && now[at] == mid[at]
  {
  }

  /** What one step means for the stretch it makes up. */
  lemma StepMeans(was: Log, now: Log, at: nat, auth: Authorization)
    requires OneStep(was, now, at)
    ensures was <= now && |was| <= at < |now|
    ensures TimedOut(now, |was|) <==> now[at].TimeOver?
    ensures now[at].TimeOver? ==> !OrderCanceled(now, |was|, auth)
    ensures OrderCanceled(now, |was|, auth) <==> CancelAcked(now[at], auth)
    ensures Quiet(was, now) <==> !CloseCall(now[at])
  {
  }

  /** With one step, the stretch's only close is the one it made. */
  lemma StepCloses(was: Log, now: Log, at: nat, auth: Authorization, quantity: real, baseline: real,
                   baselineSide: PositionSide)
    requires OneStep(was, now, at)
    requires CloseCall(now[at]) ==> ClosesShare(now, at, auth, quantity, baseline, baselineSide)
    ensures ClosesShare(now, |was|, auth, quantity, baseline, baselineSide)
    ensures NoCloseAck(now, |was|, auth, quantity) <==> !CloseAcked(now[at], auth, quantity)
  {
  }

  /** What a close call, and its reply, mean. */
  lemma CloseRead(log: Log, at: nat, auth: Authorization, quantity: real, baseline: real, baselineSide: PositionSide,
                  attempt: nat, reply: Reply)
    requires at < |log| && log[at].Call? && log[at].reply == reply && quantity > 0.0
    requires log[at].request == CloseRequest(auth, quantity, baseline, baselineSide, attempt)
    requires forall i :: at < i < |log| ==> log[i].Write?
    ensures CloseCall(log[at]) && ClosesShare(log, at, auth, quantity, baseline, baselineSide)
    ensures CloseAcked(log[at], auth, quantity) <==> CloseAckValid(reply, auth, log[at].request.effect, quantity)
    ensures CloseAcked(log[at], auth, quantity) ==> CloseAckAt(log, at, auth, quantity)
  {
  }

  lemma CloseAllowed(auth: Authorization, quantity: real, baseline: real, baselineSide: PositionSide, attempt: nat)
    ensures var r := CloseRequest(auth, quantity, baseline, baselineSide, attempt);
            RequestFor(r, auth) && r.SubmitClose? && r.effect == Effect(auth.digest, Close, 0)
  {
  }

  lemma CancelRead(log: Log, at: nat, auth: Authorization, request: Request, reply: Reply)
    requires at < |log| && log[at].Call? && log[at].request == request && log[at].reply == reply
    requires request.CancelOpenOrder? && request.effect == Effect(auth.digest, CancelOpen, 0)
    ensures CancelAcked(log[at], auth) <==> AckValid(reply, CancelOpen, auth.intentId, request.effect,
                                                     Some(auth.openId))
    ensures RequestFor(request, auth) <==> request.openId == auth.openId
  {
  }

  lemma MoreTime(was: Log, now: Log, from: nat)
    requires was <= now && from <= |was|
    ensures TimedOut(now, from) <==> TimedOut(was, from) || TimedOut(now, |was|)
  {
    if TimedOut(was, from) {
      var i :| from <= i < |was| && was[i].TimeOver?;
      assert now[i] == was[i];
    }
  }

  lemma TimeIsOver(log: Log, from: nat)
    requires from < |log| && log[|log| - 1].TimeOver?
    ensures TimedOut(log, from)
  {
  }

  /** The run's time was over at some point since `from`. */
  ghost predicate TimedOut(log: Log, from: nat) { exists i :: from <= i < |log| && log[i].TimeOver? }

  /**
   Every OPEN since `from` follows, also since then, a health check, an acknowledged RESUME, a completed refresh and
   another health check, in this order, and no check failed in between.
   */
  ghost predicate OpensPrepared(log: Log, from: nat, auth: Authorization) {
    forall i :: from <= i < |log| && OpenDispatch(log[i]) ==> OpenPrepared(log, from, i, auth)
  }

  ghost predicate OpenPrepared(log: Log, from: nat, i: nat, auth: Authorization) {
    exists r: Readiness :: ReadyBy(log, from, i, auth, r)
  }

  /** Where the steps that must precede an OPEN stand on the timeline. */
  datatype Readiness = Readiness(checked: nat, resumed: nat, refreshed: nat, rechecked: nat)

  ghost predicate ReadyBy(log: Log, from: nat, i: nat, auth: Authorization, r: Readiness) {
    && from <= r.checked < r.resumed < r.refreshed < r.rechecked < i < |log|
    && Prepares(log[r.checked], log[r.resumed], log[r.refreshed], log[r.rechecked], auth)
    && forall j :: from <= j < i ==> !Unhealthy(log[j])
  }

  predicate Prepares(checked: Event, resumed: Event, refreshed: Event, rechecked: Event, auth: Authorization) {
    && checked.HealthRead? && checked.healthy && ResumeAcked(resumed, auth) && Refreshed(refreshed, auth)
    && rechecked.HealthRead? && rechecked.healthy
  }

  predicate Unhealthy(e: Event) { e.HealthRead? && !e.healthy }

  predicate ResumeAcked(e: Event, auth: Authorization) {
    && e.Call? && e.request.ResumeTrading? && Acknowledged(e, Resume, auth.intentId, Effect(auth.digest, Resume, 0))
  }

  predicate Refreshed(e: Event, auth: Authorization) {
    && e.Call? && e.request.RefreshEvidence? && e.reply.Ack? && e.reply.completed
    && Acknowledged(e, Refresh, auth.intentId, Effect(auth.digest, Refresh, 0))
  }

  predicate OpenAcked(e: Event, auth: Authorization) {
    && OpenDispatch(e) && Acknowledged(e, Open, auth.intentId, Effect(auth.digest, Open, 0))
    && e.reply.clientOrderId == auth.openId
  }

  predicate ObservationUsable(r: Reply, auth: Authorization) {
    && r.Observation? && r.identityMatches && r.openId == auth.openId && r.observedFresh && r.hashed
    && r.status.Some? && r.filled.Some? && r.average.Some? && r.loss.Some?
    && 0.0 <= r.filled.value <= auth.quantity && r.average.value >= 0.0 && r.loss.value >= 0.0
    && (r.filled.value > 0.0 ==>
          r.average.value > 0.0 && r.markFresh && r.monitorHealthy && r.markStampFresh && r.monitorStampFresh)
  }

  /** What ends a first run before its order is decided: a failed check, or an answer that cannot be used. */
  predicate Setback(e: Event, auth: Authorization) {
    || Unhealthy(e)
    || (e.Call? && match e.request
                   case ResumeTrading(_) => !ResumeAcked(e, auth)
                   case RefreshEvidence(_) => !Refreshed(e, auth)
                   case SubmitOpen(_, _, _, _, _) => !OpenAcked(e, auth)
                   case ObserveOpen(_, _, _) => !ObservationUsable(e.reply, auth)
                   case _ => false)
  }

  ghost predicate Stalled(log: Log, from: nat, auth: Authorization) {
    exists i :: from <= i < |log| && Setback(log[i], auth)
  }

  lemma StalledAt(log: Log, at: nat, earlier: nat, auth: Authorization)
    requires earlier <= at < |log| && Setback(log[at], auth)
    ensures Stalled(log, earlier, auth)
  {
  }

  lemma StillStalled(was: Log, now: Log, from: nat, earlier: nat, auth: Authorization)
    requires was <= now && earlier <= from && Stalled(was, from, auth)
    ensures Stalled(now, earlier, auth)
  {
    var i :| from <= i < |was| && Setback(was[i], auth);
    assert Setback(now[i], auth);
  }

  /** One OPEN, at `at`, straight after a stretch with its preparation. */
  lemma PreparedOnce(was: Log, ready: Log, now: Log, r: Readiness, at: nat, auth: Authorization)
    requires was <= ready <= now && |was| <= r.checked < r.resumed < r.refreshed < r.rechecked < |ready|
    requires Prepares(ready[r.checked], ready[r.resumed], ready[r.refreshed], ready[r.rechecked], auth)
    requires NoOpens(ready, |was|) && forall j :: |was| <= j < |ready| ==> !Unhealthy(ready[j])
    requires forall i :: |ready| <= i < |now| && OpenDispatch(now[i]) ==> i == at
    requires forall i :: |ready| <= i < |now| && i < at ==> now[i].Write?
    ensures OpensPrepared(now, |was|, auth)
  {
    hide Prepares;
    assert forall j :: |was| <= j < |ready| ==> now[j] == ready[j];
    forall i | |was| <= i < |now| && OpenDispatch(now[i]) ensures OpenPrepared(now, |was|, i, auth) {
      assert ReadyBy(now, |was|, i, auth, r);
    }
  }

  lemma NoneToPrepare(log: Log, from: nat, auth: Authorization)
    requires NoOpens(log, from)
    ensures OpensPrepared(log, from, auth)
  {
  }

  lemma StillPrepared(was: Log, now: Log, from: nat, auth: Authorization)
    requires was <= now && from <= |was| && OpensPrepared(was, from, auth) && NoOpens(now, |was|)
    ensures OpensPrepared(now, from, auth)
  {
    hide Prepares, Unhealthy;
    forall i | from <= i < |now| && OpenDispatch(now[i]) ensures OpenPrepared(now, from, i, auth) {
      assert now[i] == was[i] && OpenPrepared(was, from, i, auth);
      var r: Readiness :| ReadyBy(was, from, i, auth, r);
      assert ReadyBy(now, from, i, auth, r);
    }
  }

  lemma PreparedEarlier(log: Log, from: nat, earlier: nat, auth: Authorization)
    requires earlier <= from <= |log| && OpensPrepared(log, from, auth)
    requires forall i :: earlier <= i < from ==> !log[i].HealthRead? && !log[i].Call?
    ensures OpensPrepared(log, earlier, auth)
  {
    hide Prepares;
    forall i | earlier <= i < |log| && OpenDispatch(log[i]) ensures OpenPrepared(log, earlier, i, auth) {
      assert OpenPrepared(log, from, i, auth);
      var r: Readiness :| ReadyBy(log, from, i, auth, r);
      assert ReadyBy(log, earlier, i, auth, r);
    }
  }

  ghost predicate NoOpens(log: Log, from: nat) {
    forall i :: from <= i < |log| ==> !OpenDispatch(log[i])
  }

  /** What a reading means for a cleanup in this state: nothing left to do, or nothing that may be done. */
  predicate AtRest(c: Closing, quantity: real, side: PositionSide, fill: real) {
    if c.confirmed then quantity == c.baseline && side == c.baselineSide
    else !c.attempted && fill == 0.0 && quantity == 0.0
  }

  predicate Contradicts(c: Closing, expected: real, quantity: real, side: PositionSide, fill: real) {
    if c.confirmed then quantity != c.baseline || side != c.baselineSide
    else if c.attempted then false
    else if fill == 0.0 then quantity > 0.0 && (expected <= 0.0 || quantity < expected)
    else quantity < fill || (expected > 0.0 && fill != expected)
  }

  /** A usable reading since `from` on which a cleanup in this state may not go on. */
  ghost predicate ReadingForbids(log: Log, from: nat, auth: Authorization, c: Closing, expected: real) {
    exists i, p: PositionSnapshot ::
      && from <= i && PositionReadAt(log, i, auth, p.quantity, p.side) && FillReadAt(log, i, auth, p.confirmedFill)
      && Contradicts(c, expected, p.quantity, p.side, p.confirmedFill)
  }

  lemma StillForbids(was: Log, now: Log, from: nat, earlier: nat, auth: Authorization, c: Closing, expected: real)
    requires was <= now && earlier <= from && ReadingForbids(was, from, auth, c, expected)
    ensures ReadingForbids(now, earlier, auth, c, expected)
  {
    var i, p: PositionSnapshot :|
      && from <= i && PositionReadAt(was, i, auth, p.quantity, p.side) && FillReadAt(was, i, auth, p.confirmedFill)
      && Contradicts(c, expected, p.quantity, p.side, p.confirmedFill);
    assert PositionReadAt(now, i, auth, p.quantity, p.side) && FillReadAt(now, i, auth, p.confirmedFill);
  }

  /** How far a cleanup's close had got when it ended. */
  function ClosingOf(r: CleanupResult): Closing {
    Closing(r.closeQuantity != 0.0, r.closeSubmitted, r.closeQuantity, r.baselineQuantity, r.baselineSide)
  }

  /** The two reasons a cleanup may have not to be safe before its attempts are used up. */
  ghost predicate CleanupExcused(log: Log, from: nat, auth: Authorization, expected: real, r: CleanupResult) {
    TimedOut(log, from) || ReadingForbids(log, from, auth, ClosingOf(r), expected)
  }

  lemma StillExcused(was: Log, now: Log, from: nat, earlier: nat, auth: Authorization, expected: real,
                     r: CleanupResult)
    requires was <= now && earlier <= from <= |was| && CleanupExcused(was, from, auth, expected, r)
    ensures CleanupExcused(now, earlier, auth, expected, r)
  {
    if TimedOut(was, from) {
      var i :| from <= i < |was| && was[i].TimeOver?;
      assert now[i].TimeOver?;
    } else {
      StillForbids(was, now, from, earlier, auth, ClosingOf(r), expected);
    }
  }

  /** Call i was acknowledged as this action of this intent. */
  predicate Acknowledged(e: Event, action: Action, intentId: Id, effect: Effect) {
    && e.Call? && e.reply.Ack? && e.reply.identityMatches && e.reply.accepted && e.reply.hashed
    && e.reply.action == action && e.reply.intentId == intentId && e.reply.effect == effect
  }

  /** A close that was acknowledged as filled with exactly this quantity. */
  predicate CloseAcked(e: Event, auth: Authorization, quantity: real) {
    && CloseCall(e) && Acknowledged(e, Close, auth.closeIntentId, e.request.effect)
    && e.reply.clientOrderId == auth.closeId && e.reply.filledQuantity == Some(quantity) && quantity > 0.0
  }

  ghost predicate CloseAckAt(log: Log, i: nat, auth: Authorization, quantity: real) {
    i < |log| && CloseAcked(log[i], auth, quantity) && log[i].request.quantity == quantity
  }

  /** No close asked for since `from` was acknowledged with its exact quantity. */
  ghost predicate NoCloseAck(log: Log, from: nat, auth: Authorization, quantity: real) {
    forall i :: from <= i < |log| && CloseCall(log[i]) ==> !CloseAcked(log[i], auth, quantity)
  }

  /** The last snapshot: the expected position, no order left, the portfolio untouched, and PnL that adds up. */
  ghost predicate FinalAt(log: Log, i: nat, auth: Authorization, quantity: real, side: PositionSide,
                          final: FinalState) {
    && i < |log| && log[i].Call? && log[i].request.TakeFinalSnapshot?
    && var r := log[i].reply;
       && r.Snapshot? && r.identityMatches && r.fromExchange && r.recent && r.hashed
       && r.regularOrdersZero && r.algoOrdersZero && r.portfolio == auth.portfolio
       && r.quantity == Some(quantity) && r.side == Some(side) && (quantity == 0.0 <==> side == Flat)
       && final.quantity == quantity && final.side == side
       && r.gross == Some(final.gross) && r.fees == Some(final.fees) && r.net == Some(final.gross - final.fees)
       && final.net == final.gross - final.fees && r.cumulativeLoss == Some(final.loss)
       && final.loss == (if final.net < 0.0 then -final.net else 0.0)
  }

  ghost predicate HaltedAt(log: Log, i: nat, auth: Authorization) {
    && i < |log| && log[i].Call? && log[i].request.HaltTrading?
    && Acknowledged(log[i], Halt, auth.intentId, Effect(auth.digest, Halt, 0))
    && log[i].reply.fromNode && log[i].reply.halted && log[i].reply.recent
  }

  /** Call i observed the open order in this state, with this fill, price and cumulative loss. */
  ghost predicate ObservedAt(log: Log, i: nat, auth: Authorization, status: OpenStatus, filled: real, average: real,
                             loss: real) {
    && i < |log| && log[i].Call? && log[i].request.ObserveOpen? && log[i].request.openId == auth.openId
    && var r := log[i].reply;
       && r.Observation? && r.identityMatches && r.openId == auth.openId && r.observedFresh && r.hashed
       && r.status == Some(status) && r.filled == Some(filled) && r.average == Some(average) && r.loss == Some(loss)
       && 0.0 <= filled <= auth.quantity && average >= 0.0 && loss >= 0.0
       && (filled > 0.0 ==> average > 0.0 && r.markFresh && r.monitorHealthy && r.markStampFresh && r.monitorStampFresh)
  }

  /** An observation that ends the wait: the order is done, or the permit's notional or loss limit is broken. */
  predicate Decisive(auth: Authorization, status: OpenStatus, filled: real, average: real, loss: real) {
    || status == Filled || status == Expired || status == Canceled || status == Rejected
    || filled * average > auth.maxNotional || filled * average > 12.0 || loss >= auth.maxLoss
  }

  /** The observation breaks the permit's notional or loss limit. */
  predicate OverLimit(auth: Authorization, o: TradeObservation) {
    o.Notional() > auth.maxNotional || o.Notional() > MAX_OPEN_NOTIONAL || o.loss >= auth.maxLoss
  }

  lemma DecisiveMeans(auth: Authorization, status: OpenStatus, filled: real, average: real, loss: real)
    ensures Decisive(auth, status, filled, average, loss) <==>
            var notional := filled * average;
            status != Working || notional > auth.maxNotional || notional > MAX_OPEN_NOTIONAL || loss >= auth.maxLoss
  {
    var notional := filled * average;
    if status == Working && notional <= auth.maxNotional && notional <= 12.0 && loss < auth.maxLoss {
      assert !Decisive(auth, status, filled, average, loss);
    }
  }

  lemma DecisiveExactly(auth: Authorization, o: TradeObservation)
    ensures OverLimit(auth, o) || TerminalOpen(o.status) <==> Decisive(auth, o.status, o.filled, o.average, o.loss)
  {
    DecisiveMeans(auth, o.status, o.filled, o.average, o.loss);
  }

  /** Every usable observation in this stretch of the timeline left the order working inside the limits. */
  ghost predicate NothingDecisive(log: Log, from: nat, to: nat, auth: Authorization) {
    forall i, status, filled, average, loss ::
      from <= i < to && ObservedAt(log, i, auth, status, filled, average, loss) ==>
        !Decisive(auth, status, filled, average, loss)
  }

  /** A close was decided on a reading that showed quantity + baseline, with exactly quantity confirmed as filled. */
  ghost predicate Decided(log: Log, from: nat, auth: Authorization, at: nat, quantity: real, baseline: real,
                          baselineSide: PositionSide) {
    && from <= at < |log| && 0.0 < quantity <= auth.quantity && baseline >= 0.0
    && baselineSide == (if baseline == 0.0 then Flat else if auth.openSide == Buy then Long else Short)
    && PositionReadAt(log, at, auth, quantity + baseline, if auth.openSide == Buy then Long else Short)
    && FillReadAt(log, at, auth, quantity)
  }

  /** What a cleanup that reports safe has seen, in order, since it started at `from`. */
  ghost predicate SafeCleanup(log: Log, from: nat, auth: Authorization, r: CleanupResult, w: CleanupWitness) {
    && r.final.Some? && from <= w.confirmedAt < w.finalAt
    && FinalAt(log, w.finalAt, auth, r.baselineQuantity, r.baselineSide, r.final.value)
    && PositionReadAt(log, w.confirmedAt, auth, r.baselineQuantity, r.baselineSide)
    && if r.closeSubmitted then
         && w.decidedAt < w.closedAt < w.confirmedAt
         && Decided(log, from, auth, w.decidedAt, r.closeQuantity, r.baselineQuantity, r.baselineSide)
         && CloseAckAt(log, w.closedAt, auth, r.closeQuantity)
         && ClosesShare(log, from, auth, r.closeQuantity, r.baselineQuantity, r.baselineSide)
       else
         && NoCloses(log, from) && r.baselineQuantity == 0.0
         && FillReadAt(log, w.confirmedAt, auth, 0.0)
  }

  /** The local state of a cleanup's close loop. */
  datatype Closing = Closing(attempted: bool, confirmed: bool, quantity: real, baseline: real,
                             baselineSide: PositionSide) {
    function Ceiling(): nat {
      if confirmed then Rank(CloseConfirmed) else if attempted then Rank(ClosePending) else Rank(OpenObserved)
    }
  }

  /** What the timeline shows of a close loop that started at `from`. */
  ghost predicate ClosingLog(log: Log, from: nat, auth: Authorization, c: Closing, w: CleanupWitness) {
    && from <= |log|
    && (if c.attempted then
          && Decided(log, from, auth, w.decidedAt, c.quantity, c.baseline, c.baselineSide)
          && ClosesShare(log, from, auth, c.quantity, c.baseline, c.baselineSide)
        else NoCloses(log, from) && c.baseline == 0.0 && c.baselineSide == Flat && !c.confirmed)
    && (if c.confirmed then w.decidedAt < w.closedAt && CloseAckAt(log, w.closedAt, auth, c.quantity)
        else NoCloseAck(log, from, auth, c.quantity))
  }

  /** The position was re-read at the baseline after the close, or was flat with nothing filled. */
  ghost predicate SettledLog(log: Log, from: nat, auth: Authorization, c: Closing, w: CleanupWitness) {
    && from <= w.confirmedAt < |log|
    && PositionReadAt(log, w.confirmedAt, auth, c.baseline, c.baselineSide)
    && (if c.confirmed then w.closedAt < w.confirmedAt
        else !c.attempted && FillReadAt(log, w.confirmedAt, auth, 0.0))
  }

  lemma ReadingStays(was: Log, now: Log, at: nat, auth: Authorization, p: PositionSnapshot)
    requires was <= now
    requires PositionReadAt(was, at, auth, p.quantity, p.side) && FillReadAt(was, at, auth, p.confirmedFill)
    ensures PositionReadAt(now, at, auth, p.quantity, p.side) && FillReadAt(now, at, auth, p.confirmedFill)
  {
  }

  lemma ClosingLogSurvives(was: Log, now: Log, from: nat, auth: Authorization, c: Closing, w: CleanupWitness)
    requires ClosingLog(was, from, auth, c, w) && Quiet(was, now)
    ensures ClosingLog(now, from, auth, c, w)
    ensures SettledLog(was, from, auth, c, w) ==> SettledLog(now, from, auth, c, w)
    ensures from <= |was| && (c.confirmed ==> c.attempted) && (c.attempted ==> c.quantity > 0.0)
  {
    assert forall i :: from <= i < |now| && CloseCall(now[i]) ==> i < |was| && now[i] == was[i];
  }

  /** A close asked for again leaves the loop where it was, or confirmed. */
  lemma ReconciledLog(was: Log, now: Log, from: nat, auth: Authorization, c: Closing, w: CleanupWitness,
                      confirmed: bool, closedAt: nat)
    requires ClosingLog(was, from, auth, c, w) && c.attempted && !c.confirmed && was <= now
    requires ClosesShare(now, |was|, auth, c.quantity, c.baseline, c.baselineSide)
    requires if confirmed then |was| <= closedAt && CloseAckAt(now, closedAt, auth, c.quantity)
             else NoCloseAck(now, |was|, auth, c.quantity)
    ensures ClosingLog(now, from, auth, c.(confirmed := confirmed), if confirmed then w.(closedAt := closedAt) else w)
  {
    assert forall i :: from <= i < |was| && CloseCall(now[i]) ==> now[i] == was[i];
  }

  /** A reading of the baseline after the confirmed close settles it. */
  lemma ConfirmedLog(was: Log, log: Log, from: nat, auth: Authorization, c: Closing, w: CleanupWitness, at: nat)
    requires was <= log && ClosingLog(was, from, auth, c, w) && ClosingLog(log, from, auth, c, w)
    requires c.confirmed && |was| <= at
    ensures ClosingLog(log, from, auth, c, w.(confirmedAt := at))
    ensures PositionReadAt(log, at, auth, c.baseline, c.baselineSide) ==>
              SettledLog(log, from, auth, c, w.(confirmedAt := at))
  {
  }

  /** A settled close loop stays so while the final snapshot is taken. */
  lemma Settled(was: Log, now: Log, from: nat, auth: Authorization, c: Closing, w: CleanupWitness, finalAt: nat)
    requires ClosingLog(was, from, auth, c, w) && SettledLog(was, from, auth, c, w) && Quiet(was, now)
    ensures ClosingLog(now, from, auth, c, w.(finalAt := finalAt))
    ensures SettledLog(now, from, auth, c, w.(finalAt := finalAt)) && w.confirmedAt < |was|
  {
    ClosingLogSurvives(was, now, from, auth, c, w);
  }

  /** What the parts of a cleanup left on the timeline, seen from its end. */
  lemma StretchedOut(canceled: Log, closedOut: Log, now: Log, from: nat, auth: Authorization, c: Closing,
                     expected: real, r: CleanupResult)
    requires from <= |canceled| && canceled <= closedOut <= now && ClosingOf(r) == c
    ensures OrderCanceled(canceled, from, auth) ==> OrderCanceled(now, from, auth)
    ensures TimedOut(canceled, from) || TimedOut(closedOut, |canceled|) || TimedOut(now, |closedOut|) ==>
              TimedOut(now, from)
    ensures TimedOut(now, from) || ReadingForbids(closedOut, |canceled|, auth, c, expected) ==>
              CleanupExcused(now, from, auth, expected, r)
  {
    MoreCanceled(canceled, now, from, auth);
    MoreTime(canceled, closedOut, from);
    MoreTime(closedOut, now, from);
    if ReadingForbids(closedOut, |canceled|, auth, c, expected) {
      StillForbids(closedOut, now, |canceled|, from, auth, c, expected);
    }
  }

  /** A settled close loop and a final snapshot of its baseline are a safe cleanup. */
  lemma Cleaned(log: Log, from: nat, auth: Authorization, c: Closing, w: CleanupWitness, final: FinalState)
    requires ClosingLog(log, from, auth, c, w) && SettledLog(log, from, auth, c, w) && w.confirmedAt < w.finalAt
    requires FinalAt(log, w.finalAt, auth, c.baseline, c.baselineSide, final)
    ensures SafeCleanup(log, from, auth, CleanupResult(true, c.confirmed, c.quantity, c.baseline, c.baselineSide,
                                                       Some(final)), w)
  {
  }

  /** What a close loop asked for, however far it got. */
  lemma ClosesOf(log: Log, from: nat, auth: Authorization, c: Closing, w: CleanupWitness)
    requires ClosingLog(log, from, auth, c, w) && (!c.attempted ==> c.quantity == 0.0)
    ensures if c.quantity == 0.0 then NoCloses(log, from)
            else && Decided(log, from, auth, w.decidedAt, c.quantity, c.baseline, c.baselineSide)
                 && ClosesShare(log, from, auth, c.quantity, c.baseline, c.baselineSide)
    ensures (c.attempted <==> c.quantity != 0.0) && (c.confirmed ==> c.attempted)
    ensures !c.confirmed ==> NoCloseAck(log, from, auth, c.quantity)
    ensures c.confirmed ==> CloseAckAt(log, w.closedAt, auth, c.quantity)
  {
  }

  /** Later versions of a record within one undegraded run. */
  ghost predicate Progress(r: Record, r': Record) {
    && r'.pendingEvidence == r.pendingEvidence
    && StatesOf(r.history) <= StatesOf(r'.history)
    && (Recovered(r'.history) <==> Recovered(r.history))
  }

  lemma StillNothingDecisive(was: Log, now: Log, from: nat, auth: Authorization)
    requires was <= now && NothingDecisive(was, from, |was|, auth)
    ensures NothingDecisive(now, from, |was|, auth)
  {
    forall i, status, filled, average, loss |
      from <= i < |was| && ObservedAt(now, i, auth, status, filled, average, loss)
      ensures !Decisive(auth, status, filled, average, loss)
    {
      assert now[i] == was[i];
      assert ObservedAt(was, i, auth, status, filled, average, loss);
    }
  }

  /** A stretch with one more observation is decisive only if that observation is. */
  lemma OneObservation(was: Log, now: Log, from: nat, at: nat, auth: Authorization, o: TradeObservation)
    requires was <= now && |was| <= at < |now| && NothingDecisive(was, from, |was|, auth)
    requires forall i :: |was| <= i < |now| && i != at ==> !now[i].Call?
    requires ObservedAt(now, at, auth, o.status, o.filled, o.average, o.loss)
    ensures NothingDecisive(now, from, at, auth)
    ensures !Decisive(auth, o.status, o.filled, o.average, o.loss) ==> NothingDecisive(now, from, |now|, auth)
  {
    StillNothingDecisive(was, now, from, auth);
  }

  /** A stretch whose one observation cannot be used is not decisive. */
  lemma UnusableObservation(was: Log, now: Log, from: nat, at: nat, auth: Authorization)
    requires was <= now && |was| <= at < |now| && NothingDecisive(was, from, |was|, auth)
    requires forall i :: |was| <= i < |now| && i != at ==> !now[i].Call?
    requires now[at].Call? && !ObservationUsable(now[at].reply, auth)
    ensures NothingDecisive(now, from, |now|, auth)
  {
    StillNothingDecisive(was, now, from, auth);
  }

  /** What the reply to an observation means. */
  lemma ObservationRead(log: Log, at: nat, auth: Authorization)
    requires at < |log| && log[at].Call? && log[at].request.ObserveOpen? && log[at].request.openId == auth.openId
    ensures var o := ParseObservation(log[at].reply, auth);
            && (o.Some? <==> ObservationUsable(log[at].reply, auth))
            && (o.Some? ==>
                  ObservedAt(log, at, auth, o.value.status, o.value.filled, o.value.average, o.value.loss))
  {
  }

  /** Whatever close a cleanup decides on, the adapter's request checks accept its form. */
  lemma CloseRequestIsWellFormed(log: Log, from: nat, auth: Authorization, at: nat, quantity: real, baseline: real,
                                 baselineSide: PositionSide, attempt: nat)
    requires Decided(log, from, auth, at, quantity, baseline, baselineSide)
    ensures WellFormedClose(CloseRequest(auth, quantity, baseline, baselineSide, attempt), auth)
  {
  }

  /** The timeline went on without asking for a close. */
  ghost predicate Quiet(was: Log, now: Log) {
    was <= now && NoCloses(now, |was|)
  }

  /** What `claim_or_recover` reports; NotClaimed covers a refused or failed ledger write. */
  datatype PermitClaim = NewlyAuthorized | Incomplete(pending: Option<PendingEvidence>) | AlreadyTerminal | NotClaimed

  ghost predicate JustClaimed(r: Record) {
    r.state == Authorized && r.pendingEvidence == None && !Recovered(r.history) && OpenPendings(r.history) == 0
  }

  /** How far the guarded region of `execute` got. */
  datatype Attempt = Attempt(
    succeeded: bool, enabled: bool, pending: Option<PendingEvidence>, cleaned: bool, cleanup: CleanupResult,
    filled: real, notional: real, loss: real)

  const NO_ATTEMPT := Attempt(false, false, None, false, NO_CLEANUP, 0.0, 0.0, 0.0)

  /** The attempt's fill, notional and loss are those of a decisive observation of its open order. */
  ghost predicate OrderObserved(log: Log, from: nat, auth: Authorization, a: Attempt, w: CleanupWitness) {
    exists status, average ::
      && from <= w.observedAt && ObservedAt(log, w.observedAt, auth, status, a.filled, average, a.loss)
      && Decisive(auth, status, a.filled, average, a.loss) && a.notional == a.filled * average
  }

  lemma SeenEarlier(log: Log, from: nat, earlier: nat, auth: Authorization, a: Attempt, w: CleanupWitness)
    requires earlier <= from
    ensures OrderObserved(log, from, auth, a, w) ==> OrderObserved(log, earlier, auth, a, w)
    ensures Stalled(log, from, auth) ==> Stalled(log, earlier, auth)
  {
    if OrderObserved(log, from, auth, a, w) {
      var status, average :|
        && from <= w.observedAt && ObservedAt(log, w.observedAt, auth, status, a.filled, average, a.loss)
        && Decisive(auth, status, a.filled, average, a.loss) && a.notional == a.filled * average;
      assert OrderObserved(log, earlier, auth, a, w);
    }
    if Stalled(log, from, auth) { StillStalled(log, log, from, earlier, auth); }
  }

  lemma OrderSeen(log: Log, from: nat, auth: Authorization, a: Attempt, w: CleanupWitness, o: TradeObservation)
    requires from <= w.observedAt && ObservedAt(log, w.observedAt, auth, o.status, o.filled, o.average, o.loss)
    requires Decisive(auth, o.status, o.filled, o.average, o.loss)
    requires a.filled == o.filled && a.notional == o.Notional() && a.loss == o.loss
    ensures OrderObserved(log, from, auth, a, w) && w.observedAt < |log|
  {
  }

  /** The cleanup changes neither what was observed before it nor, by where that was, what makes it safe. */
  lemma SameCleanup(observed: Log, log: Log, start: nat, auth: Authorization, a: Attempt, w: CleanupWitness,
                    v: CleanupWitness)
    requires v == w.(observedAt := v.observedAt) && observed <= log
    requires OrderObserved(observed, start, auth, a.(succeeded := false), v)
    ensures SafeCleanup(log, |observed|, auth, a.cleanup, w) ==> SafeCleanup(log, |observed|, auth, a.cleanup, v)
    ensures OrderObserved(log, start, auth, a, v)
  {
    var status, average :|
      && start <= v.observedAt && ObservedAt(observed, v.observedAt, auth, status, a.filled, average, a.loss)
      && Decisive(auth, status, a.filled, average, a.loss) && a.notional == a.filled * average;
    assert ObservedAt(log, v.observedAt, auth, status, a.filled, average, a.loss);
  }

  /** An observed fill inside the limits and a safe close of exactly that fill are a round trip. */
  lemma SucceededOnLog(observed: Log, log: Log, start: nat, auth: Authorization, a: Attempt, w: CleanupWitness,
                       o: TradeObservation)
    requires observed <= log && start <= w.observedAt < |observed|
    requires ObservedAt(observed, w.observedAt, auth, o.status, o.filled, o.average, o.loss)
    requires a.filled == o.filled && a.notional == o.Notional() && a.loss == o.loss && RoundTripProven(auth, a)
    requires SafeCleanup(log, |observed|, auth, a.cleanup, w)
    ensures RoundTripOnLog(log, start, auth, w)
  {
    assert log[w.observedAt] == observed[w.observedAt];
  }

  /**
   What the replies on the timeline say of a completed round trip: the OPEN was observed filled inside the permit's
   notional and loss limits, exactly that fill was acknowledged as closed, and the final loss is below the limit too.
   */
  ghost predicate RoundTripOnLog(log: Log, start: nat, auth: Authorization, w: CleanupWitness) {
    && start <= w.observedAt < w.decidedAt < w.closedAt < w.finalAt < |log|
    && var o, c, f := log[w.observedAt], log[w.closedAt], log[w.finalAt];
       && o.Call? && o.request.ObserveOpen? && o.reply.Observation? && o.reply.openId == auth.openId
       && o.reply.filled.Some? && o.reply.average.Some? && o.reply.loss.Some?
       && 0.0 < o.reply.filled.value <= auth.quantity && o.reply.loss.value < auth.maxLoss
       && o.reply.filled.value * o.reply.average.value <= auth.maxNotional
       && o.reply.filled.value * o.reply.average.value <= 12.0
       && c.Call? && c.request.SubmitClose? && c.reply.Ack? && c.reply.accepted
       && c.request.quantity == o.reply.filled.value && c.reply.filledQuantity == o.reply.filled
       && f.Call? && f.request.TakeFinalSnapshot? && f.reply.Snapshot?
       && f.reply.cumulativeLoss.Some? && f.reply.cumulativeLoss.value < auth.maxLoss
  }

  ghost predicate PublicationFailed(log: Log, from: nat) {
    exists i :: from <= i < |log| && log[i].PublishFailed?
  }

  /** The report states what the run saw. */
  predicate ReportMatches(e: Evidence, who: Identity, r: RunReport) {
    && e.identity == who && e.passed == r.passed && e.failed == !r.passed && e.halted == r.halted
    && e.roundTrips == (if r.attempt.cleanup.closeSubmitted then 1 else 0)
    && e.closeQuantity == r.attempt.cleanup.closeQuantity && e.baselineQuantity == r.attempt.cleanup.baselineQuantity
    && e.openFilled == r.attempt.filled && e.openNotional == r.attempt.notional
    && e.cumulativeLoss >= r.attempt.loss
    && (if r.attempt.cleanup.final.None? then e.cumulativeLoss == r.attempt.loss
        else && e.cumulativeLoss >= r.attempt.cleanup.final.value.loss
             && e.cumulativeLoss in {r.attempt.loss, r.attempt.cleanup.final.value.loss})
  }

  /** The quantities of a completed round trip stay inside the permit. */
  predicate RoundTripProven(auth: Authorization, a: Attempt) {
    && a.cleanup.safe && a.cleanup.closeSubmitted && a.cleanup.closeQuantity == a.filled > 0.0
    && a.notional <= auth.maxNotional && a.notional <= MAX_OPEN_NOTIONAL
    && a.loss < auth.maxLoss && a.cleanup.final.Some? && a.cleanup.final.value.loss < auth.maxLoss
  }

  datatype RecoveredCommit = OtherPath | CommitRaised | Committed

  datatype RunOutcome = NotAdmitted | Aborted | Finished | FinishedRecovered

  datatype RunReport = RunReport(outcome: RunOutcome, passed: bool, halted: bool, attempt: Attempt)

  function BuildEvidence(who: Identity, passed: bool, halted: bool, a: Attempt, stamp: int): Evidence {
    var final := if a.cleanup.final.Some? then a.cleanup.final.value.loss else a.loss;
    Evidence(who, passed, !passed, halted, if a.cleanup.closeSubmitted then 1 else 0, a.cleanup.closeQuantity,
             a.cleanup.baselineQuantity, a.filled, a.notional, if final < a.loss then a.loss else final, stamp)
  }

  lemma StartsEarlier(log: Log, start: nat, earlier: nat, auth: Authorization, w: CleanupWitness)
    requires RoundTripOnLog(log, start, auth, w) && earlier <= start
    ensures RoundTripOnLog(log, earlier, auth, w)
  {
  }

  lemma RoundTripStays(was: Log, now: Log, start: nat, auth: Authorization, w: CleanupWitness)
    requires RoundTripOnLog(was, start, auth, w) && was <= now
    ensures RoundTripOnLog(now, start, auth, w)
  {
  }

  lemma SafeCleanupSurvives(was: Log, now: Log, from: nat, auth: Authorization, r: CleanupResult, w: CleanupWitness)
    requires Quiet(was, now)
    ensures SafeCleanup(was, from, auth, r, w) ==> SafeCleanup(now, from, auth, r, w)
  {
  }

  /** A cleanup after a failed attempt leaves what the attempt saw as it was. */
  lemma CleanedLater(tried: Log, log: Log, start: nat, from: nat, auth: Authorization, a: Attempt, w: CleanupWitness,
                     cleanup: CleanupResult, w1: CleanupWitness)
    requires start <= from == |tried| && tried <= log && NoOpens(log, |tried|) && OpensPrepared(tried, start, auth)
    ensures OpensPrepared(log, start, auth)
    ensures var v, b := w1.(observedAt := w.observedAt), a.(cleaned := true, cleanup := cleanup);
            && (OrderObserved(tried, start, auth, a, w) ==> OrderObserved(log, start, auth, b, v))
            && (SafeCleanup(log, from, auth, cleanup, w1) ==> SafeCleanup(log, from, auth, cleanup, v))
    ensures Stalled(tried, start, auth) ==> Stalled(log, start, auth)
  {
    StillPrepared(tried, log, start, auth);
    ObservedLater(tried, log, start, auth, a, w, a.(cleaned := true, cleanup := cleanup),
                  w1.(observedAt := w.observedAt));
    if Stalled(tried, start, auth) { StillStalled(tried, log, start, start, auth); }
  }

  lemma NotProven(auth: Authorization, a: Attempt, cleanup: CleanupResult)
    requires !(a.filled > 0.0 && a.notional <= auth.maxNotional && a.notional <= 12.0 && a.loss < auth.maxLoss)
    ensures !RoundTripProven(auth, a.(cleaned := true, cleanup := cleanup))
  {
  }

  lemma ObservedLater(was: Log, now: Log, start: nat, auth: Authorization, a: Attempt, w: CleanupWitness, b: Attempt,
                      v: CleanupWitness)
    requires was <= now && v.observedAt == w.observedAt
    requires b.filled == a.filled && b.notional == a.notional && b.loss == a.loss
    ensures OrderObserved(was, start, auth, a, w) ==> OrderObserved(now, start, auth, b, v)
  {
    if OrderObserved(was, start, auth, a, w) {
      var status, average :|
        && start <= w.observedAt && ObservedAt(was, w.observedAt, auth, status, a.filled, average, a.loss)
        && Decisive(auth, status, a.filled, average, a.loss) && a.notional == a.filled * average;
      assert ObservedAt(now, v.observedAt, auth, status, b.filled, average, b.loss);
    }
  }

  /** What the timeline shows since the run's first event it also shows since just before. */
  lemma RunSeen(was: Log, begun: Log, traded: Log, now: Log, auth: Authorization, who: Identity, w: CleanupWitness)
    requires was <= begun <= traded <= now && |begun| == |was| + 1 && begun[|was|].RunStarted?
    requires CallsAuthorized(now, |begun|, who, auth)
    ensures CallsAuthorized(now, |was|, who, auth)
    ensures NoOpens(now, |begun|) ==> NoOpens(now, |was|)
    ensures TimedOut(now, |begun|) ==> TimedOut(now, |was|)
    ensures PublicationFailed(now, |traded|) ==> PublicationFailed(now, |was|)
    ensures RoundTripOnLog(now, |begun|, auth, w) ==> RoundTripOnLog(now, |was|, auth, w)
  {
  }

  /** The HALT, and the evidence after it, change nothing of what the trade showed. */
  lemma HaltedLater(was: Log, now: Log, start: nat, from: nat, auth: Authorization, a: Attempt, w: CleanupWitness)
    requires start <= from <= |was| && Quiet(was, now) && NoOpens(now, |was|)
    ensures OpensPrepared(was, start, auth) ==> OpensPrepared(now, start, auth)
    ensures SafeCleanup(was, from, auth, a.cleanup, w) ==> SafeCleanup(now, from, auth, a.cleanup, w)
    ensures CleanupExcused(was, from, auth, a.filled, a.cleanup) ==>
              CleanupExcused(now, from, auth, a.filled, a.cleanup)
    ensures OrderObserved(was, start, auth, a, w) ==> OrderObserved(now, start, auth, a, w)
    ensures Stalled(was, start, auth) ==> Stalled(now, start, auth)
    ensures TimedOut(was, start) || TimedOut(now, |was|) ==> TimedOut(now, start)
    ensures RoundTripOnLog(was, start, auth, w) ==> RoundTripOnLog(now, start, auth, w)
  {
    if OpensPrepared(was, start, auth) { StillPrepared(was, now, start, auth); }
    if CleanupExcused(was, from, auth, a.filled, a.cleanup) {
      StillExcused(was, now, from, from, auth, a.filled, a.cleanup);
    }
    SafeCleanupSurvives(was, now, from, auth, a.cleanup, w);
    ObservedLater(was, now, start, auth, a, w, a, w);
    if Stalled(was, start, auth) { StillStalled(was, now, start, start, auth); }
    MoreTime(was, now, start);
    if RoundTripOnLog(was, start, auth, w) { RoundTripStays(was, now, start, auth, w); }
  }

  class AccountALiveTradeExecutor {
    const host: Host
    const target: Id
    const mode: Mode
    const maxObservations: nat
    const recoveryAttempts: nat
    var degraded: bool

    constructor (host: Host, target: Id, mode: Mode, maxObservations: nat, recoveryAttempts: nat)
      requires maxObservations >= 1 && recoveryAttempts >= 1
      ensures this.host == host && this.target == target && this.mode == mode
      ensures this.maxObservations == maxObservations && this.recoveryAttempts == recoveryAttempts
    {
      this.host, this.target, this.mode := host, target, mode;
      this.maxObservations, this.recoveryAttempts := maxObservations, recoveryAttempts;
      degraded := false;
    }

    function Who(auth: Authorization): Identity { IdentityOf(auth, mode) }

    ghost function Rec(auth: Authorization): Record
      requires Lookup(host.records, Who(auth)).Ok?
      reads host
    {
      host.records[KeyOf(Who(auth))]
    }

    /** While undegraded, the run's record is open for writing and no further than `ceiling`. */
    ghost predicate Journaled(auth: Authorization, enabled: bool, ceiling: nat)
      reads this, host
    {
      && host.Valid() && ceiling <= Rank(Halted)
      && (enabled ==> Lookup(host.records, Who(auth)).Ok?)
      && (enabled ==> (degraded <==> host.failing))
      && (enabled && !degraded ==>
            && !Rec(auth).state.EvidenceCommitted?
            && (Recovered(Rec(auth).history) || Rank(Rec(auth).state) <= ceiling))
    }

    /** The record has been through every milestone in one uninterrupted run. */
    ghost predicate RoundTripped(auth: Authorization)
      reads host
    {
      Lookup(host.records, Who(auth)).Ok? && !Recovered(Rec(auth).history) && MILESTONES <= StatesOf(Rec(auth).history)
    }

    function EffectOf(auth: Authorization, action: Action, index: nat): Effect { Effect(auth.digest, action, index) }

    // ---------- journal helpers ----------

    /** `_journal_prepare`: the write-ahead record of an action. */
    method JournalPrepare(auth: Authorization, action: Action, request: Request, next: Option<JournalState>,
                          ghost ceiling: nat)
      returns (ok: bool)
      requires Journaled(auth, true, ceiling) && !degraded
      requires next.Some? ==> ceiling <= Rank(next.value) <= Rank(Halted)
      modifies this`degraded, host
      ensures Journaled(auth, true, if next.Some? then Rank(next.value) else ceiling)
      ensures host.calls == old(host.calls) && host.files == old(host.files)
      ensures exists fate :: host.log == old(host.log) + [Write(Who(auth), Prepare(action, request, next), fate)]
      ensures ok == !degraded
      ensures ok ==>
                && host.log == old(host.log) + [Write(Who(auth), Prepare(action, request, next), Written)]
                && Rec(auth).pendingAction == action && Rec(auth).state == StateAfter(old(Rec(auth)), next)
                && Progress(old(Rec(auth)), Rec(auth)) && Rec(auth).state in StatesOf(Rec(auth).history)
                && OpenPendings(Rec(auth).history) ==
                     old(OpenPendings(Rec(auth).history)) + if action == Open then 1 else 0
    {
      hide Host.Valid;
      var fate := host.Update(Who(auth), Prepare(action, request, next));
      ok := fate.Written?;
      if !ok { degraded := true; }
    }

    /** `_journal_complete`: only after its own prepare, so the store's pending-action guard cannot refuse it. */
    method JournalComplete(auth: Authorization, action: Action, next: Option<JournalState>, ghost ceiling: nat)
      returns (ok: bool)
      requires Journaled(auth, true, ceiling) && !degraded && Rec(auth).pendingAction == action
      requires next.Some? ==> ceiling <= Rank(next.value) <= Rank(Halted)
      modifies this`degraded, host
      ensures Journaled(auth, true, if next.Some? then Rank(next.value) else ceiling)
      ensures host.calls == old(host.calls) && host.files == old(host.files)
      ensures exists fate :: host.log == old(host.log) + [Write(Who(auth), Complete(action, next), fate)]
      ensures ok == !degraded
      ensures ok ==>
                && Rec(auth).pendingAction == NoAction && Rec(auth).state == StateAfter(old(Rec(auth)), next)
                && Progress(old(Rec(auth)), Rec(auth)) && Rec(auth).state in StatesOf(Rec(auth).history)
                && OpenPendings(Rec(auth).history) == old(OpenPendings(Rec(auth).history))
    {
      hide Host.Valid;
      var fate := host.Update(Who(auth), Complete(action, next));
      ok := fate.Written?;
      if !ok { degraded := true; }
    }

    /** What every recovery step keeps: no OPEN without its preparation, and the rest of Going. */
    twostate predicate Kept(auth: Authorization, enabled: bool)
      reads this, host
    {
      Going(auth, enabled) && NoOpens(host.log, |old(host.log)|)
    }

    /** What every step keeps: files, earlier events, and an undegraded record only progresses. */
    twostate predicate Going(auth: Authorization, enabled: bool)
      reads this, host
    {
      && old(host.log) <= host.log && host.files == old(host.files) && (old(degraded) ==> degraded)
      && CallsAuthorized(host.log, |old(host.log)|, Who(auth), auth)
      && (!enabled ==> host.records == old(host.records) && host.failing == old(host.failing))
      && (enabled && !degraded ==>
            old(Lookup(host.records, Who(auth)).Ok?) && Lookup(host.records, Who(auth)).Ok? &&
            Progress(old(Rec(auth)), Rec(auth)))
    }

    /** `_recovery_journal_prepare`: never raises; a failed write bypasses the journal for the rest of the run. */
    method RecoveryPrepare(auth: Authorization, enabled: bool, action: Action, request: Request,
                           next: Option<JournalState>, ghost ceiling: nat)
      returns (prepared: bool)
      requires Journaled(auth, enabled, ceiling)
      requires next.Some? ==> ceiling <= Rank(next.value) <= Rank(Halted)
      modifies this`degraded, host
      ensures Journaled(auth, enabled, if next.Some? then Rank(next.value) else ceiling)
      ensures Kept(auth, enabled) && OnlyWrites(old(host.log), host.log) && host.calls == old(host.calls)
      ensures prepared <==> enabled && !degraded
      ensures prepared ==>
                Rec(auth).pendingAction == action &&
                (next.Some? ==> next.value in StatesOf(Rec(auth).history))
    {
      hide Host.Valid, Apply, ApplyToRecord, Recovered, StatesOf, OpenPendings;
      prepared := false;
      if !enabled || degraded { return; }
      prepared := JournalPrepare(auth, action, request, next, ceiling);
    }

    /** `_recovery_journal_complete`. */
    method RecoveryComplete(auth: Authorization, enabled: bool, prepared: bool, action: Action,
                            next: Option<JournalState>, ghost ceiling: nat)
      requires Journaled(auth, enabled, ceiling)
      requires prepared <==> enabled && !degraded
      requires prepared ==> Rec(auth).pendingAction == action
      requires next.Some? ==> ceiling <= Rank(next.value) <= Rank(Halted)
      modifies this`degraded, host
      ensures Journaled(auth, enabled, if next.Some? then Rank(next.value) else ceiling)
      ensures Kept(auth, enabled) && OnlyWrites(old(host.log), host.log) && host.calls == old(host.calls)
      ensures enabled && !degraded && next.Some? ==>
                Rec(auth).state == next.value && next.value in StatesOf(Rec(auth).history)
      ensures enabled && !degraded ==> Rec(auth).pendingAction == NoAction
    {
      hide Host.Valid, Apply, ApplyToRecord, Recovered, StatesOf, OpenPendings;
      if !enabled || !prepared || degraded { return; }
      var ok := JournalComplete(auth, action, next, ceiling);
    }

    /** `_recovery_journal_mark_state`. */
    method RecoveryMark(auth: Authorization, enabled: bool, state: JournalState, ghost ceiling: nat)
      requires Journaled(auth, enabled, ceiling) && ceiling <= Rank(state) <= Rank(Halted)
      modifies this`degraded, host
      ensures Journaled(auth, enabled, Rank(state))
      ensures Kept(auth, enabled) && OnlyWrites(old(host.log), host.log) && host.calls == old(host.calls)
      ensures enabled && !degraded ==> Rec(auth).state == state && state in StatesOf(Rec(auth).history)
    {
      hide Host.Valid;
      if !enabled || degraded { return; }
      var fate := host.Update(Who(auth), Mark(state));
      if !fate.Written? { degraded := true; }
    }

    // ---------- cleanup ----------

    /** One adapter call of the recovery, written ahead, unless the time is over once that write is done. */
    method RecoveryCall(auth: Authorization, enabled: bool, action: Action, request: Request,
                        next: Option<JournalState>, ghost ceiling: nat)
      returns (left: bool, prepared: bool, reply: Reply, ghost at: nat)
      requires Journaled(auth, enabled, ceiling) && RequestFor(request, auth) && !request.SubmitOpen?
      requires next.Some? ==> ceiling <= Rank(next.value) <= Rank(Halted)
      modifies this`degraded, host
      ensures Journaled(auth, enabled, if next.Some? then Rank(next.value) else ceiling) && Kept(auth, enabled)
      ensures OneStep(old(host.log), host.log, at) && at == |host.log| - 1
      ensures if left then
                host.calls == old(host.calls) + 1 && host.log[at] == Call(Who(auth), request, reply, host.exchange)
              else host.calls == old(host.calls) && host.log[at] == TimeOver(Who(auth))
      ensures prepared <==> enabled && !degraded
      ensures prepared ==>
                Rec(auth).pendingAction == action && (next.Some? ==> next.value in StatesOf(Rec(auth).history))
    {
      hide Host.Valid, Apply, ApplyToRecord, Recovered, StatesOf, OpenPendings, Lookup, RequestFor;
      prepared := RecoveryPrepare(auth, enabled, action, request, next, ceiling);
      at := |host.log|;
      left := host.TimeLeft(Who(auth));
      if left {
        reply := host.Dispatch(Who(auth), request);
      } else {
        reply := Raised;
      }
    }

    /** The cancel loop of `_flatten_target_risk`; its failures only matter if nothing later clears them. */
    method CancelRemainder(auth: Authorization, enabled: bool, ghost ceiling: nat)
      requires Journaled(auth, enabled, ceiling)
      modifies this`degraded, host
      ensures Journaled(auth, enabled, ceiling) && Kept(auth, enabled) && Quiet(old(host.log), host.log)
      ensures old(host.calls) <= host.calls <= old(host.calls) + recoveryAttempts
      ensures TimedOut(host.log, |old(host.log)|) || OrderCanceled(host.log, |old(host.log)|, auth) ||
              host.calls == old(host.calls) + recoveryAttempts
    {
      hide Host.Valid, Apply, ApplyToRecord, Recovered, StatesOf, OpenPendings, Lookup, RequestFor, TimedOut,
           OrderCanceled;
      NothingCanceled(host.log, auth);
      var attempt := 1;
      while attempt <= recoveryAttempts
        invariant 1 <= attempt <= recoveryAttempts + 1
        invariant Journaled(auth, enabled, ceiling) && Kept(auth, enabled) && Quiet(old(host.log), host.log)
        invariant host.calls == old(host.calls) + attempt - 1 && !OrderCanceled(host.log, |old(host.log)|, auth)
      {
        ghost var before := host.log;
        var budget := host.TimeLeft(Who(auth));
        if !budget {
          TimeIsOver(host.log, |old(host.log)|);
          MoreCanceled(before, host.log, |old(host.log)|, auth);
          break;
        }
        var stop, acked := CancelOnce(auth, enabled, attempt, ceiling);
        MoreCanceled(before, host.log, |old(host.log)|, auth);
        MoreTime(before, host.log, |old(host.log)|);
        if stop || acked { break; }
        attempt := attempt + 1;
      }
    }

    /** One cancel call, written ahead; it may find that the time is over. */
    method CancelOnce(auth: Authorization, enabled: bool, attempt: nat, ghost ceiling: nat)
      returns (stop: bool, acked: bool)
      requires Journaled(auth, enabled, ceiling)
      modifies this`degraded, host
      ensures Journaled(auth, enabled, ceiling) && Kept(auth, enabled) && Quiet(old(host.log), host.log)
      ensures host.calls == old(host.calls) + if stop then 0 else 1
      ensures stop <==> TimedOut(host.log, |old(host.log)|)
      ensures acked <==> OrderCanceled(host.log, |old(host.log)|, auth)
      ensures acked ==> !stop && (enabled && !degraded ==> Rec(auth).pendingAction == NoAction)
    {
      hide Host.Valid, Apply, ApplyToRecord, Recovered, StatesOf, OpenPendings, Lookup, CancelAcked, OrderCanceled,
           TimedOut, OneStep, OnlyWrites;
      stop, acked := false, false;
      ghost var was := host.log;
      var request := CancelOpenOrder(auth.openId, attempt, EffectOf(auth, CancelOpen, 0));
      var left, prepared, reply, at := RecoveryCall(auth, enabled, CancelOpen, request, None, ceiling);
      StepMeans(was, host.log, at, auth);
      if !left { return true, false; }
      acked := AckValid(reply, CancelOpen, auth.intentId, request.effect, Some(auth.openId));
      CancelRead(host.log, at, auth, request, reply);
      if acked {
        ghost var mid := host.log;
        RecoveryComplete(auth, enabled, prepared, CancelOpen, None, ceiling);
        StepWrites(was, mid, host.log, at);
        StepMeans(was, host.log, at, auth);
      }
    }

    /** One `current_position` query of the close loop. */
    method ReadTargetPosition(auth: Authorization, enabled: bool, attempt: nat, ghost ceiling: nat)
      returns (timedOut: bool, p: Option<PositionSnapshot>, ghost at: nat)
      requires Journaled(auth, enabled, ceiling)
      modifies this`degraded, host
      ensures Journaled(auth, enabled, ceiling) && Kept(auth, enabled) && Quiet(old(host.log), host.log)
      ensures host.calls == old(host.calls) + if timedOut then 0 else 1
      ensures p.Some? ==>
                && !timedOut && |old(host.log)| <= at
                && PositionReadAt(host.log, at, auth, p.value.quantity, p.value.side)
                && FillReadAt(host.log, at, auth, p.value.confirmedFill)
                && p.value.quantity >= 0.0 && 0.0 <= p.value.confirmedFill <= auth.quantity
                && p.value.side == (if p.value.quantity == 0.0 then Flat else if auth.openSide == Buy then Long
                                    else Short)
                && (enabled && !degraded ==> Rec(auth).pendingAction == NoAction)
      ensures timedOut <==> TimedOut(host.log, |old(host.log)|)
      ensures !timedOut ==>
                && |old(host.log)| <= at < |host.log| && host.log[at].Call? && host.log[at].request.ReadPosition?
                && (p.Some? <==> ReadingUsable(host.log[at].reply, auth))
    {
      hide Host.Valid, Apply, ApplyToRecord, Recovered, StatesOf, OpenPendings, Lookup, TimedOut, OneStep, OnlyWrites;
      timedOut, p := false, None;
      ghost var was := host.log;
      var request := ReadPosition(auth.openId, attempt, EffectOf(auth, QueryPosition, attempt));
      var left, prepared, reply;
      left, prepared, reply, at := RecoveryCall(auth, enabled, QueryPosition, request, None, ceiling);
      StepMeans(was, host.log, at, auth);
      if !left { return true, None, at; }
      p := ParsePosition(reply, auth);
      if p.Some? {
        ghost var mid := host.log;
        RecoveryComplete(auth, enabled, prepared, QueryPosition, None, ceiling);
        StepWrites(was, mid, host.log, at);
        StepMeans(was, host.log, at, auth);
      }
    }

    /** The first `submit_close` of a cleanup, written ahead as CLOSE_PENDING. */
    method SubmitFirstClose(auth: Authorization, enabled: bool, quantity: real, baseline: real,
                            baselineSide: PositionSide, attempt: nat, ghost ceiling: nat)
      returns (timedOut: bool, confirmed: bool, ghost at: nat)
      requires Journaled(auth, enabled, ceiling) && ceiling <= Rank(ClosePending) && quantity > 0.0
      modifies this`degraded, host
      ensures Journaled(auth, enabled, if confirmed then Rank(CloseConfirmed) else Rank(ClosePending))
      ensures Kept(auth, enabled) && host.calls == old(host.calls) + if timedOut then 0 else 1
      ensures ClosesShare(host.log, |old(host.log)|, auth, quantity, baseline, baselineSide)
      ensures confirmed ==> !timedOut && |old(host.log)| <= at && CloseAckAt(host.log, at, auth, quantity)
      ensures !confirmed ==> NoCloseAck(host.log, |old(host.log)|, auth, quantity)
      ensures timedOut <==> TimedOut(host.log, |old(host.log)|)
      ensures !timedOut ==>
                && |old(host.log)| <= at < |host.log| && CloseCall(host.log[at])
                && (confirmed <==> CloseAcked(host.log[at], auth, quantity))
      ensures enabled && !degraded ==> ClosePending in StatesOf(Rec(auth).history)
      ensures enabled && !degraded && confirmed ==> CloseConfirmed in StatesOf(Rec(auth).history)
    {
      hide Host.Valid, Apply, ApplyToRecord, Recovered, StatesOf, OpenPendings, Lookup, RequestFor, TimedOut, OneStep,
           OnlyWrites, CloseRequest, CloseAcked, CloseAckAt, CloseAckValid, ClosesShare, NoCloseAck;
      timedOut, confirmed := false, false;
      ghost var was := host.log;
      CloseAllowed(auth, quantity, baseline, baselineSide, attempt);
      var request := CloseRequest(auth, quantity, baseline, baselineSide, attempt);
      var left, prepared, reply;
      left, prepared, reply, at := RecoveryCall(auth, enabled, Close, request, Some(ClosePending), ceiling);
      StepMeans(was, host.log, at, auth);
      if left {
        confirmed := CloseAckValid(reply, auth, request.effect, quantity);
        if confirmed {
          ghost var mid := host.log;
          RecoveryComplete(auth, enabled, prepared, Close, Some(CloseConfirmed), Rank(ClosePending));
          StepWrites(was, mid, host.log, at);
          StepMeans(was, host.log, at, auth);
        }
        AfterStep(was, host.log, at);
        CloseRead(host.log, at, auth, quantity, baseline, baselineSide, attempt, reply);
      } else {
        timedOut := true;
        NoAckInTime(host.log, at, auth, quantity);
      }
      StepCloses(was, host.log, at, auth, quantity, baseline, baselineSide);
    }

    /** A later `submit_close` with the same request, to learn what became of the first. */
    method ReconcileClose(auth: Authorization, enabled: bool, quantity: real, baseline: real,
                          baselineSide: PositionSide, attempt: nat)
      returns (timedOut: bool, confirmed: bool, ghost at: nat)
      requires Journaled(auth, enabled, Rank(ClosePending)) && quantity > 0.0
      modifies this`degraded, host
      ensures Journaled(auth, enabled, if confirmed then Rank(CloseConfirmed) else Rank(ClosePending))
      ensures Kept(auth, enabled) && host.calls == old(host.calls) + if timedOut then 0 else 1
      ensures ClosesShare(host.log, |old(host.log)|, auth, quantity, baseline, baselineSide)
      ensures confirmed ==> !timedOut && |old(host.log)| <= at && CloseAckAt(host.log, at, auth, quantity)
      ensures !confirmed ==> NoCloseAck(host.log, |old(host.log)|, auth, quantity)
      ensures timedOut <==> TimedOut(host.log, |old(host.log)|)
      ensures !timedOut ==>
                && |old(host.log)| <= at < |host.log| && CloseCall(host.log[at])
                && (confirmed <==> CloseAcked(host.log[at], auth, quantity))
      ensures enabled && !degraded && confirmed ==> CloseConfirmed in StatesOf(Rec(auth).history)
    {
      hide Host.Valid, Apply, ApplyToRecord, Recovered, StatesOf, OpenPendings, Lookup, RequestFor, TimedOut, OneStep,
           OnlyWrites, CloseRequest, CloseAcked, CloseAckAt, CloseAckValid, ClosesShare, NoCloseAck;
      timedOut, confirmed, at := false, false, |host.log|;
      ghost var was := host.log;
      CloseAllowed(auth, quantity, baseline, baselineSide, attempt);
      var request := CloseRequest(auth, quantity, baseline, baselineSide, attempt);
      var left := host.TimeLeft(Who(auth));
      if left {
        var reply := host.Dispatch(Who(auth), request);
        ghost var mid := host.log;
        StepDone(was, mid);
        confirmed := CloseAckValid(reply, auth, request.effect, quantity);
        if confirmed {
          RecoveryMark(auth, enabled, CloseConfirmed, Rank(ClosePending));
          StepWrites(was, mid, host.log, at);
        }
        AfterStep(was, host.log, at);
        CloseRead(host.log, at, auth, quantity, baseline, baselineSide, attempt, reply);
      } else {
        timedOut := true;
        StepDone(was, host.log);
        NoAckInTime(host.log, at, auth, quantity);
      }
      StepMeans(was, host.log, at, auth);
      StepCloses(was, host.log, at, auth, quantity, baseline, baselineSide);
    }

    /** One `final_snapshot` query. */
    method ReadFinalState(auth: Authorization, enabled: bool, baseline: real, baselineSide: PositionSide,
                          attempt: nat, ghost ceiling: nat)
      returns (timedOut: bool, final: Option<FinalState>, ghost at: nat)
      requires Journaled(auth, enabled, ceiling)
      modifies this`degraded, host
      ensures Journaled(auth, enabled, ceiling) && Kept(auth, enabled) && Quiet(old(host.log), host.log)
      ensures host.calls <= old(host.calls) + 1
      ensures final.Some? ==> |old(host.log)| <= at && FinalAt(host.log, at, auth, baseline, baselineSide, final.value)
      ensures final.Some? && enabled && !degraded ==> Rec(auth).pendingAction == NoAction
      ensures timedOut <==> TimedOut(host.log, |old(host.log)|)
      ensures host.calls == old(host.calls) + if timedOut then 0 else 1
      ensures !timedOut ==>
                && |old(host.log)| <= at < |host.log| && host.log[at].Call? && host.log[at].request.TakeFinalSnapshot?
                && (final.None? ==>
                      forall f :: FinalAt(host.log, at, auth, baseline, baselineSide, f) ==>
                                    f.fees < 0.0 || baseline < 0.0 || host.log[at].reply.flat != (baseline == 0.0))
    {
      hide Host.Valid, Apply, ApplyToRecord, Recovered, StatesOf, OpenPendings, Lookup, TimedOut, OneStep, OnlyWrites;
      timedOut, final := false, None;
      ghost var was := host.log;
      var request := TakeFinalSnapshot(attempt, baseline, baselineSide, EffectOf(auth, FinalSnapshot, attempt));
      var left, prepared, reply;
      left, prepared, reply, at := RecoveryCall(auth, enabled, FinalSnapshot, request, None, ceiling);
      StepMeans(was, host.log, at, auth);
      if !left { return true, None, at; }
      final := ValidateFinalSnapshot(reply, auth, baseline, baselineSide);
      if final.Some? {
        ghost var mid := host.log;
        RecoveryComplete(auth, enabled, prepared, FinalSnapshot, None, ceiling);
        StepWrites(was, mid, host.log, at);
        StepMeans(was, host.log, at, auth);
      }
    }

    /** The verification loop of `_flatten_target_risk`. */
    method VerifyFinalState(auth: Authorization, enabled: bool, baseline: real, baselineSide: PositionSide,
                            ghost ceiling: nat)
      returns (final: Option<FinalState>, ghost at: nat)
      requires Journaled(auth, enabled, ceiling)
      modifies this`degraded, host
      ensures Journaled(auth, enabled, ceiling) && Kept(auth, enabled) && Quiet(old(host.log), host.log)
      ensures old(host.calls) <= host.calls <= old(host.calls) + recoveryAttempts
      ensures final.Some? ==> |old(host.log)| <= at && FinalAt(host.log, at, auth, baseline, baselineSide, final.value)
      ensures final.None? ==> TimedOut(host.log, |old(host.log)|) || host.calls == old(host.calls) + recoveryAttempts
    {
      hide Host.Valid, RequestFor, Acknowledged, TimedOut, FinalAt;
      final, at := None, 0;
      var attempt := 1;
      while attempt <= recoveryAttempts
        invariant 1 <= attempt <= recoveryAttempts + 1 && final.None?
        invariant Journaled(auth, enabled, ceiling) && Kept(auth, enabled) && Quiet(old(host.log), host.log)
        invariant host.calls == old(host.calls) + attempt - 1
      {
        ghost var before := host.log;
        var budget := host.TimeLeft(Who(auth));
        if !budget {
          TimeIsOver(host.log, |old(host.log)|);
          break;
        }
        var timedOut;
        timedOut, final, at := ReadFinalState(auth, enabled, baseline, baselineSide, attempt, ceiling);
        MoreTime(before, host.log, |old(host.log)|);
        if timedOut || final.Some? { break; }
        attempt := attempt + 1;
      }
    }

    /** Where the close loop of a cleanup stands. */
    ghost predicate ClosingSoFar(from: nat, auth: Authorization, enabled: bool, c: Closing, w: CleanupWitness)
      reads this, host
    {
      && Journaled(auth, enabled, c.Ceiling()) && ClosingLog(host.log, from, auth, c, w)
      && (enabled && !degraded && c.attempted ==> ClosePending in StatesOf(Rec(auth).history))
      && (enabled && !degraded && c.confirmed ==> CloseConfirmed in StatesOf(Rec(auth).history))
    }

    /** The close loop of `_flatten_target_risk`: query, decide once, close once, reconcile, confirm the baseline. */
    method CloseOut(auth: Authorization, enabled: bool, expected: real, ghost from: nat)
      returns (c: Closing, settled: bool, ghost w: CleanupWitness)
      requires Journaled(auth, enabled, Rank(OpenObserved)) && from <= |host.log| && NoCloses(host.log, from)
      modifies this`degraded, host
      ensures ClosingSoFar(from, auth, enabled, c, w) && Kept(auth, enabled)
      ensures c.attempted && expected > 0.0 ==> c.quantity == expected
      ensures old(host.calls) <= host.calls <= old(host.calls) + 2 * recoveryAttempts
      ensures settled ==> SettledLog(host.log, from, auth, c, w)
      ensures !c.attempted ==> c.quantity == 0.0
      ensures !settled ==>
                || TimedOut(host.log, |old(host.log)|) || host.calls >= old(host.calls) + recoveryAttempts
                || ReadingForbids(host.log, |old(host.log)|, auth, c, expected)
    {
      hide Host.Valid, RequestFor, Acknowledged, TimedOut, PositionReadAt, FillReadAt, Contradicts, AtRest, Lookup;
      c, settled, w := Closing(false, false, 0.0, 0.0, Flat), false, CleanupWitness(0, 0, 0, 0, 0);
      var attempt := 1;
      while attempt <= recoveryAttempts
        invariant 1 <= attempt <= recoveryAttempts + 1 && !settled
        invariant ClosingSoFar(from, auth, enabled, c, w) && Kept(auth, enabled)
        invariant (c.attempted && expected > 0.0 ==> c.quantity == expected) && (!c.attempted ==> c.quantity == 0.0)
        invariant old(host.calls) + attempt - 1 <= host.calls <= old(host.calls) + 2 * (attempt - 1)
      {
        ghost var before := host.log;
        var budget := host.TimeLeft(Who(auth));
        if !budget {
          ClosingLogSurvives(before, host.log, from, auth, c, w);
          TimeIsOver(host.log, |old(host.log)|);
          break;
        }
        var stop;
        ghost var read, at;
        c, settled, stop, w, read, at := CloseStep(auth, enabled, expected, attempt, c, w, from);
        MoreTime(before, host.log, |old(host.log)|);
        if settled || stop { break; }
        attempt := attempt + 1;
      }
    }

    /** One pass of the close loop. */
    method CloseStep(auth: Authorization, enabled: bool, expected: real, attempt: nat,
                     c0: Closing, ghost w0: CleanupWitness, ghost from: nat)
      returns (c: Closing, settled: bool, stop: bool, ghost w: CleanupWitness, ghost read: Option<PositionSnapshot>,
               ghost at: nat)
      requires ClosingSoFar(from, auth, enabled, c0, w0)
      requires c0.attempted && expected > 0.0 ==> c0.quantity == expected
      modifies this`degraded, host
      ensures ClosingSoFar(from, auth, enabled, c, w) && Kept(auth, enabled)
      ensures c.attempted && expected > 0.0 ==> c.quantity == expected
      ensures old(host.calls) <= host.calls <= old(host.calls) + 2
      ensures settled ==> SettledLog(host.log, from, auth, c, w)
      ensures !c.attempted ==> c == c0
      ensures read.Some? ==>
                && |old(host.log)| <= at && PositionReadAt(host.log, at, auth, read.value.quantity, read.value.side)
                && FillReadAt(host.log, at, auth, read.value.confirmedFill)
      ensures settled <==> read.Some? && AtRest(c0, read.value.quantity, read.value.side, read.value.confirmedFill)
      ensures stop <==> TimedOut(host.log, |old(host.log)|) ||
                        (read.Some? && !settled &&
                         Contradicts(c0, expected, read.value.quantity, read.value.side, read.value.confirmedFill))
      ensures stop && !TimedOut(host.log, |old(host.log)|) ==> c == c0
      ensures !TimedOut(host.log, |old(host.log)|) ==> host.calls > old(host.calls)
      ensures read.Some? && c0.attempted && !c0.confirmed && !stop ==>
                exists i :: |old(host.log)| <= i < |host.log| && CloseCall(host.log[i])
    {
      hide Host.Valid, Recovered, StatesOf, SafeCleanup, Lookup, CloseAckValid, ParsePosition, RequestFor, Acknowledged,
           TimedOut, PositionReadAt, FillReadAt, ReadingUsable, CloseAcked, ClosingLog, SettledLog, ClosesShare,
           NoCloseAck, CloseAckAt, Decided;
      c, settled, stop, w := c0, false, false, w0;
      ghost var was := host.log;
      var p;
      stop, p, at := ReadTargetPosition(auth, enabled, attempt, c.Ceiling());
      read := p;
      ClosingLogSurvives(was, host.log, from, auth, c, w);
      if p.None? { return; }
      ghost var before := host.log;
      if c.attempted && !c.confirmed {
        ghost var closedAt;
        var confirmed;
        stop, confirmed, closedAt := ReconcileClose(auth, enabled, c.quantity, c.baseline, c.baselineSide, attempt);
        MoreTime(before, host.log, |old(host.log)|);
        ReadingStays(before, host.log, at, auth, p.value);
        ReconciledLog(before, host.log, from, auth, c, w, confirmed, closedAt);
        c, w := c.(confirmed := confirmed), if confirmed then w.(closedAt := closedAt) else w;
        return;
      }
      if c.confirmed {
        settled := p.value.quantity == c.baseline && p.value.side == c.baselineSide;
        ConfirmedLog(was, host.log, from, auth, c, w, at);
        stop, w := !settled, w.(confirmedAt := at);
        return;
      }
      c, settled, stop, w := DecideClose(auth, enabled, expected, attempt, c, p.value, w, from, at);
      MoreTime(before, host.log, |old(host.log)|);
      ReadingStays(before, host.log, at, auth, p.value);
    }

    /**
     The first usable reading: nothing to do, nothing that may be done, or the close of exactly the confirmed fill.
     */
    method DecideClose(auth: Authorization, enabled: bool, expected: real, attempt: nat, c0: Closing,
                       p: PositionSnapshot,
                       ghost w0: CleanupWitness, ghost from: nat, ghost at: nat)
      returns (c: Closing, settled: bool, stop: bool, ghost w: CleanupWitness)
      requires ClosingSoFar(from, auth, enabled, c0, w0) && !c0.attempted && from <= at
      requires PositionReadAt(host.log, at, auth, p.quantity, p.side) && FillReadAt(host.log, at, auth, p.confirmedFill)
      modifies this`degraded, host
      ensures ClosingSoFar(from, auth, enabled, c, w) && Kept(auth, enabled)
      ensures c.attempted && expected > 0.0 ==> c.quantity == expected
      ensures old(host.calls) <= host.calls <= old(host.calls) + 1
      ensures settled ==> SettledLog(host.log, from, auth, c, w)
      ensures c.attempted <==>
                p.confirmedFill > 0.0 && p.quantity >= p.confirmedFill &&
                    (expected > 0.0 ==> p.confirmedFill == expected)
      ensures settled <==> p.confirmedFill == 0.0 == p.quantity
      ensures !c.attempted ==> c == c0 && host.log == old(host.log)
      ensures c.attempted && !stop ==> exists i :: |old(host.log)| <= i < |host.log| && CloseCall(host.log[i])
      ensures stop <==>
                TimedOut(host.log, |old(host.log)|) || Contradicts(c0, expected, p.quantity, p.side, p.confirmedFill)
      ensures TimedOut(host.log, |old(host.log)|) ==> c.attempted
    {
      hide Host.Valid, Recovered, StatesOf, SafeCleanup, Lookup, CloseAckValid, ParsePosition, RequestFor, Acknowledged,
           TimedOut, CloseAcked;
      NothingCanceled(host.log, auth);
      c, settled, stop, w := c0, false, false, w0;
      var fill := p.confirmedFill;
      if fill == 0.0 {
        settled := p.quantity == 0.0;
        stop := !settled && !(expected > 0.0 && p.quantity >= expected);
        w := w.(confirmedAt := at);
        return;
      }
      if (expected > 0.0 && fill != expected) || p.quantity < fill {
        stop := true;
        return;
      }
      var baseline := p.quantity - fill;
      var baselineSide := if baseline == 0.0 then Flat else p.side;
      ghost var closedAt;
      var confirmed;
      w := w.(decidedAt := at);
      stop, confirmed, closedAt := SubmitFirstClose(auth, enabled, fill, baseline, baselineSide, attempt, c.Ceiling());
      c := Closing(true, confirmed, fill, baseline, baselineSide);
      if confirmed { w := w.(closedAt := closedAt); }
    }

    /**
     `_flatten_target_risk`.  Never raises.  `safe` is reported only on the evidence of SafeCleanup,
     whatever the cancel loop did, and every close it asked for is the same close.
     */
    method FlattenTargetRisk(auth: Authorization, enabled: bool, expected: real)
      returns (r: CleanupResult, ghost w: CleanupWitness)
      requires Journaled(auth, enabled, Rank(OpenObserved))
      modifies this`degraded, host
      ensures Journaled(auth, enabled, Rank(CloseConfirmed)) && Kept(auth, enabled)
      ensures old(host.calls) <= host.calls <= old(host.calls) + 4 * recoveryAttempts
      ensures r.safe ==> SafeCleanup(host.log, |old(host.log)|, auth, r, w)
      ensures !r.safe ==>
                || CleanupExcused(host.log, |old(host.log)|, auth, expected, r)
                || host.calls >= old(host.calls) + recoveryAttempts
      ensures || OrderCanceled(host.log, |old(host.log)|, auth) || TimedOut(host.log, |old(host.log)|)
              || host.calls >= old(host.calls) + recoveryAttempts
      ensures r.closeQuantity != 0.0 && expected > 0.0 ==> r.closeQuantity == expected
      ensures r.closeSubmitted ==> CloseAckAt(host.log, w.closedAt, auth, r.closeQuantity)
      ensures !r.closeSubmitted ==> NoCloseAck(host.log, |old(host.log)|, auth, r.closeQuantity)
      ensures if r.closeQuantity == 0.0 then NoCloses(host.log, |old(host.log)|)
              else && Decided(host.log, |old(host.log)|, auth, w.decidedAt, r.closeQuantity, r.baselineQuantity,
                              r.baselineSide)
                   && ClosesShare(host.log, |old(host.log)|, auth, r.closeQuantity, r.baselineQuantity, r.baselineSide)
      ensures enabled && !degraded && r.closeSubmitted ==> {ClosePending, CloseConfirmed} <= StatesOf(Rec(auth).history)
    {
      hide Host.Valid, Recovered, StatesOf, RequestFor, Acknowledged, ClosingLog, SettledLog, SafeCleanup, FinalAt,
           Decided, ClosesShare, NoCloseAck, CloseAckAt, TimedOut, OrderCanceled, ReadingForbids, CleanupExcused,
           Lookup, CallsAuthorized, NoOpens;
      ghost var from, was := |host.log|, host.log;
      CancelRemainder(auth, enabled, Rank(OpenObserved));
      ghost var canceled := host.log;
      var c, settled;
      c, settled, w := CloseOut(auth, enabled, expected, from);
      ghost var closedOut := host.log;
      Joined(was, canceled, closedOut, Who(auth), auth);
      var final: Option<FinalState> := None;
      if settled {
        ghost var finalAt;
        final, finalAt := VerifyFinalState(auth, enabled, c.baseline, c.baselineSide, c.Ceiling());
        Joined(was, closedOut, host.log, Who(auth), auth);
        Settled(closedOut, host.log, from, auth, c, w, finalAt);
        w := w.(finalAt := finalAt);
        if final.Some? { Cleaned(host.log, from, auth, c, w, final.value); }
      }
      r := CleanupResult(settled && final.Some?, c.confirmed, c.quantity, c.baseline, c.baselineSide, final);
      ClosesOf(host.log, from, auth, c, w);
      StretchedOut(canceled, closedOut, host.log, from, auth, c, expected, r);
    }

    /** `_halt_with_recovery`: true only after a validated acknowledgement. */
    method HaltWithRecovery(auth: Authorization, enabled: bool)
      returns (halted: bool, ghost at: nat)
      requires Journaled(auth, enabled, Rank(CloseConfirmed))
      modifies this`degraded, host
      ensures Journaled(auth, enabled, Rank(Halted)) && Kept(auth, enabled) && Quiet(old(host.log), host.log)
      ensures old(host.calls) <= host.calls <= old(host.calls) + recoveryAttempts
      ensures halted ==> |old(host.log)| <= at && HaltedAt(host.log, at, auth)
      ensures halted && enabled && !degraded ==> Rec(auth).state == Halted && Halted in StatesOf(Rec(auth).history)
      ensures !halted ==> TimedOut(host.log, |old(host.log)|) || host.calls == old(host.calls) + recoveryAttempts
    {
      hide Host.Valid, Recovered, StatesOf, TimedOut, HaltedAt, Lookup;
      halted, at := false, 0;
      var attempt := 1;
      while attempt <= recoveryAttempts
        invariant 1 <= attempt <= recoveryAttempts + 1 && !halted
        invariant Journaled(auth, enabled, Rank(CloseConfirmed)) && Kept(auth, enabled) &&
                  Quiet(old(host.log), host.log)
        invariant host.calls == old(host.calls) + attempt - 1
      {
        ghost var before := host.log;
        var budget := host.TimeLeft(Who(auth));
        if !budget {
          TimeIsOver(host.log, |old(host.log)|);
          break;
        }
        var stop;
        stop, halted, at := HaltOnce(auth, enabled, attempt);
        MoreTime(before, host.log, |old(host.log)|);
        if stop || halted { break; }
        attempt := attempt + 1;
      }
    }

    /** One HALT call, written ahead; only a validated acknowledgement counts, and is recorded as HALTED. */
    method HaltOnce(auth: Authorization, enabled: bool, attempt: nat) returns (stop: bool, halted: bool, ghost at: nat)
      requires Journaled(auth, enabled, Rank(CloseConfirmed))
      modifies this`degraded, host
      ensures Journaled(auth, enabled, if halted then Rank(Halted) else Rank(CloseConfirmed))
      ensures Kept(auth, enabled) && Quiet(old(host.log), host.log) &&
              host.calls == old(host.calls) + if stop then 0 else 1
      ensures stop <==> TimedOut(host.log, |old(host.log)|)
      ensures !stop ==> |old(host.log)| <= at < |host.log| && (halted <==> HaltedAt(host.log, at, auth))
      ensures halted ==> !stop
      ensures halted && enabled && !degraded ==> Rec(auth).state == Halted && Halted in StatesOf(Rec(auth).history)
    {
      hide Host.Valid, Apply, ApplyToRecord, Recovered, StatesOf, OpenPendings, Lookup, TimedOut, OneStep, OnlyWrites;
      stop, halted := false, false;
      ghost var was := host.log;
      var request := HaltTrading(attempt, EffectOf(auth, Halt, 0));
      var left, prepared, reply;
      left, prepared, reply, at := RecoveryCall(auth, enabled, Halt, request, None, Rank(CloseConfirmed));
      StepMeans(was, host.log, at, auth);
      if !left { return true, false, at; }
      halted := HaltAckValid(reply, auth, request.effect);
      if halted {
        ghost var mid := host.log;
        RecoveryComplete(auth, enabled, prepared, Halt, Some(Halted), Rank(CloseConfirmed));
        StepWrites(was, mid, host.log, at);
        StepMeans(was, host.log, at, auth);
      }
    }

    // ---------- the round trip ----------

    /** One observation of the open order; only a journaled one counts. */
    method ObserveOnce(auth: Authorization, index: nat, ghost ceiling: nat)
      returns (o: Option<TradeObservation>, ghost at: nat)
      requires Journaled(auth, true, ceiling) && !degraded && ceiling <= Rank(OpenObserved)
      modifies this`degraded, host
      ensures Journaled(auth, true, Rank(OpenObserved)) && Kept(auth, true) &&
              old(host.calls) <= host.calls <= old(host.calls) + 1
      ensures forall i :: |old(host.log)| <= i < |host.log| && i != at ==> !host.log[i].Call?
      ensures o.Some? ==>
                && !degraded && OpenObserved in StatesOf(Rec(auth).history) && |old(host.log)| <= at
                && ObservedAt(host.log, at, auth, o.value.status, o.value.filled, o.value.average, o.value.loss)
      ensures o.None? && !degraded ==> at == |host.log| - 1
      ensures !degraded ==>
                && |old(host.log)| <= at < |host.log| && host.log[at].Call? && host.log[at].request.ObserveOpen?
                && host.calls == old(host.calls) + 1 && (o.Some? <==> ObservationUsable(host.log[at].reply, auth))
    {
      hide Host.Valid, Apply, ApplyToRecord, Recovered, StatesOf, OpenPendings, ParseObservation, ObservationUsable,
           ObservedAt, Lookup, Acknowledged;
      o, at := None, 0;
      var request := ObserveOpen(auth.openId, index, EffectOf(auth, Observe, index));
      var ok := JournalPrepare(auth, Observe, request, None, ceiling);
      if !ok { return; }
      at := |host.log|;
      var reply := host.Dispatch(Who(auth), request);
      var latest := ParseObservation(reply, auth);
      ObservationRead(host.log, at, auth);
      if latest.None? { return; }
      ok := JournalComplete(auth, Observe, Some(OpenObserved), ceiling);
      if ok { o := latest; }
      ObservationRead(host.log, at, auth);
    }

    /** `_wait_for_open_terminal`: it ends with the first observation that decides, or without one. */
    method WaitForOpenTerminal(auth: Authorization) returns (o: Option<TradeObservation>, ghost at: nat)
      requires Journaled(auth, true, Rank(OpenSubmitted)) && !degraded
      modifies this`degraded, host
      ensures Journaled(auth, true, Rank(OpenObserved)) && Kept(auth, true)
      ensures old(host.calls) <= host.calls <= old(host.calls) + maxObservations
      ensures o.Some? ==>
                && !degraded && OpenObserved in StatesOf(Rec(auth).history) && |old(host.log)| <= at
                && ObservedAt(host.log, at, auth, o.value.status, o.value.filled, o.value.average, o.value.loss)
                && Decisive(auth, o.value.status, o.value.filled, o.value.average, o.value.loss)
                && NothingDecisive(host.log, |old(host.log)|, at, auth)
      ensures o.None? && !degraded ==>
                && NothingDecisive(host.log, |old(host.log)|, |host.log|, auth)
                && (Stalled(host.log, |old(host.log)|, auth) || host.calls == old(host.calls) + maxObservations)
    {
      hide Host.Valid, RequestFor, Acknowledged, CallsAuthorized, NoOpens, ObservedAt, NothingDecisive,
           ObservationUsable, Stalled, Recovered, StatesOf, Lookup, Decisive, OverLimit;
      at := 0;
      ghost var was := host.log;
      NothingYet(was, auth);
      NothingAuthorized(was, Who(auth), auth);
      var index := 1;
      while index <= maxObservations
        invariant 1 <= index <= maxObservations + 1
        invariant Journaled(auth, true, Rank(OpenObserved)) && Kept(auth, true) && !degraded
        invariant host.calls == old(host.calls) + index - 1
        invariant NothingDecisive(host.log, |old(host.log)|, |host.log|, auth)
      {
        ghost var before := host.log;
        o, at := ObserveOnce(auth, index, Rank(OpenObserved));
        Joined(was, before, host.log, Who(auth), auth);
        if o.None? {
          if !degraded {
            UnusableObservation(before, host.log, |old(host.log)|, at, auth);
            StalledAt(host.log, at, |old(host.log)|, auth);
          }
          return;
        }
        OneObservation(before, host.log, |old(host.log)|, at, auth, o.value);
        DecisiveExactly(auth, o.value);
        if OverLimit(auth, o.value) || TerminalOpen(o.value.status) { return; }
        index := index + 1;
      }
      o := None;
    }

    /** `claim_or_recover`. */
    method ClaimPermit(auth: Authorization) returns (claim: PermitClaim)
      requires host.Valid() && !host.failing
      modifies host
      ensures host.Valid() && Quiet(old(host.log), host.log) &&
              CallsAuthorized(host.log, |old(host.log)|, Who(auth), auth)
      ensures host.files == old(host.files) && host.calls == old(host.calls)
      ensures NoOpens(host.log, |old(host.log)|)
      ensures forall i :: |old(host.log)| <= i < |host.log| ==> host.log[i].Write?
      ensures claim.NotClaimed? <==> host.failing
      ensures !claim.NotClaimed? ==>
                && (claim.NewlyAuthorized? <==> old(Lookup(host.records, Who(auth)).Err?))
                && (claim.AlreadyTerminal? <==> old(Terminal(auth)))
                && (claim.Incomplete? ==> claim.pending == old(Rec(auth)).pendingEvidence)
      ensures claim.NewlyAuthorized? || claim.Incomplete? ==> !host.failing && Lookup(host.records, Who(auth)).Ok?
      ensures claim.NewlyAuthorized? ==> JustClaimed(Rec(auth))
      ensures claim.Incomplete? ==> !Rec(auth).state.EvidenceCommitted? && Rec(auth).pendingEvidence == claim.pending
    {
      hide Host.Valid;
      var existing := Lookup(host.records, Who(auth));
      var fate := host.Update(Who(auth), Claim);
      if !fate.Written? {
        claim := NotClaimed;
      } else if existing.Err? {
        claim := NewlyAuthorized;
      } else if existing.value.state.EvidenceCommitted? {
        claim := AlreadyTerminal;
      } else {
        claim := Incomplete(existing.value.pendingEvidence);
      }
    }

    /** RESUME, write-ahead, acknowledged, RESUMED. */
    method ResumeStep(auth: Authorization) returns (ok: bool, ghost at: nat)
      requires Journaled(auth, true, Rank(Authorized)) && !degraded
      modifies this`degraded, host
      ensures Journaled(auth, true, Rank(Resumed)) && Kept(auth, true) && Quiet(old(host.log), host.log)
      ensures old(host.calls) <= host.calls <= old(host.calls) + 1
      ensures forall i :: |old(host.log)| <= i < |host.log| && i != at ==> host.log[i].Write?
      ensures !degraded ==>
                && |old(host.log)| <= at < |host.log| && host.log[at].Call? && host.log[at].request.ResumeTrading?
                && host.calls == old(host.calls) + 1
      ensures ok <==> !degraded && ResumeAcked(host.log[at], auth)
      ensures ok ==> Resumed in StatesOf(Rec(auth).history)
      ensures !degraded ==> OpenPendings(Rec(auth).history) == old(OpenPendings(Rec(auth).history))
    {
      hide Host.Valid, Apply, ApplyToRecord, Recovered, StatesOf, OpenPendings;
      at := 0;
      var request := ResumeTrading(EffectOf(auth, Resume, 0));
      ok := JournalPrepare(auth, Resume, request, None, Rank(Authorized));
      if !ok { return; }
      at := |host.log|;
      var reply := host.Dispatch(Who(auth), request);
      ok := AckValid(reply, Resume, auth.intentId, request.effect, None);
      if !ok { return; }
      ok := JournalComplete(auth, Resume, Some(Resumed), Rank(Authorized));
    }

    /** The pre-open evidence refresh, which is not journaled. */
    method RefreshStep(auth: Authorization) returns (ok: bool)
      requires Journaled(auth, true, Rank(Resumed))
      modifies host
      ensures Journaled(auth, true, Rank(Resumed)) && Kept(auth, true) && Quiet(old(host.log), host.log)
      ensures host.calls == old(host.calls) + 1 && host.records == old(host.records)
      ensures |host.log| == |old(host.log)| + 1 && var e := host.log[|old(host.log)|];
              e.Call? && e.request.RefreshEvidence? && (ok <==> Refreshed(e, auth))
    {
      hide Host.Valid;
      var request := RefreshEvidence(EffectOf(auth, Refresh, 0));
      var reply := host.Dispatch(Who(auth), request);
      ok := AckValid(reply, Refresh, auth.intentId, request.effect, None) && reply.completed;
    }

    /** OPEN, announced durably before it is dispatched. */
    method OpenStep(auth: Authorization) returns (ok: bool, ghost at: nat)
      requires Journaled(auth, true, Rank(Resumed)) && !degraded && OpenPendings(Rec(auth).history) == 0
      modifies this`degraded, host
      ensures Journaled(auth, true, Rank(OpenSubmitted)) && Going(auth, true) && Quiet(old(host.log), host.log)
      ensures old(host.calls) <= host.calls <= old(host.calls) + 1
      ensures forall i :: |old(host.log)| <= i < |host.log| && i != at ==> host.log[i].Write?
      ensures !degraded ==>
                && |old(host.log)| <= at < |host.log| && OpenDispatch(host.log[at])
                && host.calls == old(host.calls) + 1
      ensures ok <==> !degraded && OpenAcked(host.log[at], auth)
      ensures ok ==> OpenSubmitted in StatesOf(Rec(auth).history)
    {
      hide Host.Valid, Apply, ApplyToRecord, Recovered, StatesOf, OpenPendings;
      at := 0;
      var request := SubmitOpen(auth.openId, auth.openSide, auth.quantity, auth.limitPrice, EffectOf(auth, Open, 0));
      ok := JournalPrepare(auth, Open, request, None, Rank(Resumed));
      if !ok { return; }
      at := |host.log|;
      var reply := host.Dispatch(Who(auth), request);
      ok := AckValid(reply, Open, auth.intentId, request.effect, Some(auth.openId));
      if !ok { return; }
      ok := JournalComplete(auth, Open, Some(OpenSubmitted), Rank(Resumed));
    }

    /** The checks, the RESUME and the refresh without which no OPEN is sent. */
    method ReadyToOpen(auth: Authorization) returns (ok: bool, ghost a: nat, ghost b: nat)
      requires Journaled(auth, true, Rank(Authorized)) && !degraded && JustClaimed(Rec(auth))
      modifies this`degraded, host
      ensures Journaled(auth, true, Rank(Resumed)) && Kept(auth, true) && Quiet(old(host.log), host.log)
      ensures old(host.calls) <= host.calls <= old(host.calls) + 2
      ensures ok ==>
                && !degraded && Resumed in StatesOf(Rec(auth).history) && OpenPendings(Rec(auth).history) == 0
                && host.calls == old(host.calls) + 2 && |old(host.log)| < a < b < |host.log| - 1
                && Prepares(host.log[|old(host.log)|], host.log[a], host.log[b], host.log[|host.log| - 1], auth)
                && forall j :: |old(host.log)| <= j < |host.log| ==> !Unhealthy(host.log[j])
      ensures !ok && !degraded ==> Stalled(host.log, |old(host.log)|, auth)
    {
      hide Host.Valid, Recovered, StatesOf, ApplyToRecord, RequestFor, Acknowledged, ResumeAcked, Refreshed, Stalled,
           CallsAuthorized, NoOpens, OpenPendings, Lookup;
      ok, a, b := false, 0, 0;
      ghost var was := host.log;
      ok := host.Healthy(Who(auth));
      ghost var checked := host.log;
      Alarmed(was, checked, Who(auth), auth);
      if !ok {
        StalledAt(checked, |was|, |was|, auth);
        return;
      }
      ok, a := ResumeStep(auth);
      ghost var resumed := host.log;
      Joined(was, checked, resumed, Who(auth), auth);
      if !ok {
        if !degraded { StalledAt(resumed, a, |was|, auth); }
        return;
      }
      b := |host.log|;
      ok := RefreshStep(auth);
      ghost var refreshed := host.log;
      Joined(was, resumed, refreshed, Who(auth), auth);
      if !ok {
        StalledAt(refreshed, b, |was|, auth);
        return;
      }
      ok := host.Healthy(Who(auth));
      Alarmed(refreshed, host.log, Who(auth), auth);
      Joined(was, refreshed, host.log, Who(auth), auth);
      if !ok { StalledAt(host.log, |host.log| - 1, |was|, auth); }
    }

    /** The claimed part of a first run up to a terminal observation. */
    method OpenPosition(auth: Authorization) returns (o: Option<TradeObservation>, ghost at: nat)
      requires Journaled(auth, true, Rank(Authorized)) && !degraded && JustClaimed(Rec(auth))
      modifies this`degraded, host
      ensures Journaled(auth, true, Rank(OpenObserved)) && Going(auth, true)
      ensures OpensPrepared(host.log, |old(host.log)|, auth)
      ensures old(host.calls) <= host.calls <= old(host.calls) + 3 + maxObservations
      ensures o.Some? ==> !degraded && {Resumed, OpenSubmitted, OpenObserved} <= StatesOf(Rec(auth).history)
      ensures o.Some? ==>
                && |old(host.log)| <= at
                && Decisive(auth, o.value.status, o.value.filled, o.value.average, o.value.loss)
                && ObservedAt(host.log, at, auth, o.value.status, o.value.filled, o.value.average, o.value.loss)
      ensures o.None? && !degraded ==>
                Stalled(host.log, |old(host.log)|, auth) || host.calls == old(host.calls) + 3 + maxObservations
    {
      hide Host.Valid, Recovered, StatesOf, ApplyToRecord, RequestFor, Acknowledged, CallsAuthorized, NoOpens,
           OpensPrepared, Stalled, ResumeAcked, Refreshed, OpenAcked, ObservedAt, NothingDecisive, Decisive;
      o, at := None, 0;
      ghost var was := host.log;
      var ok;
      ghost var a, b, openAt;
      ok, a, b := ReadyToOpen(auth);
      if !ok {
        NoneToPrepare(host.log, |was|, auth);
        return;
      }
      ghost var ready := host.log;
      ok, openAt := OpenStep(auth);
      ghost var sent := host.log;
      Joined(was, ready, sent, Who(auth), auth);
      PreparedOnce(was, ready, sent, Readiness(|was|, a, b, |ready| - 1), openAt, auth);
      if !ok {
        if !degraded { StalledAt(host.log, openAt, |was|, auth); }
        return;
      }
      o, at := WaitForOpenTerminal(auth);
      Joined(was, sent, host.log, Who(auth), auth);
      StillPrepared(sent, host.log, |was|, auth);
      if o.None? && !degraded && Stalled(host.log, |sent|, auth) {
        StillStalled(host.log, host.log, |sent|, |was|, auth);
      }
    }

    /** A run that found the record incomplete says so durably before anything else. */
    method NoteRecovery(auth: Authorization, ghost pending: Option<PendingEvidence>)
      requires host.Valid() && !host.failing && !degraded && Lookup(host.records, Who(auth)).Ok?
      requires !Rec(auth).state.EvidenceCommitted? && Rec(auth).pendingEvidence == pending
      modifies this`degraded, host
      ensures Journaled(auth, true, Rank(OpenObserved)) && Quiet(old(host.log), host.log)
      ensures NoOpens(host.log, |old(host.log)|) && host.files == old(host.files)
      ensures host.calls == old(host.calls) && CallsAuthorized(host.log, |old(host.log)|, Who(auth), auth)
      ensures !degraded ==> Rec(auth).pendingEvidence == pending && Recovered(Rec(auth).history)
    {
      hide Host.Valid;
      var fate := host.Update(Who(auth), RecordRecovery);
      if !fate.Written? { degraded := true; }
    }

    /** The body of `execute` once the permit is newly claimed. */
    method FirstRun(auth: Authorization) returns (a: Attempt, ghost w: CleanupWitness, ghost from: nat)
      requires Journaled(auth, true, Rank(Authorized)) && !degraded && JustClaimed(Rec(auth))
      modifies this`degraded, host
      ensures Journaled(auth, true, if a.cleaned then Rank(CloseConfirmed) else Rank(OpenObserved))
      ensures Going(auth, true) && OpensPrepared(host.log, |old(host.log)|, auth) && a.enabled && a.pending == None
      ensures old(host.calls) <= host.calls
      ensures host.calls <= old(host.calls) + 3 + maxObservations + if a.cleaned then 4 * recoveryAttempts else 0
      ensures || OrderObserved(host.log, |old(host.log)|, auth, a, w)
              || (a.filled == a.notional == a.loss == 0.0 &&
                  (degraded || Stalled(host.log, |old(host.log)|, auth) ||
                   host.calls == old(host.calls) + 3 + maxObservations))
      ensures a.cleaned <==>
                a.filled > 0.0 && a.notional <= auth.maxNotional && a.notional <= 12.0 && a.loss < auth.maxLoss
      ensures a.cleaned ==> CleanupStated(host.log, |old(host.log)|, from, auth, a, w, host.calls - old(host.calls))
      ensures !a.cleaned ==> a.cleanup == NO_CLEANUP
      ensures a.succeeded <==> a.cleaned && RoundTripProven(auth, a)
      ensures a.succeeded ==> RoundTripOnLog(host.log, |old(host.log)|, auth, w)
      ensures a.succeeded && !degraded ==>
                {Resumed, OpenSubmitted, OpenObserved, ClosePending, CloseConfirmed} <= StatesOf(Rec(auth).history)
    {
      hide Host.Valid, Recovered, StatesOf, OpenPendings, RequestFor, OpensPrepared, NoOpens, CallsAuthorized, Stalled,
           Decisive, CleanupExcused, ClosesShare, Decided, NoCloseAck, SafeCleanup, RoundTripOnLog, CloseAckAt, Lookup,
           ObservedAt, OrderObserved;
      a, w, from := Attempt(false, true, None, false, NO_CLEANUP, 0.0, 0.0, 0.0), CleanupWitness(0, 0, 0, 0, 0), 0;
      ghost var was := host.log;
      var o;
      ghost var observedAt;
      o, observedAt := OpenPosition(auth);
      if o.None? { return; }
      a := a.(filled := o.value.filled, notional := o.value.Notional(), loss := o.value.loss);
      w := w.(observedAt := observedAt);
      OrderSeen(host.log, |was|, auth, a, w, o.value);
      if a.filled <= 0.0 || a.notional > auth.maxNotional || a.notional > MAX_OPEN_NOTIONAL || a.loss >= auth.maxLoss {
        return;
      }
      from := |host.log|;
      var cleanup;
      ghost var observed := host.log;
      ghost var w1;
      cleanup, w1 := FlattenTargetRisk(auth, true, a.filled);
      w := w1.(observedAt := observedAt);
      a := a.(cleaned := true, cleanup := cleanup);
      Joined(was, observed, host.log, Who(auth), auth);
      StillPrepared(observed, host.log, |was|, auth);
      OrderSeen(observed, |was|, auth, a, w, o.value);
      SameCleanup(observed, host.log, |was|, auth, a, w1, w);
      if !cleanup.safe || !cleanup.closeSubmitted || cleanup.closeQuantity != a.filled { return; }
      if cleanup.final.value.loss >= auth.maxLoss { return; }
      a := a.(succeeded := true);
      SameCleanup(observed, host.log, |was|, auth, a, w1, w);
      SucceededOnLog(observed, host.log, |was|, auth, a, w, o.value);
    }

    /** The body of `execute` up to the end of its guarded region. */
    method RoundTrip(auth: Authorization) returns (a: Attempt, ghost w: CleanupWitness, ghost from: nat)
      requires host.Valid() && !host.failing && !degraded
      modifies this`degraded, host
      ensures Journaled(auth, a.enabled, if a.cleaned then Rank(CloseConfirmed) else Rank(OpenObserved))
      ensures old(host.log) <= host.log && CallsAuthorized(host.log, |old(host.log)|, Who(auth), auth)
      ensures OpensPrepared(host.log, |old(host.log)|, auth)
      ensures host.calls <= old(host.calls) + 3 + maxObservations + if a.cleaned then 4 * recoveryAttempts else 0
      ensures old(host.calls) <= host.calls && host.files == old(host.files)
      ensures a.enabled && !degraded ==> Rec(auth).pendingEvidence == a.pending
      ensures !a.enabled ==> a == NO_ATTEMPT && (host.failing || old(Terminal(auth)))
      ensures old(Lookup(host.records, Who(auth)).Ok?) ==>
                && NoOpens(host.log, |old(host.log)|)
                && (a.enabled ==> a == NO_ATTEMPT.(enabled := true, pending := old(Rec(auth)).pendingEvidence))
      ensures a.enabled && old(Lookup(host.records, Who(auth)).Err?) ==>
                && a.pending == None
                && (|| OrderObserved(host.log, |old(host.log)|, auth, a, w)
                    || (a.filled == a.notional == a.loss == 0.0 &&
                        (degraded || Stalled(host.log, |old(host.log)|, auth) ||
                         host.calls == old(host.calls) + 3 + maxObservations)))
      ensures a.cleaned <==>
                a.filled > 0.0 && a.notional <= auth.maxNotional && a.notional <= 12.0 && a.loss < auth.maxLoss
      ensures a.cleaned ==> CleanupStated(host.log, |old(host.log)|, from, auth, a, w, host.calls - old(host.calls))
      ensures !a.cleaned ==> a.cleanup == NO_CLEANUP
      ensures a.succeeded <==> a.cleaned && a.enabled && RoundTripProven(auth, a)
      ensures a.succeeded ==> RoundTripOnLog(host.log, |old(host.log)|, auth, w)
      ensures a.succeeded && !degraded ==>
                && !Recovered(Rec(auth).history)
                && {Resumed, OpenSubmitted, OpenObserved, ClosePending, CloseConfirmed} <= StatesOf(Rec(auth).history)
    {
      hide Host.Valid, SafeCleanup, RoundTripProven, RoundTripOnLog, Recovered, StatesOf, RequestFor, Acknowledged,
           OpensPrepared, CallsAuthorized, NoOpens, OrderObserved, Stalled, CleanupExcused;
      a, w, from := NO_ATTEMPT, CleanupWitness(0, 0, 0, 0, 0), 0;
      ghost var was := host.log;
      var claim := ClaimPermit(auth);
      ghost var claimed := host.log;
      NoneToPrepare(claimed, |was|, auth);
      if claim.NewlyAuthorized? {
        a, w, from := FirstRun(auth);
        Joined(was, claimed, host.log, Who(auth), auth);
        PreparedEarlier(host.log, |claimed|, |was|, auth);
        if a.succeeded { StartsEarlier(host.log, |claimed|, |was|, auth, w); }
        SeenEarlier(host.log, |claimed|, |was|, auth, a, w);
      } else if claim.Incomplete? {
        a := a.(enabled := true, pending := claim.pending);
        NoteRecovery(auth, claim.pending);
        Joined(was, claimed, host.log, Who(auth), auth);
        NoneToPrepare(host.log, |was|, auth);
      }
    }

    /** The permit's record is terminal. */
    ghost predicate Terminal(auth: Authorization)
      reads host
    {
      Lookup(host.records, Who(auth)).Ok? && Rec(auth).state.EvidenceCommitted?
    }

    /** Why the cleanup of an attempt is safe, or is not; `calls` were made since the attempt began at `start`. */
    ghost predicate CleanupStated(log: Log, start: nat, from: nat, auth: Authorization, a: Attempt, w: CleanupWitness,
                                  calls: int)
    {
      && start <= from <= |log|
      && (a.cleanup.safe ==> SafeCleanup(log, from, auth, a.cleanup, w))
      && (!a.cleanup.safe ==> CleanupExcused(log, from, auth, a.filled, a.cleanup) || calls >= recoveryAttempts)
    }

    // ---------- evidence ----------

    /** The record waits, HALTED, for this prepared report to be published. */
    ghost predicate Awaiting(auth: Authorization, pending: PendingEvidence)
      reads host
    {
      && host.Valid() && !host.failing && Lookup(host.records, Who(auth)).Ok?
      && Rec(auth).state == Halted && Rec(auth).pendingEvidence == Some(pending)
    }

    ghost predicate CommittedAs(auth: Authorization, path: Id, digest: Digest)
      reads host
    {
      && Lookup(host.records, Who(auth)).Ok? && Rec(auth).state == EvidenceCommitted
      && Rec(auth).evidencePath == path && Rec(auth).evidenceDigest == digest
      && path in host.files && host.sha(host.files[path]) == digest
    }

    /**
     The report is about this permit and inside its limits; passed is backed by one round trip in the durable history.
     */
    ghost predicate ReportProven(auth: Authorization, e: Evidence)
      reads host
    {
      && e.identity == Who(auth) && WithinLimits(e)
      && Lookup(host.records, Who(auth)).Ok? && (e.passed ==> HasRoundTrip(Rec(auth).history))
    }

    /** `prepare_evidence`: its HALTED guard cannot refuse here. */
    method PrepareReport(auth: Authorization, pending: PendingEvidence) returns (ok: bool)
      requires Journaled(auth, true, Rank(Halted)) && !degraded && Rec(auth).state == Halted
      requires pending.content.passed ==> RoundTripped(auth)
      requires pending.content.identity == Who(auth) && WithinLimits(pending.content)
      modifies host
      ensures host.Valid() && Quiet(old(host.log), host.log) && host.calls == old(host.calls) &&
              host.files == old(host.files)
      ensures NoOpens(host.log, |old(host.log)|)
      ensures CallsAuthorized(host.log, |old(host.log)|, Who(auth), auth)
      ensures ok <==> !host.failing
      ensures ok ==> Awaiting(auth, pending)
      ensures ok && pending.content.passed ==> RoundTripped(auth)
    {
      hide Host.Valid;
      var fate := host.Update(Who(auth), PrepareEvidence(pending));
      ok := fate.Written?;
    }

    /** `commit_evidence`, with the file already in place. */
    method CommitReport(auth: Authorization, pending: PendingEvidence) returns (ok: bool)
      requires Awaiting(auth, pending) && pending.path in host.files &&
               host.sha(host.files[pending.path]) == pending.digest
      modifies host
      ensures host.Valid() && Quiet(old(host.log), host.log) && host.calls == old(host.calls) &&
              host.files == old(host.files)
      ensures NoOpens(host.log, |old(host.log)|)
      ensures CallsAuthorized(host.log, |old(host.log)|, Who(auth), auth)
      ensures ok <==> !host.failing
      ensures ok ==> CommittedAs(auth, pending.path, pending.digest) && (old(RoundTripped(auth)) ==> RoundTripped(auth))
      ensures ok ==> Rec(auth).pendingEvidence == Some(pending)
    {
      hide Host.Valid;
      var fate := host.Update(Who(auth), CommitEvidence(pending.digest));
      ok := fate.Written?;
    }

    /** `_commit_recovered_evidence`: finish a publication that an earlier run prepared. */
    method CommitRecoveredEvidence(auth: Authorization, path: Id, pending: PendingEvidence) returns (c: RecoveredCommit)
      requires Awaiting(auth, pending)
      modifies host
      ensures host.Valid() && Quiet(old(host.log), host.log) && host.calls == old(host.calls)
      ensures NoOpens(host.log, |old(host.log)|)
      ensures CallsAuthorized(host.log, |old(host.log)|, Who(auth), auth)
      ensures c == OtherPath <==> pending.path != path
      ensures c == OtherPath ==>
                host.log == old(host.log) && host.records == old(host.records) &&
                host.failing == old(host.failing) && host.files == old(host.files)
      ensures c == CommitRaised ==>
                || host.failing || PublicationFailed(host.log, |old(host.log)|)
                || host.sha(pending.content) != pending.digest
                || (path in old(host.files) && host.sha(old(host.files)[path]) != pending.digest)
      ensures c == Committed ==> CommittedAs(auth, path, pending.digest) && ReportProven(auth, pending.content)
    {
      hide Host.Valid;
      if pending.path != path { return OtherPath; }
      if host.sha(pending.content) != pending.digest { return CommitRaised; }
      if path in host.files {
        if host.sha(host.files[path]) != pending.digest { return CommitRaised; }
      } else {
        var ok := host.Publish(path, pending.content);
        assert !ok ==> host.log[|host.log| - 1].PublishFailed?;
        if !ok { return CommitRaised; }
      }
      var ok := CommitReport(auth, pending);
      if ok { host.Recorded(KeyOf(Who(auth))); }
      c := if ok then Committed else CommitRaised;
    }

    /** Prepare in the ledger, create the file, commit in the ledger; without a sound journal only the file. */
    method PublishReport(auth: Authorization, path: Id, report: Evidence, finalize: bool) returns (ok: bool)
      requires host.Valid()
      requires finalize ==> Journaled(auth, true, Rank(Halted)) && !degraded && Rec(auth).state == Halted
      requires finalize && report.passed ==> RoundTripped(auth)
      requires finalize ==> report.identity == Who(auth) && WithinLimits(report)
      modifies host
      ensures host.Valid() && Quiet(old(host.log), host.log) && host.calls == old(host.calls)
      ensures NoOpens(host.log, |old(host.log)|)
      ensures CallsAuthorized(host.log, |old(host.log)|, Who(auth), auth)
      ensures !ok ==> path in old(host.files) || host.failing || PublicationFailed(host.log, |old(host.log)|)
      ensures ok ==> path in host.files && host.files[path] == report
      ensures ok && finalize ==> CommittedAs(auth, path, host.sha(report)) && (report.passed ==> RoundTripped(auth))
    {
      hide Host.Valid;
      var pending := PendingEvidence(path, host.sha(report), report);
      if finalize {
        ok := PrepareReport(auth, pending);
        if !ok { return; }
      }
      if path in host.files { return false; }
      ok := host.Publish(path, report);
      assert !ok ==> host.log[|host.log| - 1].PublishFailed?;
      if !ok { return; }
      if finalize {
        ok := CommitReport(auth, pending);
      }
    }

    // ---------- execute ----------

    /** `_validate_authorization_for_execution`, except for clocks. */
    predicate Admissible(auth: Authorization) {
      && auth.target == target && auth.quantity * auth.limitPrice <= MAX_OPEN_NOTIONAL
      && auth.maxLoss < LOSS_CAP && (mode == Live ==> auth.signed)
    }

    /** What `execute` learnt from the adapter, as the timeline since `start` shows it. */
    ghost predicate TradeStated(log: Log, start: nat, from: nat, auth: Authorization, a: Attempt, w: CleanupWitness,
                                calls: int)
    {
      && CallsAuthorized(log, start, Who(auth), auth) && OpensPrepared(log, start, auth)
      && CleanupStated(log, start, from, auth, a, w, calls)
      && (a.succeeded ==> RoundTripProven(auth, a) && RoundTripOnLog(log, start, auth, w))
      && (|| OrderObserved(log, start, auth, a, w)
          || a.filled == a.notional == a.loss == 0.0)
    }

    /** The guarded region of `execute`, its failure cleanup and HALT: everything that talks to the adapter. */
    method Trade(auth: Authorization)
      returns (a: Attempt, halted: bool, ghost w: CleanupWitness, ghost from: nat, ghost haltedAt: nat)
      requires host.Valid() && !host.failing && !degraded
      modifies this`degraded, host
      ensures Journaled(auth, a.enabled, Rank(Halted)) && old(host.log) <= host.log && host.files == old(host.files)
      ensures host.calls <= old(host.calls) + 3 + maxObservations + 5 * recoveryAttempts
      ensures TradeStated(host.log, |old(host.log)|, from, auth, a, w, host.calls - old(host.calls)) && a.cleaned
      ensures old(Lookup(host.records, Who(auth)).Ok?) ==>
                && NoOpens(host.log, |old(host.log)|) && !a.succeeded
                && (a.enabled ==> a.pending == old(Rec(auth)).pendingEvidence)
      ensures !a.enabled ==> !a.succeeded && a.pending == None && (host.failing || old(Terminal(auth)))
      ensures a.enabled && old(Lookup(host.records, Who(auth)).Err?) ==>
                && a.pending == None
                && (a.succeeded <==> RoundTripProven(auth, a))
                && (|| OrderObserved(host.log, |old(host.log)|, auth, a, w)
                    || degraded || Stalled(host.log, |old(host.log)|, auth)
                    || host.calls >= old(host.calls) + 3 + maxObservations)
      ensures halted ==> |old(host.log)| <= haltedAt && HaltedAt(host.log, haltedAt, auth)
      ensures !halted ==> TimedOut(host.log, |old(host.log)|) || host.calls >= old(host.calls) + recoveryAttempts
      ensures a.enabled && !degraded ==>
                Rec(auth).pendingEvidence == a.pending &&
                (halted ==> Rec(auth).state == Halted)
      ensures a.succeeded && halted && !degraded ==> a.enabled && RoundTripped(auth)
    {
      hide Host.Valid, RequestFor, Acknowledged, CallsAuthorized, NoOpens, OpensPrepared, SafeCleanup, RoundTripProven,
           RoundTripOnLog, OrderObserved, Stalled, CleanupExcused, HaltedAt, TimedOut;
      ghost var was := host.log;
      a, w, from := RoundTrip(auth);
      ghost var tried := host.log;
      if !a.cleaned {
        from := |host.log|;
        var cleanup;
        ghost var w1;
        cleanup, w1 := FlattenTargetRisk(auth, a.enabled, a.filled);
        Joined(was, tried, host.log, Who(auth), auth);
        NotProven(auth, a, cleanup);
        CleanedLater(tried, host.log, |was|, from, auth, a, w, cleanup, w1);
        w := w1.(observedAt := w.observedAt);
        a := a.(cleaned := true, cleanup := cleanup);
      }
      ghost var cleaned := host.log;
      halted, haltedAt := HaltWithRecovery(auth, a.enabled);
      Joined(was, cleaned, host.log, Who(auth), auth);
      HaltedLater(cleaned, host.log, |was|, from, auth, a, w);
    }

    /** The evidence half of `execute`: only a sound journal lets the record become terminal. */
    method Conclude(auth: Authorization, path: Id, a: Attempt, halted: bool) returns (r: RunReport)
      requires Admissible(auth) && Journaled(auth, a.enabled, Rank(Halted))
      requires a.succeeded ==> a.enabled && RoundTripProven(auth, a)
      requires a.enabled && !degraded ==>
                 Rec(auth).pendingEvidence == a.pending &&
                 (halted ==> Rec(auth).state == Halted)
      requires a.succeeded && halted && !degraded ==> RoundTripped(auth)
      modifies host
      ensures host.Valid() && Quiet(old(host.log), host.log) && host.calls == old(host.calls)
      ensures NoOpens(host.log, |old(host.log)|)
      ensures CallsAuthorized(host.log, |old(host.log)|, Who(auth), auth)
      ensures r.attempt == a && r.halted == halted && r.outcome != NotAdmitted
      ensures r.outcome == Aborted ==>
                || host.failing || PublicationFailed(host.log, |old(host.log)|) || path in old(host.files)
                || (a.pending.Some? && host.sha(a.pending.value.content) != a.pending.value.digest)
      ensures r.passed ==> r.outcome in {Finished, FinishedRecovered}
      ensures r.outcome == Finished ==> path in host.files && ReportMatches(host.files[path], Who(auth), r)
      ensures r.outcome == Finished ==> (r.passed <==> a.succeeded && !degraded && halted && a.cleanup.safe)
      ensures r.outcome == Finished && r.passed ==>
                && a.succeeded && !degraded && halted && a.cleanup.safe
                && host.files[path].passed && CommittedAs(auth, path, host.sha(host.files[path])) && RoundTripped(auth)
      ensures r.outcome == Finished && r.passed ==>
                host.files[path].identity == Who(auth) && WithinLimits(host.files[path])
      ensures r.outcome == FinishedRecovered ==>
                && !degraded && halted && a.cleanup.safe
                && a.pending.Some? && r.passed == a.pending.value.content.passed
                && CommittedAs(auth, path, a.pending.value.digest) && ReportProven(auth, a.pending.value.content)
    {
      hide Host.Valid, RequestFor, Acknowledged;
      var sound := a.enabled && !degraded && halted && a.cleanup.safe;
      r := RunReport(Aborted, a.succeeded && sound, halted, a);
      if a.pending.Some? && sound {
        var c := CommitRecoveredEvidence(auth, path, a.pending.value);
        if c != OtherPath {
          return r.(outcome := if c == Committed then FinishedRecovered else Aborted,
                    passed := c == Committed && a.pending.value.content.passed);
        }
      }
      var stamp: int := *;
      var report := BuildEvidence(Who(auth), r.passed, halted, a, stamp);
      var ok := PublishReport(auth, path, report, sound);
      r := r.(outcome := if ok then Finished else Aborted, passed := ok && r.passed);
    }

    /**
     `execute`.  One call makes at most 3 + max_observations + 5 * recovery_max_attempts adapter calls, leaves the
     timeline lawful whatever failed, and says passed only for a proven round trip with a sound journal.
     */
    method Execute(auth: Authorization, path: Id)
      returns (r: RunReport, ghost w: CleanupWitness, ghost from: nat, ghost haltedAt: nat)
      requires host.Valid()
      modifies this`degraded, host
      ensures host.Valid() && old(host.log) <= host.log
      ensures host.calls <= old(host.calls) + 3 + maxObservations + 5 * recoveryAttempts
      ensures r.outcome == NotAdmitted ==>
                host.log == old(host.log) && r == RunReport(NotAdmitted, false, false, NO_ATTEMPT)
      ensures r.outcome != NotAdmitted ==> Admissible(auth)
      ensures r.outcome != NotAdmitted ==>
                && |old(host.log)| < |host.log| && host.log[|old(host.log)|] == RunStarted(Who(auth))
                && TradeStated(host.log, |old(host.log)| + 1, from, auth, r.attempt, w, host.calls - old(host.calls))
                && (r.halted || TimedOut(host.log, |old(host.log)|) ||
                    host.calls >= old(host.calls) + recoveryAttempts)
      ensures r.outcome != NotAdmitted && r.attempt.enabled && old(Lookup(host.records, Who(auth)).Err?) ==>
                && r.attempt.pending == None && (r.attempt.succeeded <==> RoundTripProven(auth, r.attempt))
                && (|| OrderObserved(host.log, |old(host.log)| + 1, auth, r.attempt, w)
                    || degraded || Stalled(host.log, |old(host.log)| + 1, auth)
                    || host.calls >= old(host.calls) + 3 + maxObservations)
      ensures old(Lookup(host.records, Who(auth)).Ok?) ==>
                && NoOpens(host.log, |old(host.log)|) && !r.attempt.succeeded
                && (r.attempt.enabled ==> r.attempt.pending == old(Rec(auth)).pendingEvidence)
      ensures r.outcome == Aborted ==>
                || host.failing || PublicationFailed(host.log, |old(host.log)|) || path in old(host.files)
                || (r.attempt.pending.Some? && host.sha(r.attempt.pending.value.content) !=
                                               r.attempt.pending.value.digest)
      ensures CallsAuthorized(host.log, |old(host.log)|, Who(auth), auth)
      ensures r.halted ==> |old(host.log)| <= haltedAt && HaltedAt(host.log, haltedAt, auth)
      ensures r.attempt.cleanup.safe ==>
                |old(host.log)| <= from &&
                SafeCleanup(host.log, from, auth, r.attempt.cleanup, w)
      ensures r.outcome == Finished && r.passed ==>
                && !degraded && r.halted && Admissible(auth) && RoundTripProven(auth, r.attempt)
                && path in host.files && host.files[path].passed
                && CommittedAs(auth, path, host.sha(host.files[path])) && RoundTripped(auth)
                && host.files[path].identity == Who(auth) && WithinLimits(host.files[path])
                && RoundTripOnLog(host.log, |old(host.log)|, auth, w)
      ensures r.outcome == Finished ==> path in host.files && ReportMatches(host.files[path], Who(auth), r)
      ensures r.outcome == Finished ==>
                (r.passed <==> r.attempt.succeeded && !degraded && r.halted && r.attempt.cleanup.safe)
      ensures r.outcome == FinishedRecovered ==>
                && !degraded && r.halted && r.attempt.cleanup.safe && Admissible(auth)
                && r.attempt.pending.Some? && r.passed == r.attempt.pending.value.content.passed
                && CommittedAs(auth, path, r.attempt.pending.value.digest)
                && ReportProven(auth, r.attempt.pending.value.content)
      ensures r.passed ==> r.outcome in {Finished, FinishedRecovered} && !degraded && r.halted && r.attempt.cleanup.safe
    {
      hide Host.Valid, RequestFor, Acknowledged, SafeCleanup, RoundTripOnLog, RoundTripProven, ReportMatches,
           WithinLimits, CallsAuthorized, NoOpens, OpensPrepared, OrderObserved, Stalled, CleanupExcused, TimedOut,
           PublicationFailed;
      degraded := false;
      r, w, from, haltedAt := RunReport(NotAdmitted, false, false, NO_ATTEMPT), CleanupWitness(0, 0, 0, 0, 0), 0, 0;
      NothingAuthorized(host.log, Who(auth), auth);
      var admitted: bool := *;
      if !admitted || !Admissible(auth) { return; }
      host.BeginRun(Who(auth));
      ghost var begun := host.log;
      var a, halted;
      a, halted, w, from, haltedAt := Trade(auth);
      ghost var traded := host.log;
      r := Conclude(auth, path, a, halted);
      Joined(begun, traded, host.log, Who(auth), auth);
      HaltedLater(traded, host.log, |begun|, from, auth, a, w);
      RunSeen(begun[..|begun| - 1], begun, traded, host.log, auth, Who(auth), w);
    }
  }
}
