/**
 How the adapter derives a confirmed fill quantity from the exchange mirror: the first usable evidence item of
 an order, and agreement of every history proof it carries.
 */
module ExchangeHistory {
  import opened Basics

  /**
   NotARecord: not a record at all.  matches: account, order ID and state; timely: observed, not from the future, not
   too old.
   */
  datatype HistoryProof =
    | NotARecord
    | Foreign
    | FromHistory(matches: bool, symbolOk: bool, timely: bool, quantity: real, venueOrderId: string)

  /**
   Skipped: about another order or outside the time window.  Unreadable: about this order, with a time that does not
   parse.
   */
  datatype Standing = Skipped | Unreadable | Usable

  datatype EvidenceItem = EvidenceItem(
    standing: Standing, executed: bool, quantity: Option<real>, proofs: Option<seq<HistoryProof>>)

  /** `_opening_evidence_item`: the first item that is not skipped decides. */
  method FindItem(items: seq<EvidenceItem>) returns (r: Result<Option<EvidenceItem>, ()>)
    ensures r == Ok(None) <==> forall i :: 0 <= i < |items| ==> items[i].standing.Skipped?
    ensures r != Ok(None) ==>
              exists i :: && 0 <= i < |items| && FirstRelevant(items, i)
                          && r == if items[i].standing.Usable? then Ok(Some(items[i])) else Err(())
  {
    for i := 0 to |items|
      invariant forall j :: 0 <= j < i ==> items[j].standing.Skipped?
    {
      if items[i].standing.Unreadable? { return Err(()); }
      if items[i].standing.Usable? { return Ok(Some(items[i])); }
    }
    r := Ok(None);
  }

  /** Item i is the first that is not skipped. */
  predicate FirstRelevant(items: seq<EvidenceItem>, i: nat)
    requires i < |items|
  {
    !items[i].standing.Skipped? && forall j :: 0 <= j < i ==> items[j].standing.Skipped?
  }

  predicate Acceptable(p: HistoryProof) { p.FromHistory? && p.matches && p.symbolOk && p.timely && p.quantity > 0.0 }

  /** Every history proof is acceptable and states q; they name at most one venue order. */
  predicate Agree(proofs: seq<HistoryProof>, q: real) {
    && (forall i :: 0 <= i < |proofs| && !proofs[i].Foreign? ==> Acceptable(proofs[i]) && proofs[i].quantity == q)
    && (forall i, j :: (0 <= i < |proofs| && 0 <= j < |proofs| && Names(proofs[i]) && Names(proofs[j])) ==>
                         proofs[i].venueOrderId == proofs[j].venueOrderId)
  }

  predicate Names(p: HistoryProof) { p.FromHistory? && p.venueOrderId != "" }

  predicate HasHistory(proofs: seq<HistoryProof>) { exists i :: 0 <= i < |proofs| && proofs[i].FromHistory? }

  /** The item is executed for q, carries a history proof, and all of them agree on q. */
  predicate Proven(item: EvidenceItem, q: real) {
    && item.executed && item.quantity == Some(q) && q > 0.0
    && item.proofs.Some? && HasHistory(item.proofs.value) && Agree(item.proofs.value, q)
  }

  /** What the scan of the proofs collects: the quantities and the venue orders that its history proofs name. */
  ghost predicate Collected(proofs: seq<HistoryProof>, quantities: set<real>, venueOrderIds: set<string>) {
    && (forall q :: q in quantities <==>
                      exists j :: 0 <= j < |proofs| && proofs[j].FromHistory? && proofs[j].quantity == q)
    && (forall v :: v in venueOrderIds <==>
                      exists j :: 0 <= j < |proofs| && Names(proofs[j]) && proofs[j].venueOrderId == v)
  }

  predicate AllAcceptable(proofs: seq<HistoryProof>) {
    forall j :: 0 <= j < |proofs| && !proofs[j].Foreign? ==> Acceptable(proofs[j])
  }

  /** The scan stops at the first proof that is not acceptable. */
  method CollectProofs(proofs: seq<HistoryProof>) returns (ok: bool, quantities: set<real>, venueOrderIds: set<string>)
    ensures ok <==> AllAcceptable(proofs)
    ensures ok ==> Collected(proofs, quantities, venueOrderIds)
  {
    ok, quantities, venueOrderIds := true, {}, {};
    for i := 0 to |proofs|
      invariant ok && AllAcceptable(proofs[..i]) && Collected(proofs[..i], quantities, venueOrderIds)
    {
      assert proofs[..i + 1] == proofs[..i] + [proofs[i]];
      if !proofs[i].Foreign? {
        if !Acceptable(proofs[i]) { return false, {}, {}; }
        CollectOne(proofs[..i], proofs[i], quantities, venueOrderIds);
        quantities := quantities + {proofs[i].quantity};
        if Names(proofs[i]) { venueOrderIds := venueOrderIds + {proofs[i].venueOrderId}; }
      } else {
        CollectOne(proofs[..i], proofs[i], quantities, venueOrderIds);
      }
    }
    assert proofs[..|proofs|] == proofs;
  }

  lemma CollectOne(proofs: seq<HistoryProof>, p: HistoryProof, quantities: set<real>, venueOrderIds: set<string>)
    requires Collected(proofs, quantities, venueOrderIds)
    ensures Collected(proofs + [p], if p.FromHistory? then quantities + {p.quantity} else quantities,
                      if Names(p) then venueOrderIds + {p.venueOrderId} else venueOrderIds)
  {
    var all := proofs + [p];
    assert all[|proofs|] == p && forall j :: 0 <= j < |proofs| ==> all[j] == proofs[j];
  }

  /** One quantity and at most one venue order: what the collected sets say about agreement. */
  lemma CollectedAgree(proofs: seq<HistoryProof>, quantities: set<real>, venueOrderIds: set<string>, q: real)
    requires AllAcceptable(proofs) && Collected(proofs, quantities, venueOrderIds)
    ensures Agree(proofs, q) <==> (forall p :: p in quantities ==> p == q)
                                  && (forall v, w :: v in venueOrderIds && w in venueOrderIds ==> v == w)
    ensures HasHistory(proofs) <==> exists p :: p in quantities
  {
    forall j | 0 <= j < |proofs| && proofs[j].FromHistory? ensures proofs[j].quantity in quantities {}
    forall j | 0 <= j < |proofs| && Names(proofs[j]) ensures proofs[j].venueOrderId in venueOrderIds {}
  }

  /** An executed item with a usable quantity that carries no history proof at all, and no malformed one. */
  predicate Unproven(item: EvidenceItem) {
    && item.executed && item.quantity.Some? && item.quantity.value > 0.0
    && (item.proofs.None? || forall i :: 0 <= i < |item.proofs.value| ==> item.proofs.value[i].Foreign?)
  }

  /** `_exchange_confirmed_fill_quantity`; None is a conflict.  A quantity is confirmed exactly when it is proven. */
  method ConfirmedFill(item: Option<EvidenceItem>) returns (r: Option<real>)
    ensures forall q :: q != 0.0 ==> (r == Some(q) <==> item.Some? && Proven(item.value, q))
    ensures r == Some(0.0) <==> item.None? || Unproven(item.value)
  {
    if item.None? { return Some(0.0); }
    if !item.value.executed { return None; }
    if item.value.quantity.None? || item.value.quantity.value <= 0.0 { return None; }
    if item.value.proofs.None? { return Some(0.0); }
    var stated := item.value.quantity.value;
    var ok, quantities, venueOrderIds := CollectProofs(item.value.proofs.value);
    if !ok { return None; }
    CollectedAgree(item.value.proofs.value, quantities, venueOrderIds, stated);
    hide Collected, Agree, HasHistory, AllAcceptable;
    if !exists p :: p in quantities { return Some(0.0); }
    var ambiguous := (exists p :: p in quantities && p != stated)
                     || (exists v, w :: v in venueOrderIds && w in venueOrderIds && v != w);
    r := if ambiguous then None else Some(stated);
  }

  /** An exchange that filled `truth` of an order never proves another quantity for it. */
  predicate Truthful(items: seq<EvidenceItem>, truth: real) {
    forall i :: (0 <= i < |items| && items[i].proofs.Some?) ==> TruthfulProofs(items[i].proofs.value, truth)
  }

  predicate TruthfulProofs(proofs: seq<HistoryProof>, truth: real) {
    forall i :: (0 <= i < |proofs| && Acceptable(proofs[i])) ==> proofs[i].quantity == truth
  }

  /** Whatever the mirror of a truthful exchange shows, a proven quantity is the executed one. */
  lemma ProvenIsTrue(items: seq<EvidenceItem>, item: EvidenceItem, q: real, truth: real)
    requires Truthful(items, truth) && item in items && Proven(item, q)
    ensures q == truth
  {
    var i :| 0 <= i < |items| && items[i] == item;
    assert TruthfulProofs(items[i].proofs.value, truth);
    var k :| 0 <= k < |item.proofs.value| && item.proofs.value[k].FromHistory?;
    assert Acceptable(item.proofs.value[k]);
  }

  /**
   What the adapter may see of an order that filled `truth`: a conflict, nothing, or exactly that.  pending: the
   mirror is readable and its first relevant item, if any, shows no execution of the order.
   */
  method ReadFill(truth: real) returns (pending: bool, seen: Option<real>, ghost mirror: seq<EvidenceItem>)
    ensures seen.Some? ==> seen.value == truth || seen.value == 0.0
    ensures pending ==> seen == None || seen == Some(0.0)
    ensures pending <==> forall i :: 0 <= i < |mirror| && FirstRelevant(mirror, i) ==>
                                       mirror[i].standing.Usable? && !mirror[i].executed
  {
    assert Truthful([], truth);
    var items: seq<EvidenceItem> :| Truthful(items, truth);
    mirror := items;
    var found := FindItem(items);
    if found.Err? { return false, None, items; }
    pending := found.value.None? || !found.value.value.executed;
    seen := ConfirmedFill(found.value);
    if seen.Some? && seen.value != 0.0 { ProvenIsTrue(items, found.value.value, seen.value, truth); }
  }
}
