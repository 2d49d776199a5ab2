/**
 The durable single-use permit ledger: its records and the operations of
 `SingleUsePermitStore`, each a function from the loaded ledger to the ledger that
 would be written back, or the error that prevents the write.
 */
module Journal {
  import opened Basics
  import opened Protocol

  datatype JournalState =
    | Authorized | Resumed | OpenSubmitted | OpenObserved
    | ClosePending | CloseConfirmed | Halted | EvidenceCommitted

  /** Position in JOURNAL_STATES. */
  function Rank(s: JournalState): nat {
    match s
    case Authorized => 0
    case Resumed => 1
    case OpenSubmitted => 2
    case OpenObserved => 3
    case ClosePending => 4
    case CloseConfirmed => 5
    case Halted => 6
    case EvidenceCommitted => 7
  }


  datatype Evidence = Evidence(
    identity: Identity, passed: bool, failed: bool, halted: bool, roundTrips: nat,
    closeQuantity: real, baselineQuantity: real, openFilled: real, openNotional: real,
    cumulativeLoss: real, generatedAt: int)

  type Hash = Evidence -> Digest

  /**
   A report that may be prepared: halted, and if it says passed, closed exactly and inside the permit's own limits.
   */
  predicate WithinLimits(e: Evidence) {
    e.halted &&
    (e.passed ==>
      && e.roundTrips == 1 && e.closeQuantity == e.openFilled > 0.0
      && e.openNotional <= e.identity.maxNotional && e.openNotional <= MAX_OPEN_NOTIONAL
      && e.cumulativeLoss < e.identity.maxLoss < LOSS_CAP)
  }

  datatype PendingEvidence = PendingEvidence(path: Id, digest: Digest, content: Evidence)

  datatype Entry =
    | Claimed
    | ActionPending(action: Action, request: Request)
    | ActionConfirmed(action: Action)
    | RecoveryRequired
    | Reconciled
    | EvidencePrepared(path: Id, digest: Digest, passed: bool)
    | EvidencePublished(path: Id, digest: Digest, passed: bool)

  datatype HistoryEvent = HistoryEvent(sequence: nat, state: JournalState, entry: Entry)

  type History = seq<HistoryEvent>

  datatype Record = Record(
    identity: Identity, state: JournalState,
    pendingAction: Action, pendingRequest: Option<Request>,
    pendingEvidence: Option<PendingEvidence>,
    evidencePath: Id, evidenceDigest: Digest, history: History)

  type Key = (Mode, Id)
  type Ledger = map<Key, Record>

  function KeyOf(who: Identity): Key { (who.mode, who.permitId) }

  // ---------- what a history says ----------

  function StatesOf(h: History): set<JournalState> {
    if h == [] then {} else StatesOf(h[..|h| - 1]) + {h[|h| - 1].state}
  }

  /** A later run found this record incomplete and said so durably. */
  predicate Recovered(h: History) {
    h != [] && (h[|h| - 1].entry.RecoveryRequired? || Recovered(h[..|h| - 1]))
  }

  /** How many times an OPEN was durably announced. */
  function OpenPendings(h: History): nat {
    if h == [] then 0
    else OpenPendings(h[..|h| - 1]) +
         if h[|h| - 1].entry.ActionPending? && h[|h| - 1].entry.action == Open then 1 else 0
  }

  /** States never step back in JOURNAL_STATES order until a recovery is recorded. */
  ghost predicate Forward(h: History) {
    |h| < 2 ||
    (Forward(h[..|h| - 1]) &&
     (Recovered(h[..|h| - 1]) || Rank(h[|h| - 2].state) <= Rank(h[|h| - 1].state)))
  }

  ghost predicate Numbered(h: History) {
    forall i :: 0 <= i < |h| ==> h[i].sequence == i + 1
  }

  const MILESTONES: set<JournalState> :=
    {Resumed, OpenSubmitted, OpenObserved, ClosePending, CloseConfirmed, Halted}

  // ---------- store operations ----------

  datatype Op =
    | Claim
    | Prepare(action: Action, request: Request, next: Option<JournalState>)
    | Complete(action: Action, next: Option<JournalState>)
    | RecordRecovery
    | Mark(state: JournalState)
    | PrepareEvidence(evidence: PendingEvidence)
    | CommitEvidence(digest: Digest)

  datatype JournalError =
    | Missing | IdentityMismatch | DuplicateIdentity | TerminalRecord
    | PendingActionChanged | NotHalted | EvidenceMissing | EvidenceChanged

  function Append(r: Record, state: JournalState, entry: Entry): (r': Record)
    ensures r' == r.(state := state, history := r'.history)
    ensures |r'.history| == |r.history| + 1 && r'.history[..|r.history|] == r.history
    ensures r'.history[|r.history|] == HistoryEvent(|r.history| + 1, state, entry)
    ensures StatesOf(r'.history) == StatesOf(r.history) + {state}
    ensures Recovered(r'.history) <==> (Recovered(r.history) || entry.RecoveryRequired?)
    ensures OpenPendings(r'.history) ==
            OpenPendings(r.history) + if entry.ActionPending? && entry.action == Open then 1 else 0
  {
    var h := r.history + [HistoryEvent(|r.history| + 1, state, entry)];
    assert h[..|h| - 1] == r.history;
    r.(state := state, history := h)
  }

  function Lookup(ledger: Ledger, who: Identity): (r: Result<Record, JournalError>)
    ensures r.Ok? <==> KeyOf(who) in ledger && ledger[KeyOf(who)].identity == who
    ensures r.Ok? ==> r.value == ledger[KeyOf(who)]
  {
    if KeyOf(who) !in ledger then Err(Missing)
    else if ledger[KeyOf(who)].identity != who then Err(IdentityMismatch)
    else Ok(ledger[KeyOf(who)])
  }

  /** Two permits of one mode that share any single-use identity field. */
  predicate Clashes(a: Identity, b: Identity) {
    a.mode == b.mode &&
    (a.permitId == b.permitId || a.intentId == b.intentId ||
     a.openId == b.openId || a.closeId == b.closeId)
  }

  function FreshRecord(who: Identity): Record {
    Append(Record(who, Authorized, NoAction, None, None, "", "", []), Authorized, Claimed)
  }

  function StateAfter(r: Record, next: Option<JournalState>): JournalState {
    if next.Some? then next.value else r.state
  }

  /** The record that an operation on an existing record would write back. */
  function ApplyToRecord(r: Record, op: Op): Result<Record, JournalError>
    requires !op.Claim?
  {
    match op
    case Prepare(action, request, next) =>
      if r.state.EvidenceCommitted? then Err(TerminalRecord)
      else Ok(Append(r.(pendingAction := action, pendingRequest := Some(request)),
                     StateAfter(r, next), ActionPending(action, request)))
    case Complete(action, next) =>
      if r.pendingAction != action then Err(PendingActionChanged)
      else Ok(Append(r.(pendingAction := NoAction, pendingRequest := None),
                     StateAfter(r, next), ActionConfirmed(action)))
    case RecordRecovery => Ok(Append(r, r.state, RecoveryRequired))
    case Mark(state) =>
      Ok(Append(r.(pendingAction := NoAction, pendingRequest := None), state, Reconciled))
    case PrepareEvidence(e) =>
      if !r.state.Halted? then Err(NotHalted)
      else Ok(Append(r.(pendingEvidence := Some(e), pendingAction := PublishEvidence, pendingRequest := None),
                     Halted, EvidencePrepared(e.path, e.digest, e.content.passed)))
    case CommitEvidence(digest) =>
      if r.pendingEvidence.None? then Err(EvidenceMissing)
      else if r.pendingEvidence.value.digest != digest then Err(EvidenceChanged)
      else
        var path := r.pendingEvidence.value.path;
        Ok(Append(r.(pendingAction := NoAction, pendingRequest := None,
                     evidencePath := path, evidenceDigest := digest),
                  EvidenceCommitted, EvidencePublished(path, digest, r.pendingEvidence.value.content.passed)))
  }

  function Apply(ledger: Ledger, who: Identity, op: Op): Result<Ledger, JournalError> {
    var key := KeyOf(who);
    if op.Claim? then
      if key in ledger then
        if ledger[key].identity != who then Err(IdentityMismatch) else Ok(ledger)
      else if exists k :: k in ledger && Clashes(ledger[k].identity, who) then Err(DuplicateIdentity)
      else Ok(ledger[key := FreshRecord(who)])
    else
      match Lookup(ledger, who)
      case Err(e) => Err(e)
      case Ok(r) =>
        match ApplyToRecord(r, op)
        case Err(e) => Err(e)
        case Ok(r') => Ok(ledger[key := r'])
  }

  // ---------- what every ledger keeps ----------

  ghost predicate LedgerOk(ledger: Ledger) {
    && (forall k :: k in ledger ==> KeyOf(ledger[k].identity) == k && RecordOk(ledger[k]))
    && DistinctIdentities(ledger)
  }

  ghost predicate DistinctIdentities(ledger: Ledger) {
    forall j, k :: j in ledger && k in ledger && j != k ==> Apart(ledger[j].identity, ledger[k].identity)
  }

  /** In one mode no permit, intent, open or close ID is shared. */
  predicate Apart(a: Identity, b: Identity) {
    a.mode == b.mode ==>
      a.permitId != b.permitId && a.intentId != b.intentId && a.openId != b.openId && a.closeId != b.closeId
  }

  ghost predicate RecordOk(r: Record) {
    r.history != [] && r.history[|r.history| - 1].state == r.state && Numbered(r.history)
  }

  /** Durable progress of one record: identity fixed, history only extended. */
  ghost predicate Extends(r: Record, r': Record) {
    r'.identity == r.identity && r.history <= r'.history
  }

  ghost predicate LedgerExtends(a: Ledger, b: Ledger) {
    forall k :: k in a ==> k in b && Extends(a[k], b[k])
  }

  /** Every successful write keeps the ledger well formed and only extends it. */
  lemma {:induction false} ApplyKeepsLedger(ledger: Ledger, who: Identity, op: Op)
    requires LedgerOk(ledger)
    requires Apply(ledger, who, op).Ok?
    ensures LedgerOk(Apply(ledger, who, op).value)
    ensures LedgerExtends(ledger, Apply(ledger, who, op).value)
  {
    var key := KeyOf(who);
    if !op.Claim? {
      AppendKeepsRecord(ledger[key], op);
      StoreKeepsLedger(ledger, key, ApplyToRecord(ledger[key], op).value);
    } else if key !in ledger {
      StoreKeepsLedger(ledger, key, FreshRecord(who));
    }
  }

  lemma StoreKeepsLedger(ledger: Ledger, key: Key, r: Record)
    requires LedgerOk(ledger) && RecordOk(r) && KeyOf(r.identity) == key
    requires if key in ledger then Extends(ledger[key], r)
             else forall k :: k in ledger ==> !Clashes(ledger[k].identity, r.identity)
    ensures LedgerOk(ledger[key := r]) && LedgerExtends(ledger, ledger[key := r])
  {
    var ledger' := ledger[key := r];
    forall j, k | j in ledger' && k in ledger' && j != k
      ensures Apart(ledger'[j].identity, ledger'[k].identity)
    {
      if key in ledger || (j != key && k != key) {
        assert Apart(ledger[j].identity, ledger[k].identity);
      } else if j == key {
        assert !Clashes(ledger[k].identity, r.identity);
      } else {
        assert !Clashes(ledger[j].identity, r.identity);
      }
    }
  }

  lemma AppendKeepsRecord(r: Record, op: Op)
    requires RecordOk(r) && !op.Claim? && ApplyToRecord(r, op).Ok?
    ensures RecordOk(ApplyToRecord(r, op).value)
    ensures Extends(r, ApplyToRecord(r, op).value)
  {
    var r' := ApplyToRecord(r, op).value;
    forall i | 0 <= i < |r'.history| ensures r'.history[i].sequence == i + 1 {
      if i < |r.history| { assert r'.history[i] == r'.history[..|r.history|][i]; }
    }
  }

  /** Write-ahead and confirmation undo each other's pending mark and leave exactly two entries behind. */
  lemma PrepareThenComplete(r: Record, action: Action, request: Request, next: JournalState)
    requires !r.state.EvidenceCommitted?
    ensures var p := ApplyToRecord(r, Prepare(action, request, None));
            && p.Ok? && p.value.pendingAction == action && p.value.pendingRequest == Some(request) &&
               p.value.state == r.state
            && var c := ApplyToRecord(p.value, Complete(action, Some(next)));
               && c.Ok? && c.value.pendingAction == NoAction && c.value.pendingRequest == None && c.value.state == next
               && c.value.pendingEvidence == r.pendingEvidence
               && c.value.history == r.history + [HistoryEvent(|r.history| + 1, r.state,
                                                               ActionPending(action, request)),
                                                  HistoryEvent(|r.history| + 2, next, ActionConfirmed(action))]
  {
    var p := ApplyToRecord(r, Prepare(action, request, None)).value;
    var c := ApplyToRecord(p, Complete(action, Some(next))).value;
    assert p.history == p.history[..|r.history|] + [p.history[|r.history|]];
    assert c.history == c.history[..|p.history|] + [c.history[|p.history|]];
  }

  /** Extending a history forward keeps it forward. */
  lemma ForwardAppend(h: History, e: HistoryEvent)
    requires Forward(h)
    requires h != [] && !Recovered(h) ==> Rank(h[|h| - 1].state) <= Rank(e.state)
    ensures Forward(h + [e])
  {
    assert (h + [e])[..|h|] == h;
  }

  /** The pairwise reading of Forward. */
  lemma {:induction false} ForwardMeansMonotone(h: History, i: nat, j: nat)
    requires Forward(h) && i <= j < |h| && !Recovered(h[..j])
    ensures Rank(h[i].state) <= Rank(h[j].state)
    decreases |h|
  {
    if j < |h| - 1 {
      assert h[..|h| - 1][..j] == h[..j];
      ForwardMeansMonotone(h[..|h| - 1], i, j);
    } else if i < j {
      var g := h[..j];
      assert h[..|h| - 1] == g;
      assert g[j - 1] == h[j - 1] && g[i] == h[i];
      ForwardMeansMonotone(g, i, j - 1);
    }
  }

  lemma {:induction false} StatesOfMeansVisited(h: History, s: JournalState) returns (i: nat)
    requires s in StatesOf(h)
    ensures i < |h| && h[i].state == s
  {
    if h[|h| - 1].state == s {
      i := |h| - 1;
    } else {
      i := StatesOfMeansVisited(h[..|h| - 1], s);
    }
  }

  lemma {:induction false} RecoveredMonotone(h: History, k: nat)
    requires k <= |h| && Recovered(h[..k])
    ensures Recovered(h)
    decreases |h|
  {
    if k < |h| {
      assert h[..|h| - 1][..k] == h[..k];
      RecoveredMonotone(h[..|h| - 1], k);
    } else {
      assert h[..k] == h;
    }
  }

  /** The moments at which one run of the protocol reached each of its milestones. */
  ghost predicate RoundTripAt(h: History, resumed: nat, submitted: nat, observed: nat,
                              closing: nat, closed: nat, halted: nat) {
    resumed < submitted < observed < closing < closed < halted < |h| &&
    h[resumed].state == Resumed && h[submitted].state == OpenSubmitted && h[observed].state == OpenObserved &&
    h[closing].state == ClosePending && h[closed].state == CloseConfirmed && h[halted].state == Halted
  }

  /** A forward history that has seen every milestone has seen them in protocol order. */
  lemma {:induction false} MilestonesInOrder(h: History)
    returns (resumed: nat, submitted: nat, observed: nat, closing: nat, closed: nat, halted: nat)
    requires Forward(h) && !Recovered(h) && MILESTONES <= StatesOf(h)
    ensures RoundTripAt(h, resumed, submitted, observed, closing, closed, halted)
  {
    resumed := StatesOfMeansVisited(h, Resumed);
    submitted := StatesOfMeansVisited(h, OpenSubmitted);
    observed := StatesOfMeansVisited(h, OpenObserved);
    closing := StatesOfMeansVisited(h, ClosePending);
    closed := StatesOfMeansVisited(h, CloseConfirmed);
    halted := StatesOfMeansVisited(h, Halted);
    HigherRankIsLater(h, resumed, submitted);
    HigherRankIsLater(h, submitted, observed);
    HigherRankIsLater(h, observed, closing);
    HigherRankIsLater(h, closing, closed);
    HigherRankIsLater(h, closed, halted);
  }

  lemma {:induction false} HigherRankIsLater(h: History, i: nat, j: nat)
    requires Forward(h) && !Recovered(h) && i < |h| && j < |h|
    requires Rank(h[i].state) < Rank(h[j].state)
    ensures i < j
  {
    if j <= i {
      if Recovered(h[..i]) { RecoveredMonotone(h, i); }
      ForwardMeansMonotone(h, j, i);
    }
  }
}
