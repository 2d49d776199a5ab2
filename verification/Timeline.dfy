/**
 Everything the executor makes happen, in order: ledger writes, adapter calls, evidence files.
 The durable state is a function of the timeline, so a crash is a cut to any prefix.
 `Permitted` is what the executor is proved to respect before each event (module Executor);
 the theorems here are what that buys over every run, restart and crash point.
 */
module Timeline {
  import opened Basics
  import opened Protocol
  import opened Journal
  import opened Venue

  /** Refused: the operation raised before writing.  Lost: the caller saw a failure or a timeout. */
  datatype Fate = Written | Refused | LostUnwritten | LostWritten

  datatype Event =
    | RunStarted(who: Identity)
    | Write(who: Identity, op: Op, fate: Fate)
    | Call(who: Identity, request: Request, reply: Reply, exchange: Exchange)
    | Published(path: Id, content: Evidence)
    | TimeOver(who: Identity)
    | HealthRead(who: Identity, healthy: bool)
    | PublishFailed(path: Id)

  type Log = seq<Event>

  predicate Durable(e: Event) { e.Write? && (e.fate.Written? || e.fate.LostWritten?) }

  predicate FailedWrite(e: Event) { e.Write? && !e.fate.Written? }

  predicate OpenDispatch(e: Event) { e.Call? && e.request.SubmitOpen? }

  function LedgerStep(ledger: Ledger, e: Event): Ledger {
    if Durable(e) && Apply(ledger, e.who, e.op).Ok? then Apply(ledger, e.who, e.op).value else ledger
  }

  /** The permit ledger on disk after these events. */
  function LedgerOf(log: Log): Ledger {
    if log == [] then map[] else LedgerStep(LedgerOf(log[..|log| - 1]), log[|log| - 1])
  }

  function FilesStep(files: map<Id, Evidence>, e: Event): map<Id, Evidence> {
    if e.Published? then files[e.path := e.content] else files
  }

  /** The evidence files on disk after these events. */
  function FilesOf(log: Log): map<Id, Evidence> {
    if log == [] then map[] else FilesStep(FilesOf(log[..|log| - 1]), log[|log| - 1])
  }

  /** Some journal write of the current run has failed. */
  predicate Degraded(log: Log) {
    log != [] &&
    var e := log[|log| - 1];
    !e.RunStarted? && (FailedWrite(e) || Degraded(log[..|log| - 1]))
  }

  function CallCount(log: Log): nat {
    if log == [] then 0 else CallCount(log[..|log| - 1]) + if log[|log| - 1].Call? then 1 else 0
  }

  function NextState(r: Record, op: Op): JournalState
    requires !op.Claim?
  {
    match ApplyToRecord(r, op) case Ok(r') => r'.state case Err(_) => r.state
  }

  /** A write to a claimed record: never refused, never to a terminal record, never backwards in a first run. */
  ghost predicate PermittedWrite(sha: Hash, files: map<Id, Evidence>, r: Record, op: Op)
    requires !op.Claim?
  {
    && ApplyToRecord(r, op).Ok?
    && !r.state.EvidenceCommitted?
    && (Recovered(r.history) || Rank(r.state) <= Rank(NextState(r, op)))
    && (op.PrepareEvidence? ==> op.evidence.content.identity == r.identity && WithinLimits(op.evidence.content))
    && (op.PrepareEvidence? && op.evidence.content.passed ==>
          !Recovered(r.history) && MILESTONES <= StatesOf(r.history))
    && (NextState(r, op).EvidenceCommitted? ==> op.CommitEvidence?)
    && (op.CommitEvidence? ==>
          && r.state.Halted? && r.pendingEvidence.value.path in files
          && sha(files[r.pendingEvidence.value.path]) == op.digest)
  }

  ghost predicate Permitted(sha: Hash, log: Log, e: Event) {
    match e
    case RunStarted(_) => true
    case TimeOver(_) => true
    case HealthRead(_, _) => true
    case PublishFailed(_) => true
    case Published(path, _) => path !in FilesOf(log)
    case Write(who, op, fate) =>
      && !Degraded(log)
      && (fate.Refused? <==> Apply(LedgerOf(log), who, op).Err?)
      && (!op.Claim? ==>
            && Lookup(LedgerOf(log), who).Ok?
            && PermittedWrite(sha, FilesOf(log), LedgerOf(log)[KeyOf(who)], op))
    case Call(who, request, _, _) =>
      request.SubmitOpen? ==>
        && log != [] && log[|log| - 1] == Write(who, Prepare(Open, request, None), Written)
        && request.clientOrderId == who.openId
        && Lookup(LedgerOf(log), who).Ok?
        && OpenPendings(LedgerOf(log)[KeyOf(who)].history) == 1
  }

  ghost predicate Lawful(sha: Hash, log: Log) {
    log == [] || (Lawful(sha, log[..|log| - 1]) && Permitted(sha, log[..|log| - 1], log[|log| - 1]))
  }

  // ---------- stepping ----------

  lemma {:induction false} Stepped(sha: Hash, log: Log, e: Event)
    ensures LedgerOf(log + [e]) == LedgerStep(LedgerOf(log), e)
    ensures FilesOf(log + [e]) == FilesStep(FilesOf(log), e)
    ensures Degraded(log + [e]) <==> !e.RunStarted? && (FailedWrite(e) || Degraded(log))
    ensures CallCount(log + [e]) == CallCount(log) + if e.Call? then 1 else 0
    ensures Lawful(sha, log + [e]) <==> Lawful(sha, log) && Permitted(sha, log, e)
  {
    assert (log + [e])[..|log + [e]| - 1] == log;
  }

  lemma {:induction false} LawfulPrefix(sha: Hash, log: Log, k: nat)
    requires Lawful(sha, log) && k <= |log|
    ensures Lawful(sha, log[..k])
    decreases |log|
  {
    if k < |log| {
      assert log[..|log| - 1][..k] == log[..k];
      LawfulPrefix(sha, log[..|log| - 1], k);
    } else {
      assert log[..k] == log;
    }
  }

  /** The events before position i were lawful and event i was permitted after them. */
  lemma {:induction false} LawfulAt(sha: Hash, log: Log, i: nat)
    requires Lawful(sha, log) && i < |log|
    ensures Lawful(sha, log[..i]) && Permitted(sha, log[..i], log[i])
    ensures LedgerOf(log[..i + 1]) == LedgerStep(LedgerOf(log[..i]), log[i])
  {
    LawfulPrefix(sha, log, i + 1);
    assert log[..i + 1][..i] == log[..i];
  }

  // ---------- what every lawful timeline keeps ----------

  /** Some prefix of the history is one uninterrupted round trip. */
  ghost predicate HasRoundTrip(h: History) {
    exists k :: 0 <= k <= |h| && RoundTripPrefix(h, k)
  }

  ghost predicate RoundTripPrefix(h: History, k: nat)
    requires k <= |h|
  {
    Forward(h[..k]) && !Recovered(h[..k]) && MILESTONES <= StatesOf(h[..k])
  }

  /** Terminal records are backed by the file they name; a passed report is backed by a round trip inside the limits. */
  ghost predicate Backed(sha: Hash, files: map<Id, Evidence>, r: Record) {
    && Forward(r.history)
    && (r.state.EvidenceCommitted? ==> r.evidencePath in files && sha(files[r.evidencePath]) == r.evidenceDigest)
    && (r.pendingEvidence.Some? ==>
          r.pendingEvidence.value.content.identity == r.identity && WithinLimits(r.pendingEvidence.value.content))
    && (r.pendingEvidence.Some? && r.pendingEvidence.value.content.passed ==> HasRoundTrip(r.history))
  }

  ghost predicate Sound(sha: Hash, log: Log) {
    LedgerOk(LedgerOf(log)) &&
    forall k :: k in LedgerOf(log) ==> Backed(sha, FilesOf(log), LedgerOf(log)[k])
  }

  lemma {:induction false} RoundTripSurvives(h: History, h': History)
    requires h <= h' && HasRoundTrip(h)
    ensures HasRoundTrip(h')
  {
    var k :| 0 <= k <= |h| && RoundTripPrefix(h, k);
    assert h'[..k] == h[..k];
    assert RoundTripPrefix(h', k);
  }

  lemma {:induction false} WriteKeepsBacked(sha: Hash, files: map<Id, Evidence>, r: Record, op: Op)
    requires RecordOk(r) && Backed(sha, files, r) && !op.Claim? && PermittedWrite(sha, files, r, op)
    ensures Backed(sha, files, ApplyToRecord(r, op).value)
  {
    var r' := ApplyToRecord(r, op).value;
    WriteAppendsOne(r, op);
    OneMoreEvent(r.history, r'.history, r'.state);
    if op.PrepareEvidence? && op.evidence.content.passed {
      assert r.history[..|r.history|] == r.history;
      assert RoundTripPrefix(r.history, |r.history|);
      RoundTripSurvives(r.history, r'.history);
    } else if r.pendingEvidence.Some? && r.pendingEvidence.value.content.passed {
      RoundTripSurvives(r.history, r'.history);
    }
  }

  lemma {:induction false} WriteAppendsOne(r: Record, op: Op)
    requires !op.Claim? && ApplyToRecord(r, op).Ok?
    ensures var r' := ApplyToRecord(r, op).value;
            && |r'.history| == |r.history| + 1 && r'.history[..|r.history|] == r.history
            && r'.history[|r.history|].state == r'.state == NextState(r, op)
            && r'.identity == r.identity
            && (if op.PrepareEvidence? then r'.pendingEvidence == Some(op.evidence)
                else r'.pendingEvidence == r.pendingEvidence)
            && (op.CommitEvidence? ==>
                  r'.evidencePath == r.pendingEvidence.value.path &&
                  r'.evidenceDigest == op.digest)
  {
  }

  lemma {:induction false} OneMoreEvent(h: History, h': History, s: JournalState)
    requires h != [] && Forward(h) && |h'| == |h| + 1 && h'[..|h|] == h && h'[|h|].state == s
    requires Recovered(h) || Rank(h[|h| - 1].state) <= Rank(s)
    ensures Forward(h') && h <= h'
  {
    assert h' == h + [h'[|h|]];
    ForwardAppend(h, h'[|h|]);
  }

  lemma {:induction false} StepKeepsSound(sha: Hash, log: Log, e: Event)
    requires Sound(sha, log) && Permitted(sha, log, e)
    ensures Sound(sha, log + [e])
    ensures LedgerExtends(LedgerOf(log), LedgerOf(log + [e]))
  {
    Stepped(sha, log, e);
    var ledger, files := LedgerOf(log), FilesOf(log);
    if Durable(e) && Apply(ledger, e.who, e.op).Ok? {
      ApplyKeepsLedger(ledger, e.who, e.op);
      if !e.op.Claim? {
        WriteKeepsBacked(sha, files, ledger[KeyOf(e.who)], e.op);
      }
    }
  }

  lemma {:induction false} LawfulIsSound(sha: Hash, log: Log)
    requires Lawful(sha, log)
    ensures Sound(sha, log)
  {
    if log != [] {
      var init := log[..|log| - 1];
      LawfulIsSound(sha, init);
      StepKeepsSound(sha, init, log[|log| - 1]);
      assert log == init + [log[|log| - 1]];
    }
  }

  // ---------- theorems over runs, restarts and crash points ----------

  /** Records are never removed, renamed or rewritten: later ledgers only append history. */
  lemma {:induction false} HistoryAppendOnly(sha: Hash, log: Log, i: nat, j: nat)
    requires Lawful(sha, log) && i <= j <= |log|
    ensures LedgerExtends(LedgerOf(log[..i]), LedgerOf(log[..j]))
    ensures LedgerOk(LedgerOf(log[..j]))
    decreases j
  {
    LawfulPrefix(sha, log, j);
    LawfulIsSound(sha, log[..j]);
    if i < j {
      HistoryAppendOnly(sha, log, i, j - 1);
      LawfulAt(sha, log, j - 1);
      LawfulIsSound(sha, log[..j - 1]);
      StepKeepsSound(sha, log[..j - 1], log[j - 1]);
      assert log[..j - 1] + [log[j - 1]] == log[..j];
      ExtendsTransitive(LedgerOf(log[..i]), LedgerOf(log[..j - 1]), LedgerOf(log[..j]));
    }
  }

  lemma ExtendsTransitive(a: Ledger, b: Ledger, c: Ledger)
    requires LedgerExtends(a, b) && LedgerExtends(b, c)
    ensures LedgerExtends(a, c)
  {
    forall k | k in a ensures k in c && Extends(a[k], c[k]) {
      assert Extends(a[k], b[k]) && Extends(b[k], c[k]);
    }
  }

  lemma {:induction false} OpenPendingsMonotone(h: History, k: nat)
    requires k <= |h|
    ensures OpenPendings(h[..k]) <= OpenPendings(h)
    decreases |h|
  {
    if k < |h| {
      assert h[..|h| - 1][..k] == h[..k];
      OpenPendingsMonotone(h[..|h| - 1], k);
    } else {
      assert h[..k] == h;
    }
  }

  /** One open client order ID reaches the exchange adapter at most once per mode, ever. */
  lemma {:induction false} OpenDispatchedAtMostOnce(sha: Hash, log: Log, i: nat, j: nat)
    requires Lawful(sha, log) && i < |log| && j < |log|
    requires OpenDispatch(log[i]) && OpenDispatch(log[j])
    requires log[i].who.mode == log[j].who.mode && log[i].request.clientOrderId == log[j].request.clientOrderId
    ensures i == j
  {
    if i < j {
      NoSecondOpenDispatch(sha, log, i, j);
    } else {
      NoSecondOpenDispatch(sha, log, j, i);
    }
  }

  lemma {:induction false} NoSecondOpenDispatch(sha: Hash, log: Log, i: nat, j: nat)
    requires Lawful(sha, log) && i <= j < |log|
    requires OpenDispatch(log[i]) && OpenDispatch(log[j])
    requires log[i].who.mode == log[j].who.mode && log[i].request.clientOrderId == log[j].request.clientOrderId
    ensures i == j
  {
    if i < j {
      FirstAnnouncement(sha, log, j);
      AnnouncedByThen(sha, log, i, j - 1, log[j].who);
    }
  }

  /** Once an OPEN was dispatched, any record with its open ID shows an announcement. */
  lemma {:induction false} AnnouncedByThen(sha: Hash, log: Log, i: nat, j: nat, b: Identity)
    requires Lawful(sha, log) && i <= j <= |log| && i < |log| && OpenDispatch(log[i])
    requires log[i].who.mode == b.mode && log[i].request.clientOrderId == b.openId
    requires Lookup(LedgerOf(log[..j]), b).Ok?
    ensures OpenPendings(LedgerOf(log[..j])[KeyOf(b)].history) >= 1
  {
    FirstAnnouncement(sha, log, i);
    AnnouncementPersists(sha, log, i, j, log[i].who, b);
  }

  lemma {:induction false} AnnouncementPersists(sha: Hash, log: Log, i: nat, j: nat, a: Identity, b: Identity)
    requires Lawful(sha, log) && i <= j <= |log| && a.mode == b.mode && a.openId == b.openId
    requires Lookup(LedgerOf(log[..i]), a).Ok? && Lookup(LedgerOf(log[..j]), b).Ok?
    ensures OpenPendings(LedgerOf(log[..i])[KeyOf(a)].history) <= OpenPendings(LedgerOf(log[..j])[KeyOf(b)].history)
  {
    HistoryAppendOnly(sha, log, i, j);
    var was, now := LedgerOf(log[..i]), LedgerOf(log[..j]);
    AnnouncedOnceIsAnnounced(was, now, a, b);
  }

  /** A record that announced an OPEN still shows it in every later ledger, under the only key with that open ID. */
  lemma {:induction false} AnnouncedOnceIsAnnounced(was: Ledger, now: Ledger, a: Identity, b: Identity)
    requires LedgerExtends(was, now) && LedgerOk(now) && Lookup(was, a).Ok? && Lookup(now, b).Ok?
    requires a.mode == b.mode && a.openId == b.openId
    ensures OpenPendings(was[KeyOf(a)].history) <= OpenPendings(now[KeyOf(b)].history)
  {
    assert Extends(was[KeyOf(a)], now[KeyOf(a)]);
    assert !Apart(now[KeyOf(a)].identity, now[KeyOf(b)].identity);
    var h := now[KeyOf(a)].history;
    assert h[..|was[KeyOf(a)].history|] == was[KeyOf(a)].history;
    OpenPendingsMonotone(h, |was[KeyOf(a)].history|);
  }

  /** The write just before an OPEN dispatch is the first OPEN announcement of its record. */
  lemma {:induction false} FirstAnnouncement(sha: Hash, log: Log, j: nat)
    requires Lawful(sha, log) && j < |log| && OpenDispatch(log[j])
    ensures j > 0 && log[j - 1] == Write(log[j].who, Prepare(Open, log[j].request, None), Written)
    ensures Lookup(LedgerOf(log[..j - 1]), log[j].who).Ok?
    ensures OpenPendings(LedgerOf(log[..j - 1])[KeyOf(log[j].who)].history) == 0
    ensures Lookup(LedgerOf(log[..j]), log[j].who).Ok?
    ensures OpenPendings(LedgerOf(log[..j])[KeyOf(log[j].who)].history) == 1
    ensures log[j].request.clientOrderId == log[j].who.openId
  {
    LawfulAt(sha, log, j);
    assert log[..j][|log[..j]| - 1] == log[j - 1];
    LawfulAt(sha, log, j - 1);
  }

  /** Each OPEN dispatch finds its own request durably pending, written ahead in the same run. */
  lemma {:induction false} OpenDispatchIsWrittenAhead(sha: Hash, log: Log, i: nat)
    requires Lawful(sha, log) && i < |log| && OpenDispatch(log[i])
    ensures var ledger := LedgerOf(log[..i]);
            && Lookup(ledger, log[i].who).Ok?
            && ledger[KeyOf(log[i].who)].pendingAction == Open
            && ledger[KeyOf(log[i].who)].pendingRequest == Some(log[i].request)
  {
    LawfulAt(sha, log, i);
    assert log[..i][|log[..i]| - 1] == log[i - 1];
    LawfulAt(sha, log, i - 1);
  }

  /** Permit, intent, open and close IDs of one mode are pairwise distinct across records, at every crash point. */
  lemma {:induction false} IdentitiesStayDistinct(sha: Hash, log: Log, k: nat)
    requires Lawful(sha, log) && k <= |log|
    ensures DistinctIdentities(LedgerOf(log[..k]))
    ensures forall key :: key in LedgerOf(log[..k]) ==> Numbered(LedgerOf(log[..k])[key].history)
  {
    LawfulPrefix(sha, log, k);
    LawfulIsSound(sha, log[..k]);
  }

  /** A first run never steps back: up to a recorded recovery, the journal only moves forward. */
  lemma {:induction false} FirstRunNeverStepsBack(sha: Hash, log: Log, k: nat, key: Key, i: nat, j: nat)
    requires Lawful(sha, log) && k <= |log| && key in LedgerOf(log[..k])
    requires i <= j < |LedgerOf(log[..k])[key].history| && !Recovered(LedgerOf(log[..k])[key].history[..j])
    ensures Rank(LedgerOf(log[..k])[key].history[i].state) <= Rank(LedgerOf(log[..k])[key].history[j].state)
  {
    LawfulPrefix(sha, log, k);
    LawfulIsSound(sha, log[..k]);
    ForwardMeansMonotone(LedgerOf(log[..k])[key].history, i, j);
  }

  /** At every crash point, a terminal record names an existing file with the recorded hash. */
  lemma {:induction false} CommittedEvidenceExists(sha: Hash, log: Log, k: nat, key: Key)
    requires Lawful(sha, log) && k <= |log|
    requires key in LedgerOf(log[..k]) && LedgerOf(log[..k])[key].state.EvidenceCommitted?
    ensures var r := LedgerOf(log[..k])[key];
            r.evidencePath in FilesOf(log[..k]) && sha(FilesOf(log[..k])[r.evidencePath]) == r.evidenceDigest
  {
    LawfulPrefix(sha, log, k);
    LawfulIsSound(sha, log[..k]);
  }

  /** A record becomes terminal only from HALTED. */
  lemma {:induction false} CommitFollowsHalt(sha: Hash, log: Log, i: nat, key: Key)
    requires Lawful(sha, log) && i < |log|
    requires key in LedgerOf(log[..i + 1]) && LedgerOf(log[..i + 1])[key].state.EvidenceCommitted?
    requires key in LedgerOf(log[..i]) ==> !LedgerOf(log[..i])[key].state.EvidenceCommitted?
    ensures key in LedgerOf(log[..i]) && LedgerOf(log[..i])[key].state.Halted?
  {
    LawfulAt(sha, log, i);
  }

  /** An evidence file is written once and never changes. */
  lemma {:induction false} EvidenceNeverRewritten(sha: Hash, log: Log, i: nat, j: nat, path: Id)
    requires Lawful(sha, log) && i <= j <= |log| && path in FilesOf(log[..i])
    ensures path in FilesOf(log[..j]) && FilesOf(log[..j])[path] == FilesOf(log[..i])[path]
    decreases j
  {
    if i < j {
      EvidenceNeverRewritten(sha, log, i, j - 1, path);
      LawfulAt(sha, log, j - 1);
      assert log[..j - 1] + [log[j - 1]] == log[..j];
      Stepped(sha, log[..j - 1], log[j - 1]);
    }
  }

  /** EVIDENCE_COMMITTED is absorbing: no later run changes anything about the record. */
  lemma {:induction false} CommittedIsAbsorbing(sha: Hash, log: Log, i: nat, j: nat, key: Key)
    requires Lawful(sha, log) && i <= j <= |log|
    requires key in LedgerOf(log[..i]) && LedgerOf(log[..i])[key].state.EvidenceCommitted?
    ensures key in LedgerOf(log[..j]) && LedgerOf(log[..j])[key] == LedgerOf(log[..i])[key]
    decreases j
  {
    if i < j {
      CommittedIsAbsorbing(sha, log, i, j - 1, key);
      LawfulAt(sha, log, j - 1);
    }
  }

  /** A report that says passed is never prepared without one uninterrupted round trip in the history. */
  lemma {:induction false} PassedReportHadRoundTrip(sha: Hash, log: Log, k: nat, key: Key)
    returns (resumed: nat, submitted: nat, observed: nat, closing: nat, closed: nat, halted: nat)
    requires Lawful(sha, log) && k <= |log| && key in LedgerOf(log[..k])
    requires LedgerOf(log[..k])[key].pendingEvidence.Some?
    requires LedgerOf(log[..k])[key].pendingEvidence.value.content.passed
    ensures RoundTripAt(LedgerOf(log[..k])[key].history, resumed, submitted, observed, closing, closed, halted)
    ensures LedgerOf(log[..k])[key].pendingEvidence.value.content.identity == LedgerOf(log[..k])[key].identity
    ensures WithinLimits(LedgerOf(log[..k])[key].pendingEvidence.value.content)
  {
    LawfulPrefix(sha, log, k);
    LawfulIsSound(sha, log[..k]);
    var h := LedgerOf(log[..k])[key].history;
    var n :| 0 <= n <= |h| && RoundTripPrefix(h, n);
    resumed, submitted, observed, closing, closed, halted := MilestonesInOrder(h[..n]);
  }

  /** After the first failed journal write of a run, that run issues no other. */
  lemma {:induction false} NoWriteAfterFailure(sha: Hash, log: Log, i: nat, j: nat)
    requires Lawful(sha, log) && i < j < |log| && FailedWrite(log[i]) && log[j].Write?
    ensures exists s :: i < s < j && log[s].RunStarted?
  {
    LawfulAt(sha, log, j);
    if forall s :: i < s < j ==> !log[s].RunStarted? {
      StillDegraded(log, i, j);
    }
  }

  lemma {:induction false} StillDegraded(log: Log, i: nat, j: nat)
    requires i < j <= |log| && FailedWrite(log[i])
    requires forall s :: i < s < j ==> !log[s].RunStarted?
    ensures Degraded(log[..j])
    decreases j
  {
    assert log[..j][..j - 1] == log[..j - 1];
    if i < j - 1 { StillDegraded(log, i, j - 1); }
  }
}
