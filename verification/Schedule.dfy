/**
 Any number of executor runs on one ledger, each stopped at any point, and what holds of all of them.
 */
module Schedule {
  import opened Basics
  import opened Protocol
  import opened Payloads
  import opened Journal
  import opened Venue
  import opened Timeline
  import opened HostMachine
  import opened Executor

  datatype Plan = Plan(auth: Authorization, target: Id, mode: Mode, path: Id, observations: nat, attempts: nat)

  /** Two dispatches of one open client order ID in one mode. */
  predicate SameOpen(a: Event, b: Event) {
    && OpenDispatch(a) && OpenDispatch(b)
    && a.who.mode == b.who.mode && a.request.clientOrderId == b.request.clientOrderId
  }

  /**
   Runs any list of permits in any order, with repetitions; after each run the process may have died at any
   event of it.  No OPEN is ever dispatched twice, no single-use identity is reused and no terminal record
   lacks its evidence file.
   */
  method RunSchedule(sha: Hash, plans: seq<Plan>) returns (log: Log)
    requires forall p :: p in plans ==> p.observations >= 1 && p.attempts >= 1
    ensures Lawful(sha, log)
    ensures forall i, j :: 0 <= i < |log| && 0 <= j < |log| && SameOpen(log[i], log[j]) ==> i == j
    ensures DistinctIdentities(LedgerOf(log))
    ensures forall key :: key in LedgerOf(log) && LedgerOf(log)[key].state.EvidenceCommitted? ==>
                            && LedgerOf(log)[key].evidencePath in FilesOf(log)
                            && sha(FilesOf(log)[LedgerOf(log)[key].evidencePath]) == LedgerOf(log)[key].evidenceDigest
  {
    hide Host.Valid;
    var host := new Host(sha, None, Exchange(Buy, 0.0, 0.0, None, 0.0));
    for n := 0 to |plans|
      invariant host.Valid() && fresh(host) && host.sha == sha
    {
      var p := plans[n];
      var executor := new AccountALiveTradeExecutor(host, p.target, p.mode, p.observations, p.attempts);
      var before := |host.log|;
      var r, _, _, _ := executor.Execute(p.auth, p.path);
      var cut :| before <= cut <= |host.log|;
      host.Crash(cut);
    }
    log := host.log;
    host.ExchangeSide();
    forall i, j | 0 <= i < |log| && 0 <= j < |log| && SameOpen(log[i], log[j]) ensures i == j {
      OpenDispatchedAtMostOnce(sha, log, i, j);
    }
    LawfulIsSound(sha, log);
  }

  /** At each call, the exchange is one that evolved from the start. */
  lemma ExchangeAtCall(start: Exchange, log: Log, i: nat)
    requires start.Valid() && Lived(start, log) && i < |log| && log[i].Call?
    ensures Evolves(start, log[i].exchange)
  {
    ExchangeEvolves(start, log, i + 1);
    assert log[..i + 1][i] == log[i];
  }

  /** A cleanup that is safe after a close found, and left, exactly the position it had to protect. */
  lemma SafeCloseRestoresPosition(start: Exchange, log: Log, from: nat, auth: Authorization, r: CleanupResult,
                                  w: CleanupWitness)
    requires start.Valid() && Lived(start, log) && Answered(auth, log)
    requires SafeCleanup(log, from, auth, r, w) && r.closeSubmitted
    ensures start.base >= 0.0 && r.baselineQuantity == start.base
    ensures w.finalAt < |log| && log[w.finalAt].Call?
    ensures log[w.closedAt].exchange.Position() == start.base
    ensures log[w.confirmedAt].exchange.Position() == start.base
    ensures log[w.finalAt].exchange.Position() == start.base
  {
    ExchangeAtCall(start, log, w.decidedAt);
    assert TruthfulReply(auth, log[w.decidedAt].request, log[w.decidedAt].reply, log[w.decidedAt].exchange);
    assert log[w.decidedAt].exchange.openFill == r.closeQuantity;
    assert start.base >= 0.0;
    ExchangeAtCall(start, log, w.closedAt);
    ExchangeAtCall(start, log, w.confirmedAt);
    ExchangeAtCall(start, log, w.finalAt);
    assert TruthfulReply(auth, log[w.closedAt].request, log[w.closedAt].reply, log[w.closedAt].exchange);
    assert log[w.closedAt].request.baselineQuantity == r.baselineQuantity;
    assert TruthfulReply(auth, log[w.confirmedAt].request, log[w.confirmedAt].reply, log[w.confirmedAt].exchange);
    assert TruthfulReply(auth, log[w.finalAt].request, log[w.finalAt].reply, log[w.finalAt].exchange);
  }

  /**
   One canary, executed and restarted any number of times against a truthful exchange that honours each
   intent once and may lose any acknowledgement.  The protected position is never sold into and never flips;
   every run that reports a safe close left exactly that position.
   */
  method RestartCanary(sha: Hash, auth: Authorization, mode: Mode, start: Exchange, paths: seq<Id>, observations: nat,
                       attempts: nat)
    returns (log: Log, reports: seq<RunReport>, ghost finals: seq<nat>)
    requires observations >= 1 && attempts >= 1 && start.Valid() && start.openSide == auth.openSide
    ensures Lawful(sha, log) && |reports| == |finals|
    ensures forall i :: 0 <= i < |log| && log[i].Call? ==>
                          && log[i].exchange.base == start.base
                          && start.base <= log[i].exchange.Position() <= start.base + log[i].exchange.openFill
    ensures ClosesHeld(log, start, reports, finals)
  {
    hide Host.Valid, SafeCleanup, Lawful, Lived, Answered, LedgerOf, FilesOf;
    var host := new Host(sha, Some(auth), start);
    reports, finals := [], [];
    for n := 0 to |paths|
      invariant host.Valid() && fresh(host) && host.sha == sha && host.canary == Some(auth) && host.start == start
      invariant |reports| == |finals|
      invariant ClosesHeld(host.log, start, reports, finals)
    {
      var executor := new AccountALiveTradeExecutor(host, auth.target, mode, observations, attempts);
      ghost var earlier := host.log;
      var before := |host.log|;
      var r, w, from, _ := executor.Execute(auth, paths[n]);
      ClosesHeldSurvives(earlier, host.log, start, reports, finals);
      var died: bool := *;
      if died {
        var cut :| before <= cut <= |host.log|;
        host.Crash(cut);
        assert earlier <= host.log;
        ClosesHeldSurvives(earlier, host.log, start, reports, finals);
      } else {
        if r.attempt.cleanup.safe && r.attempt.cleanup.closeSubmitted {
          host.ExchangeSide();
          SafeCloseRestoresPosition(start, host.log, from, auth, r.attempt.cleanup, w);
        }
        reports, finals := reports + [r], finals + [w.finalAt];
      }
    }
    log := host.log;
    host.ExchangeSide();
    forall i | 0 <= i < |log| && log[i].Call?
      ensures log[i].exchange.base == start.base
      ensures start.base <= log[i].exchange.Position() <= start.base + log[i].exchange.openFill
    {
      ExchangeAtCall(start, log, i);
    }
  }

  ghost predicate ClosesHeld(log: Log, start: Exchange, reports: seq<RunReport>, finals: seq<nat>)
    requires |reports| == |finals|
  {
    forall n :: 0 <= n < |reports| && reports[n].attempt.cleanup.safe && reports[n].attempt.cleanup.closeSubmitted ==>
                  && finals[n] < |log| && log[finals[n]].Call?
                  && log[finals[n]].exchange.Position() == start.base == reports[n].attempt.cleanup.baselineQuantity
  }

  lemma ClosesHeldSurvives(was: Log, now: Log, start: Exchange, reports: seq<RunReport>, finals: seq<nat>)
    requires was <= now && |reports| == |finals|
    ensures ClosesHeld(was, start, reports, finals) ==> ClosesHeld(now, start, reports, finals)
  {
  }
}
