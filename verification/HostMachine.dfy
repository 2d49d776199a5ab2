/**
 The machine the executor runs on: the ledger file, the evidence directory and the adapter,
 each recording what happened on one timeline.  Every assignment from `*` is an outcome the
 environment chooses freely.
 */
module HostMachine {
  import opened Basics
  import opened Protocol
  import opened Payloads
  import opened Journal
  import opened ExchangeHistory
  import opened Venue
  import opened Timeline

  /** What an exchange that reports truthfully can make the adapter answer. */
  predicate TruthfulReply(auth: Authorization, request: Request, reply: Reply, x: Exchange) {
    var along := ExpectedSide(auth.openSide);
    match request
    case ReadPosition(_, _, _) =>
      reply.Position? ==>
        && (reply.quantity.Some? && reply.side.Some? ==> Reads(x, along, reply.quantity.value, reply.side.value))
        && (reply.confirmedFill.Some? ==> reply.confirmedFill.value == x.openFill || reply.confirmedFill.value == 0.0)
    case TakeFinalSnapshot(_, _, _, _) =>
      reply.Snapshot? && reply.quantity.Some? && reply.side.Some? ==>
        Reads(x, along, reply.quantity.value, reply.side.value)
    case SubmitClose(_, _, _, _, _, _, _, _, _, _, _, _) =>
      reply.Ack? ==>
        && WellFormedClose(request, auth) && CloseSeen(x, request, auth)
        && (x.base >= 0.0 ==> CloseProven(x, request, auth))
    case _ => true
  }

  /** The exchange as the last call left it. */
  function ExchangeOf(start: Exchange, log: Log): Exchange {
    if log == [] then start
    else if log[|log| - 1].Call? then log[|log| - 1].exchange
    else ExchangeOf(start, log[..|log| - 1])
  }

  /** One exchange lived through all the calls. */
  ghost predicate Lived(start: Exchange, log: Log) {
    log == [] ||
    var init, e := log[..|log| - 1], log[|log| - 1];
    Lived(start, init) && (e.Call? ==> Evolves(ExchangeOf(start, init), e.exchange))
  }

  /** Every call was answered truthfully. */
  ghost predicate Answered(auth: Authorization, log: Log) {
    forall i :: 0 <= i < |log| && log[i].Call? ==> TruthfulReply(auth, log[i].request, log[i].reply, log[i].exchange)
  }

  lemma ExchangeStep(start: Exchange, log: Log, e: Event)
    ensures ExchangeOf(start, log + [e]) == if e.Call? then e.exchange else ExchangeOf(start, log)
    ensures Lived(start, log + [e]) <==>
            Lived(start, log) && (e.Call? ==> Evolves(ExchangeOf(start, log), e.exchange))
  {
    assert (log + [e])[..|log + [e]| - 1] == log;
  }

  /** At every crash point the exchange has only evolved from where it started. */
  lemma {:induction false} ExchangeEvolves(start: Exchange, log: Log, k: nat)
    requires start.Valid() && Lived(start, log) && k <= |log|
    ensures Lived(start, log[..k]) && Evolves(start, ExchangeOf(start, log[..k]))
    decreases |log|
  {
    if log == [] {
      assert log[..k] == log;
    } else if k < |log| {
      assert log[..|log| - 1][..k] == log[..k];
      ExchangeEvolves(start, log[..|log| - 1], k);
    } else {
      assert log[..k] == log;
      ExchangeEvolves(start, log[..|log| - 1], k - 1);
      assert log[..|log| - 1][..k - 1] == log[..|log| - 1];
    }
  }

  /** The adapter in front of a truthful exchange; any acknowledgement may still be lost. */
  method AnswerTruthfully(auth: Authorization, x0: Exchange, request: Request) returns (x: Exchange, reply: Reply)
    requires x0.Valid() && x0.openSide == auth.openSide
    ensures Evolves(x0, x) && TruthfulReply(auth, request, reply, x)
  {
    reply := *;
    if request.SubmitClose? {
      var acknowledged;
      ghost var existing, checked, last;
      x, acknowledged, existing, checked, last := SubmitCloseAt(x0, request, auth);
      if !acknowledged { reply := Raised; }
    } else {
      x := Wait(x0);
      var along := ExpectedSide(auth.openSide);
      if request.ReadPosition? && reply.Position? {
        var _, fill, _ := ReadFill(x.openFill);
        if fill.None? { return x, Raised; }
        reply := reply.(quantity := Some(Magnitude(x.Position())), side := Some(SideOf(x.Position(), along)),
                        confirmedFill := fill);
      } else if request.TakeFinalSnapshot? && reply.Snapshot? {
        reply := reply.(quantity := Some(Magnitude(x.Position())), side := Some(SideOf(x.Position(), along)));
      }
    }
  }

  class Host {
    const sha: Hash
    /** Some: the adapter is connected to a truthful exchange that serves this canary. */
    const canary: Option<Authorization>
    const start: Exchange
    var log: Log
    var records: Ledger
    var files: map<Id, Evidence>
    var exchange: Exchange
    var failing: bool
    var calls: nat

    ghost predicate Valid()
      reads this
    {
      && Lawful(sha, log)
      && records == LedgerOf(log) && files == FilesOf(log)
      && failing == Degraded(log) && calls == CallCount(log)
      && exchange == ExchangeOf(start, log) && Lived(start, log) && start.Valid() && Evolves(start, exchange)
      && (canary.Some? ==> Answered(canary.value, log) && canary.value.openSide == start.openSide)
    }

    constructor (sha: Hash, canary: Option<Authorization>, start: Exchange)
      requires start.Valid() && (canary.Some? ==> canary.value.openSide == start.openSide)
      ensures Valid() && this.sha == sha && this.canary == canary && this.start == start && log == []
    {
      this.sha, this.canary, this.start := sha, canary, start;
      log, records, files, exchange, failing, calls := [], map[], map[], start, false, 0;
    }

    /** Append one permitted event; everything durable follows the timeline. */
    ghost predicate Follows(was: Log, e: Event)
      reads this
    {
      log == was + [e]
    }

    method BeginRun(who: Identity)
      requires Valid()
      modifies this
      ensures Valid() && Follows(old(log), RunStarted(who)) && !failing
      ensures records == old(records) && files == old(files) && calls == old(calls)
    {
      hide LedgerOf, FilesOf, Lawful, Lived, Degraded, CallCount, ExchangeOf;
      Stepped(sha, log, RunStarted(who));
      ExchangeStep(start, log, RunStarted(who));
      log, failing := log + [RunStarted(who)], false;
    }

    /** `_update`: load, apply, replace the ledger file atomically. */
    method Update(who: Identity, op: Op) returns (fate: Fate)
      requires Valid() && !failing
      requires !op.Claim? ==>
                 Lookup(records, who).Ok? && PermittedWrite(sha, files, records[KeyOf(who)], op)
      modifies this
      ensures Valid() && Follows(old(log), Write(who, op, fate))
      ensures fate.Refused? <==> Apply(old(records), who, op).Err?
      ensures records == if fate.Written? || fate.LostWritten? then Apply(old(records), who, op).value else old(records)
      ensures files == old(files) && calls == old(calls)
      ensures failing == !fate.Written?
    {
      hide LedgerOf, FilesOf, Lawful, Lived, Degraded, CallCount, ExchangeOf;
      var outcome := Apply(records, who, op);
      fate := *;
      if outcome.Err? {
        fate := Refused;
      } else if fate.Refused? {
        fate := LostUnwritten;
      }
      ghost var e := Write(who, op, fate);
      Stepped(sha, log, e);
      ExchangeStep(start, log, e);
      log, failing := log + [Write(who, op, fate)], !fate.Written?;
      if fate.Written? || fate.LostWritten? { records := outcome.value; }
    }

    /** One adapter call, with any answer; with a connected exchange, any truthful answer or none. */
    method Dispatch(who: Identity, request: Request) returns (reply: Reply)
      requires Valid()
      requires request.SubmitOpen? ==>
                 && log != [] && log[|log| - 1] == Write(who, Prepare(Open, request, None), Written)
                 && request.clientOrderId == who.openId && Lookup(records, who).Ok?
                 && OpenPendings(records[KeyOf(who)].history) == 1
      modifies this
      ensures Valid() && Follows(old(log), Call(who, request, reply, exchange))
      ensures records == old(records) && files == old(files) && failing == old(failing)
      ensures calls == old(calls) + 1
      ensures canary.Some? ==> TruthfulReply(canary.value, request, reply, exchange)
    {
      hide LedgerOf, FilesOf, Lawful, Lived, Degraded, CallCount, ExchangeOf;
      var x := exchange;
      if canary.Some? {
        x, reply := AnswerTruthfully(canary.value, x, request);
      } else {
        reply := *;
      }
      ghost var e := Call(who, request, reply, x);
      Stepped(sha, log, e);
      ExchangeStep(start, log, e);
      log, exchange, calls := log + [Call(who, request, reply, x)], x, calls + 1;
    }

    /** Exclusive creation of an evidence file; a failure may still have left the file. */
    method Publish(path: Id, content: Evidence) returns (ok: bool)
      requires Valid() && path !in files
      modifies this
      ensures Valid() && records == old(records) && calls == old(calls) && failing == old(failing)
      ensures ok ==> Follows(old(log), Published(path, content)) && files == old(files)[path := content]
      ensures !ok ==> || (Follows(old(log), PublishFailed(path)) && files == old(files))
                      || (&& Follows(old(log) + [Published(path, content)], PublishFailed(path))
                          && files == old(files)[path := content])
    {
      hide LedgerOf, FilesOf, Lawful, Lived, Degraded, CallCount, ExchangeOf;
      ok := *;
      var reached: bool := *;
      if ok || reached {
        ghost var e := Published(path, content);
        Stepped(sha, log, e);
        ExchangeStep(start, log, e);
        log, files := log + [Published(path, content)], files[path := content];
      }
      if !ok {
        ghost var e := PublishFailed(path);
        Stepped(sha, log, e);
        ExchangeStep(start, log, e);
        log := log + [PublishFailed(path)];
      }
    }

    /** The clock: whether the run's time budget still allows the next step. */
    method TimeLeft(who: Identity) returns (left: bool)
      requires Valid()
      modifies this
      ensures Valid() && records == old(records) && files == old(files) && calls == old(calls) &&
              failing == old(failing)
      ensures log == if left then old(log) else old(log) + [TimeOver(who)]
    {
      hide LedgerOf, FilesOf, Lawful, Lived, Degraded, CallCount, ExchangeOf;
      left := *;
      if left { return; }
      ghost var e := TimeOver(who);
      Stepped(sha, log, e);
      ExchangeStep(start, log, e);
      log := log + [TimeOver(who)];
    }

    /** The health checks before an action. */
    method Healthy(who: Identity) returns (ok: bool)
      requires Valid()
      modifies this
      ensures Valid() && records == old(records) && files == old(files) && calls == old(calls) &&
              failing == old(failing)
      ensures log == old(log) + [HealthRead(who, ok)]
    {
      hide LedgerOf, FilesOf, Lawful, Lived, Degraded, CallCount, ExchangeOf;
      ok := *;
      ghost var e := HealthRead(who, ok);
      Stepped(sha, log, e);
      ExchangeStep(start, log, e);
      log := log + [HealthRead(who, ok)];
    }

    /** What the exchange side of a valid host amounts to. */
    lemma ExchangeSide()
      requires Valid()
      ensures Lawful(sha, log) && start.Valid() && Lived(start, log) && (canary.Some? ==> Answered(canary.value, log))
    {
    }

    /** A record on disk keeps what every lawful timeline keeps. */
    lemma Recorded(key: Key)
      requires Valid() && key in records
      ensures Backed(sha, files, records[key])
    {
      LawfulIsSound(sha, log);
    }

    /** The process dies: only what the first k events made durable remains. */
    method Crash(k: nat)
      requires Valid() && k <= |log|
      modifies this
      ensures Valid() && log == old(log)[..k]
    {
      LawfulPrefix(sha, log, k);
      ExchangeEvolves(start, log, k);
      log := log[..k];
      records, files, failing, calls := LedgerOf(log), FilesOf(log), Degraded(log), CallCount(log);
      exchange := ExchangeOf(start, log);
    }
  }
}
