/**
 The Redis dead-instance janitor: whitelist the instances with fresh leases, scan for keys of other instances,
 then delete each key in one atomic script while lease writers keep running.
 */
module Janitor {
  import opened Basics

  const PREFIX := "trader-TRADER-ACCOUNT-"
  const REGISTRY_KEY := "trader-bot:redis-namespaces:active"
  const LEASES_KEY := "trader-bot:redis-namespaces:active:leases"

  // ---------- the per-instance key shape ----------

  predicate Hex(c: char) { '0' <= c <= '9' || 'a' <= c <= 'f' }

  predicate NamespaceChar(c: char) { 'A' <= c <= 'Z' || '0' <= c <= '9' || c == '-' }

  /** The UUID4 pattern, position by position. */
  predicate Uuid4(s: string) {
    |s| == 36 && s[14] == '4' && s[19] in "89ab" &&
    forall i :: 0 <= i < 36 ==> if i in {8, 13, 18, 23} then s[i] == '-' else Hex(s[i])
  }

  predicate Namespace(s: string) { s != "" && forall c :: c in s ==> NamespaceChar(c) }

  /** The character classes, written out. */
  lemma CharactersMean(c: char)
    ensures Hex(c) <==> c in "0123456789abcdef"
    ensures NamespaceChar(c) <==> c in "ABCDEFGHIJKLMNOPQRSTUVWXYZ0123456789-"
  {
  }

  /** A UUID4 is 8-4-4-4-12 hexadecimal digits with its version and variant digits. */
  lemma Uuid4Means(s: string)
    ensures Uuid4(s) <==>
            && |s| == 36 && s[8] == s[13] == s[18] == s[23] == '-' && s[14] == '4' && s[19] in "89ab"
            && (forall i :: 0 <= i < 8 ==> Hex(s[i])) && (forall i :: 9 <= i < 13 ==> Hex(s[i]))
            && (forall i :: 14 <= i < 18 ==> Hex(s[i])) && (forall i :: 19 <= i < 23 ==> Hex(s[i]))
            && (forall i :: 24 <= i < 36 ==> Hex(s[i]))
  {
  }

  /** How many namespace characters follow position i. */
  function NamespaceEnd(key: string, i: nat): (e: nat)
    requires i <= |key|
    ensures i <= e <= |key| && (forall k :: i <= k < e ==> NamespaceChar(key[k])) &&
            (e < |key| ==> !NamespaceChar(key[e]))
    decreases |key| - i
  {
    if i < |key| && NamespaceChar(key[i]) then NamespaceEnd(key, i + 1) else i
  }

  /** The instance a key belongs to, when it has the shape PREFIX namespace ":" uuid4 ":" rest. */
  function InstanceOf(key: string): (id: Option<string>)
    ensures id.Some? ==>
              && Uuid4(id.value) && "trader-TRADER-ACCOUNT-" <= key
              && exists e :: && |PREFIX| < e < |key| - 38 && Namespace(key[|PREFIX|..e]) && '\n' !in key[e + 38..]
                             && key[e] == ':' && key[e + 1..e + 37] == id.value && key[e + 37] == ':'
  {
    if !(PREFIX <= key) then None
    else
      var e := NamespaceEnd(key, |PREFIX|);
      if e == |PREFIX| || e + 38 >= |key| || key[e] != ':' || key[e + 37] != ':' then None
      else if !Uuid4(key[e + 1..e + 37]) || '\n' in key[e + 38..] then None
      else Some(key[e + 1..e + 37])
  }

  /** A key that was built for an instance is recognized as that instance's. */
  lemma InstanceKeyRecognized(namespace: string, id: string, rest: string)
    requires Namespace(namespace) && Uuid4(id)
    requires rest != "" && '\n' !in rest
    ensures InstanceOf(PREFIX + namespace + ":" + id + ":" + rest) == Some(id)
  {
    var key := PREFIX + namespace + ":" + id + ":" + rest;
    var e := |PREFIX| + |namespace|;
    assert PREFIX <= key && key[e] == ':';
    NamespaceEndsAt(key, |PREFIX|, e);
    assert key[e + 1..e + 37] == id && key[e + 37] == ':' && key[e + 38..] == rest;
  }

  lemma {:induction false} NamespaceEndsAt(key: string, i: nat, e: nat)
    requires i <= e < |key| && (forall k :: i <= k < e ==> NamespaceChar(key[k])) && !NamespaceChar(key[e])
    ensures NamespaceEnd(key, i) == e
    decreases e - i
  {
    if i < e { NamespaceEndsAt(key, i + 1, e); }
  }

  // ---------- the server ----------

  datatype Lease = Undecodable | Lease(namespace: string, refreshedAt: int, instance: string, persistence: string)

  /** The lease registry at one moment. */
  datatype Registry = Registry(leases: map<string, Lease>, scores: map<string, int>) {
    predicate FreshAt(namespace: string, after: int) {
      namespace in leases && namespace in scores && scores[namespace] >= after
    }

    /** Some lease refreshed at or after `after` names the instance. */
    ghost predicate Claims(instance: string, after: int) {
      exists ns :: FreshAt(ns, after) && leases[ns].Lease? && leases[ns].instance == instance
    }
  }

  /** One UNLINK: which key, when, and the registry at that moment. */
  datatype Unlink = Unlink(key: string, at: int, registry: Registry, existed: bool)

  /** How many of the UNLINKs removed a key. */
  function Removed(unlinks: seq<Unlink>): nat {
    if unlinks == [] then 0
    else Removed(unlinks[..|unlinks| - 1]) + if unlinks[|unlinks| - 1].existed then 1 else 0
  }

  /** Every lease that is fresh can be read. */
  ghost predicate AllReadable(registry: Registry, after: int) {
    forall ns :: ns in registry.leases && ns in registry.scores && registry.scores[ns] >= after ==>
        registry.leases[ns].Lease?
  }

  /** Some fresh lease names the instance. */
  ghost predicate NamedBy(registry: Registry, instance: string, after: int) {
    exists ns :: && ns in registry.leases && ns in registry.scores && registry.scores[ns] >= after
                 && registry.leases[ns].Lease? && registry.leases[ns].instance == instance
  }

  datatype DeleteStatus = Deleted | Protected | MetadataInvalid

  class Redis {
    var keys: set<string>
    var registry: Registry
    var time: int
    var unlinks: seq<Unlink>
    /** The deletes that the script refused because a fresh lease names the instance. */
    var refusals: seq<Unlink>
    /** How often unusable lease data was met. */
    var faults: nat

    constructor ()
      ensures unlinks == [] && refusals == [] && faults == 0
    {
      keys, registry, time, unlinks, refusals, faults := *, *, *, [], [], 0;
    }

    /** Anything other clients do between two commands; the server clock does not run backwards. */
    method Interleave()
      modifies this`keys, this`registry, this`time
      ensures time >= old(time)
    {
      keys, registry := *, *;
      var elapsed :| elapsed >= 0;
      time := time + elapsed;
    }

    /** The delete script, executed atomically. */
    method AtomicDelete(key: string, instance: string, freshAfter: int) returns (removed: nat, status: DeleteStatus)
      modifies this`keys, this`unlinks, this`refusals, this`faults
      ensures faults == old(faults) + if status == MetadataInvalid then 1 else 0
      ensures status == Deleted <==> AllReadable(registry, freshAfter) && !NamedBy(registry, instance, freshAfter)
      ensures status == Deleted ==>
                && unlinks == old(unlinks) + [Unlink(key, time, registry, key in old(keys))]
                && keys == old(keys) - {key} && removed == (if key in old(keys) then 1 else 0)
                && Removed(unlinks) == Removed(old(unlinks)) + removed && !registry.Claims(instance, freshAfter)
      ensures status != Deleted ==> removed == 0 && unlinks == old(unlinks) && keys == old(keys)
      ensures status == Protected ==> NamedBy(registry, instance, freshAfter)
      ensures status == MetadataInvalid ==> !AllReadable(registry, freshAfter)
      ensures refusals == if status == Protected then old(refusals) + [Unlink(key, time, registry, key in keys)]
              else old(refusals)
    {
      var rows := registry.leases.Keys;
      while rows != {}
        invariant rows <= registry.leases.Keys
        invariant forall ns :: ns in registry.leases && ns !in rows && registry.FreshAt(ns, freshAfter) ==>
                                 registry.leases[ns].Lease? && registry.leases[ns].instance != instance
        decreases |rows|
      {
        var ns :| ns in rows;
        if registry.FreshAt(ns, freshAfter) {
          if registry.leases[ns].Undecodable? {
            faults := faults + 1;
            return 0, MetadataInvalid;
          }
          if registry.leases[ns].instance == instance {
            refusals := refusals + [Unlink(key, time, registry, key in keys)];
            return 0, Protected;
          }
        }
        rows := rows - {ns};
      }
      removed := if key in keys then 1 else 0;
      var longer := unlinks + [Unlink(key, time, registry, key in keys)];
      assert longer[..|unlinks|] == unlinks;
      keys, unlinks, status := keys - {key}, longer, Deleted;
    }

    /** `_load_live_instance_whitelist`: one HGETALL, then a ZSCORE per lease while writers keep writing. */
    method LoadWhitelist(serverEpoch: int, freshAfter: int)
      returns (r: Option<set<string>>, scores: map<string, Option<int>>)
      modifies this`keys, this`registry, this`time, this`faults
      ensures time >= old(time) && faults == old(faults) + if r.None? then 1 else 0
      ensures r.Some? ==>
                && scores.Keys == old(registry.leases).Keys
                && Screened(old(registry.leases), scores, r.value, freshAfter, serverEpoch)
      ensures r.None? ==>
                exists ns :: ns in old(registry.leases) &&
                             (ns == "" || (&& ns in scores && ReadFresh(scores[ns], freshAfter)
                                           && !LiveLease(old(registry.leases)[ns], ns, scores[ns].value, serverEpoch)))
    {
      hide Uuid4, LiveLease, Screened;
      var leases := registry.leases;
      var rows := leases.Keys;
      var whitelist := {};
      r, scores := None, map[];
      NothingScreened(leases, freshAfter, serverEpoch);
      while rows != {}
        invariant rows <= leases.Keys && time >= old(time) && r.None? && faults == old(faults) &&
                  scores.Keys == leases.Keys - rows
        invariant Screened(leases, scores, whitelist, freshAfter, serverEpoch)
        decreases |rows|
      {
        var ns :| ns in rows;
        if ns == "" {
          faults := faults + 1;
          return;
        }
        Interleave();
        var score := if ns in registry.scores then Some(registry.scores[ns]) else None;
        var live := score.Some? && score.value >= freshAfter;
        if live && !AcceptLease(leases[ns], ns, score.value, serverEpoch) {
          scores, faults := scores[ns := score], faults + 1;
          return;
        }
        ScreenOne(leases, scores, whitelist, freshAfter, serverEpoch, ns, score);
        rows, scores := rows - {ns}, scores[ns := score];
        if live { whitelist := whitelist + {leases[ns].instance}; }
      }
      r := Some(whitelist);
    }
  }

  /** The whitelist is exactly the instances of the leases that were read as fresh, and each of those is live. */
  ghost predicate Screened(leases: map<string, Lease>, scores: map<string, Option<int>>, whitelist: set<string>,
                           freshAfter: int, serverEpoch: int) {
    && (forall ns :: ns in scores && ReadFresh(scores[ns], freshAfter) ==>
                       && ns in leases && LiveLease(leases[ns], ns, scores[ns].value, serverEpoch)
                       && leases[ns].instance in whitelist)
    && (forall id :: id in whitelist ==>
                       exists ns :: && ns in scores && ReadFresh(scores[ns], freshAfter) && ns in leases
                                    && leases[ns].Lease? && leases[ns].instance == id)
  }

  lemma NothingScreened(leases: map<string, Lease>, freshAfter: int, serverEpoch: int)
    ensures Screened(leases, map[], {}, freshAfter, serverEpoch)
  {
  }

  lemma ScreenOne(leases: map<string, Lease>, scores: map<string, Option<int>>, whitelist: set<string>,
                  freshAfter: int, serverEpoch: int, ns: string, score: Option<int>)
    requires Screened(leases, scores, whitelist, freshAfter, serverEpoch) && ns in leases && ns !in scores
    requires ReadFresh(score, freshAfter) ==> LiveLease(leases[ns], ns, score.value, serverEpoch)
    ensures ReadFresh(score, freshAfter) ==> leases[ns].Lease?
    ensures Screened(leases, scores[ns := score],
                     if ReadFresh(score, freshAfter) then whitelist + {leases[ns].instance} else whitelist,
                     freshAfter, serverEpoch)
  {
    hide Uuid4;
    var longer := scores[ns := score];
    assert ns in longer && forall n :: n in scores ==> n in longer && longer[n] == scores[n];
  }

  /** The checks of a lease that counts as live, in order. */
  predicate AcceptLease(lease: Lease, ns: string, score: int, serverEpoch: int)
    ensures AcceptLease(lease, ns, score, serverEpoch) <==> LiveLease(lease, ns, score, serverEpoch)
  {
    if score > serverEpoch then false
    else if lease.Undecodable? || lease.namespace != ns || lease.refreshedAt <= 0 ||
        lease.refreshedAt != score then false
    else Uuid4(lease.instance) && lease.persistence == ns + ":" + lease.instance
  }

  /**
   A lease of this namespace, refreshed when its score says, not in the future, for one instance under its own prefix.
   */
  predicate LiveLease(lease: Lease, ns: string, score: int, serverEpoch: int) {
    && lease.Lease? && lease.namespace == ns && 0 < lease.refreshedAt == score <= serverEpoch
    && Uuid4(lease.instance) && lease.persistence == ns + ":" + lease.instance
  }

  /** The score a lease was read with makes it live. */
  predicate ReadFresh(score: Option<int>, freshAfter: int) { score.Some? && score.value >= freshAfter }

  /** `_scan_dead_instance_keys` over whatever SCAN returned; each candidate once. */
  method DeadInstanceKeys(scanned: seq<string>, whitelist: set<string>) returns (candidates: seq<string>)
    ensures forall key :: key in candidates <==>
                            && key in scanned && key != REGISTRY_KEY && key != LEASES_KEY
                            && InstanceOf(key).Some? && InstanceOf(key).value !in whitelist
    ensures forall i, j :: 0 <= i < j < |candidates| ==> candidates[i] != candidates[j]
  {
    candidates := [];
    for i := 0 to |scanned|
      invariant forall key :: key in candidates <==>
                                && key in scanned[..i] && key != REGISTRY_KEY && key != LEASES_KEY
                                && InstanceOf(key).Some? && InstanceOf(key).value !in whitelist
      invariant forall i, j :: 0 <= i < j < |candidates| ==> candidates[i] != candidates[j]
    {
      var key := scanned[i];
      assert scanned[..i + 1] == scanned[..i] + [key];
      if key == REGISTRY_KEY || key == LEASES_KEY { continue; }
      var id := InstanceOf(key);
      if id.None? || id.value in whitelist || key in candidates { continue; }
      candidates := candidates + [key];
    }
    assert scanned[..|scanned|] == scanned;
  }

  datatype Report = Report(ok: bool, whitelist: set<string>, candidates: seq<string>, skipped: seq<string>,
                           deletedCount: nat)

  /**
   The delete was right: the key has an instance, nobody alive at that moment claimed it, and it was not whitelisted.
   */
  ghost predicate JustUnlink(u: Unlink, whitelist: set<string>, maxAge: nat) {
    && InstanceOf(u.key).Some? && InstanceOf(u.key).value !in whitelist
    && (forall ns :: (ns in u.registry.leases && ns in u.registry.scores && u.registry.leases[ns].Lease?) ==>
                       u.registry.leases[ns].instance != InstanceOf(u.key).value ||
                           u.registry.scores[ns] < u.at - maxAge)
  }

  /** The refusal was right: a lease that was fresh when the run began or later names the key's instance. */
  ghost predicate JustRefusal(u: Unlink, began: int, maxAge: nat) {
    InstanceOf(u.key).Some? && NamedBy(u.registry, InstanceOf(u.key).value, began - maxAge)
  }

  ghost predicate AllJust(unlinks: seq<Unlink>, was: seq<Unlink>, whitelist: set<string>, maxAge: nat,
                          candidates: seq<string>) {
    && was <= unlinks
    && forall i :: |was| <= i < |unlinks| ==> JustUnlink(unlinks[i], whitelist, maxAge) && unlinks[i].key in candidates
  }

  /** The skipped keys are exactly the refused ones, in order, and each refusal was right. */
  ghost predicate AllRefused(refusals: seq<Unlink>, was: seq<Unlink>, skipped: seq<string>, began: int, maxAge: nat) {
    && was <= refusals && |skipped| == |refusals| - |was|
    && forall i :: |was| <= i < |refusals| ==>
                     refusals[i].key == skipped[i - |was|] && JustRefusal(refusals[i], began, maxAge)
  }

  lemma NothingDone(unlinks: seq<Unlink>, refusals: seq<Unlink>, maxAge: nat)
    ensures forall whitelist, candidates :: AllJust(unlinks, unlinks, whitelist, maxAge, candidates)
    ensures forall began :: AllRefused(refusals, refusals, [], began, maxAge)
  {
  }

  lemma UnlinkOne(before: seq<Unlink>, after: seq<Unlink>, was: seq<Unlink>, whitelist: set<string>, maxAge: nat,
                  candidates: seq<string>, freshAfter: int)
    requires AllJust(before, was, whitelist, maxAge, candidates) && before < after && |after| == |before| + 1
    requires var u := after[|before|];
             && u.key in candidates && InstanceOf(u.key).Some? && InstanceOf(u.key).value !in whitelist
             && !NamedBy(u.registry, InstanceOf(u.key).value, freshAfter) && freshAfter <= u.at - maxAge
    ensures AllJust(after, was, whitelist, maxAge, candidates)
  {
    hide InstanceOf;
    assert JustUnlink(after[|before|], whitelist, maxAge);
  }

  lemma RefuseOne(before: seq<Unlink>, after: seq<Unlink>, was: seq<Unlink>, skipped: seq<string>, key: string,
                  began: int,
                  maxAge: nat)
    requires AllRefused(before, was, skipped, began, maxAge) && before < after && |after| == |before| + 1
    requires var u := after[|before|];
             u.key == key && InstanceOf(key).Some? && NamedBy(u.registry, InstanceOf(key).value, began - maxAge)
    ensures AllRefused(after, was, skipped + [key], began, maxAge)
  {
    hide InstanceOf, NamedBy;
    var all := skipped + [key];
    assert JustRefusal(after[|before|], began, maxAge) && |was| + |skipped| == |before|;
    assert was <= after && |all| == |after| - |was|;
    forall i | |was| <= i < |after| ensures after[i].key == all[i - |was|] && JustRefusal(after[i], began, maxAge) {
      if i < |before| { assert after[i] == before[i] && all[i - |was|] == skipped[i - |was|]; }
    }
  }

  /**
   `run_janitor` after its backup.  The freshness bound is fixed before the scan, so it is never later than the
   age limit at the moment of any delete.
   */
  method RunJanitor(redis: Redis, maxAge: nat, dryRun: bool) returns (r: Report, ghost began: int)
    modifies redis
    ensures began >= old(redis.time)
    ensures AllJust(redis.unlinks, old(redis.unlinks), r.whitelist, maxAge, r.candidates)
    ensures AllRefused(redis.refusals, old(redis.refusals), r.skipped, began, maxAge)
    ensures dryRun ==> redis.unlinks == old(redis.unlinks) && r.deletedCount == 0
    ensures r.ok <==> redis.faults == old(redis.faults)
    ensures Removed(redis.unlinks) == Removed(old(redis.unlinks)) + r.deletedCount
    ensures r.ok && !dryRun ==>
              && |r.skipped| + |redis.unlinks| - |old(redis.unlinks)| == |r.candidates|
              && forall key :: key in r.skipped ==> key in r.candidates
  {
    hide InstanceOf, Removed, JustUnlink, JustRefusal, AllJust, AllRefused, NamedBy, AllReadable, Screened;
    NothingDone(redis.unlinks, redis.refusals, maxAge);
    r, began := Report(false, {}, [], [], 0), redis.time;
    redis.Interleave();
    var serverEpoch := redis.time;
    began := serverEpoch;
    var freshAfter := serverEpoch - maxAge;
    redis.Interleave();
    var whitelist, scores := redis.LoadWhitelist(serverEpoch, freshAfter);
    if whitelist.None? { return; }
    redis.Interleave();
    var scanned: seq<string> := *;
    var candidates := DeadInstanceKeys(scanned, whitelist.value);
    r := Report(false, whitelist.value, candidates, [], 0);
    if dryRun { return r.(ok := true), began; }
    var deleted: nat, skipped := 0, [];
    for i := 0 to |candidates|
      invariant redis.time >= serverEpoch == began && redis.faults == old(redis.faults)
      invariant AllJust(redis.unlinks, old(redis.unlinks), whitelist.value, maxAge, candidates)
      invariant AllRefused(redis.refusals, old(redis.refusals), skipped, began, maxAge)
      invariant Removed(redis.unlinks) == Removed(old(redis.unlinks)) + deleted
      invariant |skipped| + |redis.unlinks| - |old(redis.unlinks)| == i
      invariant forall key :: key in skipped ==> key in candidates
    {
      redis.Interleave();
      var key := candidates[i];
      assert key in candidates;
      ghost var unlinked, refused := redis.unlinks, redis.refusals;
      var removed, status := redis.AtomicDelete(key, InstanceOf(key).value, freshAfter);
      if status == Protected {
        RefuseOne(refused, redis.refusals, old(redis.refusals), skipped, key, began, maxAge);
        skipped := skipped + [key];
        continue;
      }
      if status != Deleted {
        r := r.(skipped := skipped, deletedCount := deleted);
        return;
      }
      UnlinkOne(unlinked, redis.unlinks, old(redis.unlinks), whitelist.value, maxAge, candidates, freshAfter);
      deleted := deleted + removed;
    }
    r := Report(true, whitelist.value, candidates, skipped, deleted);
  }
}
