/** `AuditTrail`: the in-memory hash chain that an evidence report carries. */
module Audit {
  import opened Basics

  const GENESIS: Digest := "0000000000000000000000000000000000000000000000000000000000000000"

  /** What is hashed for one event: its position, the previous hash and its content. */
  datatype AuditEvent = AuditEvent(sequence: nat, previous: Digest, content: string)

  type Hash = AuditEvent -> Digest

  function Head(hash: Hash, events: seq<AuditEvent>): Digest {
    if events == [] then GENESIS else hash(events[|events| - 1])
  }

  /** Events are numbered from 1 and each names the hash of the one before. */
  predicate Chained(hash: Hash, events: seq<AuditEvent>) {
    forall i :: 0 <= i < |events| ==> events[i].sequence == i + 1 && events[i].previous == Head(hash, events[..i])
  }

  lemma ChainedAppend(hash: Hash, events: seq<AuditEvent>, e: AuditEvent)
    requires Chained(hash, events) && e.sequence == |events| + 1 && e.previous == Head(hash, events)
    ensures Chained(hash, events + [e])
  {
    var longer := events + [e];
    forall i | 0 <= i < |longer| ensures longer[i].sequence == i + 1 && longer[i].previous == Head(hash, longer[..i]) {
      assert longer[..i] == events[..i];
      if i == |events| { assert events[..i] == events; }
    }
  }

  class AuditTrail {
    const hash: Hash
    var events: seq<AuditEvent>
    var head: Digest

    ghost predicate Valid()
      reads this
    {
      Chained(hash, events) && head == Head(hash, events)
    }

    constructor (hash: Hash)
      ensures Valid() && events == [] && this.hash == hash
    {
      this.hash, events, head := hash, [], GENESIS;
    }

    method Append(content: string) returns (digest: Digest)
      requires Valid()
      modifies this
      ensures Valid() && digest == head
      ensures events == old(events) + [AuditEvent(|old(events)| + 1, old(head), content)]
    {
      hide Chained;
      var e := AuditEvent(|events| + 1, head, content);
      ChainedAppend(hash, events, e);
      events, head := events + [e], hash(e);
      digest := head;
    }
  }

  /** A hash without collisions that never produces the genesis value. */
  ghost predicate CollisionFree(hash: Hash) {
    (forall a, b :: hash(a) == hash(b) ==> a == b) && forall a :: hash(a) != GENESIS
  }

  lemma ChainedInit(hash: Hash, events: seq<AuditEvent>)
    requires Chained(hash, events) && events != []
    ensures Chained(hash, events[..|events| - 1])
    ensures events[|events| - 1].previous == Head(hash, events[..|events| - 1])
  {
    var init := events[..|events| - 1];
    forall i | 0 <= i < |init| ensures init[i].sequence == i + 1 && init[i].previous == Head(hash, init[..i]) {
      assert init[..i] == events[..i];
    }
  }

  /** The final hash of a report determines its whole trail: no event can be changed, dropped, added or moved. */
  lemma {:induction false} HeadDeterminesTrail(hash: Hash, a: seq<AuditEvent>, b: seq<AuditEvent>)
    requires CollisionFree(hash) && Chained(hash, a) && Chained(hash, b) && Head(hash, a) == Head(hash, b)
    ensures a == b
    decreases |a|
  {
    hide Chained;
    if a != [] && b != [] {
      ChainedInit(hash, a);
      ChainedInit(hash, b);
      HeadDeterminesTrail(hash, a[..|a| - 1], b[..|b| - 1]);
      assert a == a[..|a| - 1] + [a[|a| - 1]] && b == b[..|b| - 1] + [b[|b| - 1]];
    }
  }
}
