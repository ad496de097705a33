/** The invariant of the lock protocol, and that every step keeps it. */
module ProtocolInvariant {
  import opened Domain
  import opened Routing
  import opened ProtocolState
  import opened ProtocolSteps

  /** On the shards it holds, a writer's published changes are exactly its first `done` edits of the committed map. */
  ghost predicate InForce(d: Data, edits: seq<Edit>, held: set<Lock>, done: nat)
    requires |d.active| > 0 && done <= |edits|
  {
    forall k :: ActiveShard(ActiveIndex(d, k)) in held ==>
        Lookup(d.published, k) == After(Lookup(d.committed, k), edits, done, k)
  }

  /** A fallen-back reader knows that the active generation does not have its key. */
  ghost predicate FallenBack(d: Data, k: Key, i: Option<nat>, j: nat)
    requires |d.active| > 0
  {
    && PreviousIndex(d, k) == Some(j)
    && Find(d.hash, d.active, k) == None
    && (if i.Some? then i.value == ActiveIndex(d, k) && d.active[i.value].Some? else d.active[ActiveIndex(d, k)].None?)
  }

  /** The first edit whose previous shard a writer still has to hold. */
  function Ahead(pc: Thread): nat
    requires pc.WApply? || pc.WPromoted? || pc.WPending?
  {
    if pc.WApply? then pc.done else if pc.WPromoted? then pc.done + 1 else pc.upto
  }

  /** An exclusive operation has published removals only. */
  ghost predicate Shrunk(d: Data) {
    forall k :: Lookup(d.published, k) == None || Lookup(d.published, k) == Lookup(d.committed, k)
  }

  /** The unpublished edits show in the active generation as if applied to the committed map. */
  ghost predicate Made(d: Data, edits: seq<Edit>, done: nat, upto: nat)
    requires done <= upto <= |edits|
  {
    forall n :: done <= n < upto ==>
      && Find(d.hash, d.previous, edits[n].key) == None
      && Find(d.hash, d.active, edits[n].key) == After(Lookup(d.committed, edits[n].key), edits, upto, edits[n].key)
  }

  ghost predicate ThreadOk(d: Data, pc: Thread)
    requires |d.active| > 0
  {
    match pc
    case WRoute(edits, single) => single ==> |edits| == 1
    case WResolve(edits, single) => single ==> |edits| == 1
    case WLock(edits, single, plan, got) =>
      (single ==> |edits| == 1) && got <= |plan| && Sorted(plan) && Covers(d, edits, LockSet(plan), 0)
    case WApply(edits, single, held, done) =>
      (single ==> |edits| == 1) && done <= |edits| && Covers(d, edits, held, done) && InForce(d, edits, held, done)
    case WPromoted(edits, single, held, done) =>
      (single ==> |edits| == 1) && done < |edits| && Covers(d, edits, held, done + 1) && InForce(d, edits, held, done)
      && Find(d.hash, d.previous, edits[done].key) == None
    case WPending(edits, single, held, done, upto) =>
      (single ==> |edits| == 1) && done < upto <= |edits| && Covers(d, edits, held, upto)
      && InForce(d, edits, held, done) && Made(d, edits, done, upto)
    case WRelease(held) => forall l :: l in held ==> ShardLock(d, l)
    case RWait(k, i) => i == ActiveIndex(d, k) && d.active[i].Some?
    case RActive(k, i) => i == ActiveIndex(d, k) && d.active[i].Some?
    case RFallback(k, i, j) => FallenBack(d, k, i, j)
    case RPrevious(k, i, j) => FallenBack(d, k, i, j)
    case BLock(a, b) => a <= |d.active| && b <= |d.previous| && (b > 0 ==> a == |d.active|)
    case BCollect(e, items, a, b) =>
      a <= |d.active| && b <= |d.previous| && (b > 0 ==> a == |d.active|) && e == d.epoch && Listed(d, items, a, b)
    case BCaptured(e, items) => CaptureOk(d, e, items)
    case CDone(e, items) => CaptureOk(d, e, items)
    case XHold => Shrunk(d)
    case XPending(gone) => Shrunk(d) && forall k :: k in gone ==> Live(d, k) == None
    case _ => true
  }

  ghost predicate ThreadsOk(s: State)
    requires |s.d.active| > 0
  {
    forall t :: 0 <= t < |s.threads| ==> ThreadOk(s.d, s.threads[t])
  }

  ghost predicate PublishedOk(s: State) {
    forall k :: Quiet(s, k) ==> Lookup(s.d.published, k) == Live(s.d, k)
  }

  ghost predicate CommittedOk(s: State)
    requires |s.d.active| > 0
  {
    forall k :: Settled(s, ActiveIndex(s.d, k)) ==> Lookup(s.d.committed, k) == Lookup(s.d.published, k)
  }

  ghost predicate CacheOk(d: Data) {
    d.cache.Some? ==> CaptureOk(d, d.cache.value.0, d.cache.value.1)
  }

  ghost predicate Inv(s: State) {
    |s.d.active| > 0 && Placed(s.d) && Excluded(s) && ThreadsOk(s) && PublishedOk(s) && CommittedOk(s) && CacheOk(s.d)
  }

  lemma InitInv(s: State)
    requires Init(s)
    ensures Inv(s)
  {
  }

  // ------------------------------------------------------------------ exclusion

  lemma Alone(s: State, t: nat, u: nat, l: Lock)
    requires Excluded(s) && t < |s.threads| && u < |s.threads| && t != u
    ensures Compatible(Holds(s.threads[t], l), Holds(s.threads[u], l))
  {
    if t < u {
      assert Compatible(Holds(s.threads[t], l), Holds(s.threads[u], l));
    } else {
      assert Compatible(Holds(s.threads[u], l), Holds(s.threads[t], l));
    }
  }

  /** One thread's new position needs no lock it did not hold or could take. */
  ghost predicate TakesFairly(s: State, t: nat, pc: Thread)
    requires t < |s.threads|
  {
    forall l :: Holds(pc, l) == Free || Holds(pc, l) == Holds(s.threads[t], l) || Available(s, t, l, Holds(pc, l))
  }

  ghost predicate Alters(s: State, s': State, t: nat) {
    t < |s.threads| == |s'.threads| && forall u :: 0 <= u < |s.threads| && u != t ==> s'.threads[u] == s.threads[u]
  }

  lemma KeepExcluded(s: State, s': State, t: nat)
    requires Excluded(s) && Alters(s, s', t) && TakesFairly(s, t, s'.threads[t])
    ensures Excluded(s')
  {
    forall u, v, l | 0 <= u < v < |s'.threads|
      ensures Compatible(Holds(s'.threads[u], l), Holds(s'.threads[v], l))
    {
      Alone(s, u, v, l);
      if u == t {
        assert v != t;
      }
    }
  }

  /** A writer's shard locks are allocated shards. */
  lemma HeldShards(s: State, t: nat, l: Lock)
    requires |s.d.active| > 0 && ThreadsOk(s) && t < |s.threads| && Holds(s.threads[t], l) == Exclusive
    ensures l == Gate || l == Route || ShardLock(s.d, l)
  {
    var pc := s.threads[t];
    assert ThreadOk(s.d, pc);
    if pc.WLock? {
      assert l in LockSet(pc.plan);
    }
  }
}
