/** Steps of writers, builders and exclusive operations that change shared data keep the invariant. */
module ProtocolWrites {
  import opened Domain
  import opened Routing
  import opened ProtocolState
  import opened ProtocolSteps
  import opened ProtocolInvariant
  import opened ProtocolMoves

  // ------------------------------------------------------------------------- frames

  /** The data changed only at `key`: shapes and allocations stay, and `key` does not enter the previous generation. */
  ghost predicate Frame(d: Data, d': Data, key: Key) {
    && d'.hash == d.hash && |d'.active| == |d.active| > 0 && |d'.previous| == |d.previous|
    && (forall i :: 0 <= i < |d.active| && d.active[i].Some? ==> d'.active[i].Some?)
    && (forall i :: 0 <= i < |d.active| && d.active[i].None? && i != ActiveIndex(d, key) ==> d'.active[i].None?)
    && (forall j :: 0 <= j < |d.previous| ==> d'.previous[j].Some? == d.previous[j].Some?)
    && (forall k :: k != key ==> Find(d'.hash, d'.active, k) == Find(d.hash, d.active, k))
    && (forall k :: k != key ==> Find(d'.hash, d'.previous, k) == Find(d.hash, d.previous, k))
    && (Find(d'.hash, d'.previous, key) == None || Find(d'.hash, d'.previous, key) == Find(d.hash, d.previous, key))
    && (forall k :: k != key ==> Lookup(d'.published, k) == Lookup(d.published, k))
    && d'.committed == d.committed
  }

  /** Nothing a thread relies on is about `key`. */
  ghost predicate Untouched(d: Data, d': Data, pc: Thread, key: Key)
    requires |d.active| > 0 && |d'.active| == |d.active|
  {
    match pc
    case WApply(_, _, held, _) => ActiveShard(ActiveIndex(d, key)) !in held
    case WPromoted(_, _, held, _) => ActiveShard(ActiveIndex(d, key)) !in held
    case WPending(_, _, held, _, _) => ActiveShard(ActiveIndex(d, key)) !in held
    case RFallback(k, i, _) => k != key && (i.None? ==> d'.active[ActiveIndex(d, k)].None?)
    case RPrevious(k, i, _) => k != key && (i.None? ==> d'.active[ActiveIndex(d, k)].None?)
    case BCollect(_, _, _, _) => false
    case XHold => false
    case XPending(_) => false
    case BCaptured(e, items) => CaptureOk(d', e, items)
    case CDone(e, items) => CaptureOk(d', e, items)
    case _ => true
  }

  lemma CoversFramed(d: Data, d': Data, key: Key, edits: seq<Edit>, held: set<Lock>, from: nat)
    requires Frame(d, d', key) && Covers(d, edits, held, from)
    ensures Covers(d', edits, held, from)
  {
    forall l | l in held ensures ShardLock(d', l) {
      assert ShardLock(d, l);
    }
    forall n | 0 <= n < |edits|
      ensures ActiveIndex(d', edits[n].key) == ActiveIndex(d, edits[n].key)
      ensures PreviousIndex(d', edits[n].key) == PreviousIndex(d, edits[n].key)
    {
    }
  }

  lemma InForceFramed(d: Data, d': Data, key: Key, edits: seq<Edit>, held: set<Lock>, done: nat)
    requires Frame(d, d', key) && done <= |edits| && InForce(d, edits, held, done)
    requires ActiveShard(ActiveIndex(d, key)) !in held
    ensures InForce(d', edits, held, done)
  {
    forall k | ActiveShard(ActiveIndex(d', k)) in held
      ensures Lookup(d'.published, k) == After(Lookup(d'.committed, k), edits, done, k)
    {
      assert ActiveIndex(d', k) == ActiveIndex(d, k);
      assert k != key;
    }
  }

  lemma WriterFramed(d: Data, d': Data, key: Key, pc: Thread)
    requires |d.active| > 0 && Frame(d, d', key) && ThreadOk(d, pc) && Untouched(d, d', pc, key)
    requires pc.WLock? || pc.WApply? || pc.WPromoted? || pc.WPending? || pc.WRelease?
    ensures ThreadOk(d', pc)
  {
    hide Covers, InForce;
    match pc
    case WLock(edits, _, plan, _) => CoversFramed(d, d', key, edits, LockSet(plan), 0);
    case WApply(edits, _, held, done) =>
      CoversFramed(d, d', key, edits, held, done);
      InForceFramed(d, d', key, edits, held, done);
    case WPromoted(edits, _, held, done) =>
      CoversFramed(d, d', key, edits, held, done + 1);
      InForceFramed(d, d', key, edits, held, done);
    case WPending(edits, _, held, done, upto) =>
      CoversFramed(d, d', key, edits, held, upto);
      InForceFramed(d, d', key, edits, held, done);
      forall n | done <= n < upto ensures edits[n].key != key {
        CoversKey(d, edits, held, upto, n);
      }
    case WRelease(held) =>
      forall l | l in held ensures ShardLock(d', l) {
        assert ShardLock(d, l);
      }
  }

  lemma CoversKey(d: Data, edits: seq<Edit>, held: set<Lock>, from: nat, n: nat)
    requires |d.active| > 0 && Covers(d, edits, held, from) && n < |edits|
    ensures ActiveShard(ActiveIndex(d, edits[n].key)) in held && d.active[ActiveIndex(d, edits[n].key)].Some?
  {
    assert ShardLock(d, ActiveShard(ActiveIndex(d, edits[n].key)));
  }

  lemma OtherFramed(d: Data, d': Data, key: Key, pc: Thread)
    requires |d.active| > 0 && Frame(d, d', key) && ThreadOk(d, pc) && Untouched(d, d', pc, key)
    ensures ThreadOk(d', pc)
  {
    hide Covers, InForce;
    if pc.WLock? || pc.WApply? || pc.WPromoted? || pc.WPending? || pc.WRelease? {
      WriterFramed(d, d', key, pc);
    }
  }

  // -------------------------------------------------------------- effects on the directories

  lemma AllocateFrame(d: Data, key: Key)
    requires Placed(d) && d.active[ActiveIndex(d, key)].None?
    ensures var d' := AllocateAt(d, ActiveIndex(d, key));
            Placed(d') && Frame(d, d', key) && forall k :: Find(d'.hash, d'.active, k) == Find(d.hash, d.active, k)
  {
    var i := ActiveIndex(d, key);
    forall k ensures Find(d.hash, d.active[i := Some(map[])], k) == Find(d.hash, d.active, k) {
    }
  }

  lemma PromoteFrame(d: Data, key: Key)
    requires Placed(d) && d.active[ActiveIndex(d, key)].Some?
    ensures var d' := PromoteIn(d, key);
            && Placed(d') && Frame(d, d', key) && Find(d'.hash, d'.previous, key) == None
            && forall k :: Live(d', k) == Live(d, k)
  {
    var d' := PromoteIn(d, key);
    var i, j := ActiveIndex(d, key), PreviousIndex(d, key);
    if j.Some? && key in TableOf(d.previous[j.value]) {
      assert Find(d.hash, d.previous, key).Some?;
      assert Find(d.hash, d.active, key) == None;
      forall k
        ensures Find(d.hash, d'.active, k) == if k == key then Find(d.hash, d.previous, key)
                else Find(d.hash, d.active, k)
        ensures Find(d.hash, d'.previous, k) == if k == key then None else Find(d.hash, d.previous, k)
      {
      }
    }
  }

  lemma BindFrame(d: Data, key: Key, v: Option<Value>)
    requires Placed(d) && d.active[ActiveIndex(d, key)].Some? && Find(d.hash, d.previous, key) == None
    ensures var d' := BindIn(d, key, v);
            && Placed(d') && Frame(d, d', key) && Find(d'.hash, d'.active, key) == v
            && forall k :: k != key ==> Live(d', k) == Live(d, k)
  {
    var d' := BindIn(d, key, v);
    var i := ActiveIndex(d, key);
    var t := Bind(TableOf(d.active[i]), key, v);
    assert Routed(d.hash, d'.active) by {
      forall x | x in t ensures IndexOf(d.hash, x, |d.active|) == i {
        assert x == key || Lookup(t, x) == Lookup(TableOf(d.active[i]), x);
      }
    }
    forall k
      ensures Find(d.hash, d'.active, k) == if k == key then v else Find(d.hash, d.active, k)
    {
      FindSwapped(d.hash, d.active, i, t, k);
    }
  }

  // ----------------------------------------------------------------------- other threads

  /** While a writer holds the key's active shard, no other thread relies on the key. */
  lemma WriterAlone(s: State, t: nat, u: nat, d': Data, key: Key)
    requires Inv(s) && t < |s.threads| && u < |s.threads| && t != u && Frame(s.d, d', key)
    requires Holds(s.threads[t], Route) == Shared &&
             Holds(s.threads[t], ActiveShard(ActiveIndex(s.d, key))) == Exclusive
    requires s.d.active[ActiveIndex(s.d, key)].Some?
    requires var pc := s.threads[u]; pc.BCaptured? || pc.CDone? ==> CaptureOk(d', pc.epoch, pc.items)
    ensures Untouched(s.d, d', s.threads[u], key)
  {
    hide PublishedOk, CommittedOk, CacheOk, Placed, Covers, InForce;
    var i := ActiveIndex(s.d, key);
    Alone(s, t, u, ActiveShard(i));
    Alone(s, t, u, Route);
    var pc := s.threads[u];
    assert ThreadOk(s.d, pc);
    if (pc.RFallback? || pc.RPrevious?) && pc.i.None? {
      assert s.d.active[ActiveIndex(s.d, pc.key)].None?;
    }
  }

  /** Every other thread's facts survive a writer's change of `key`. */
  lemma OthersOk(s: State, t: nat, d': Data, key: Key)
    requires Inv(s) && t < |s.threads| && Frame(s.d, d', key)
    requires Holds(s.threads[t], Route) == Shared &&
             Holds(s.threads[t], ActiveShard(ActiveIndex(s.d, key))) == Exclusive
    requires s.d.active[ActiveIndex(s.d, key)].Some?
    requires forall e, items :: CaptureOk(s.d, e, items) ==> CaptureOk(d', e, items)
    ensures forall u :: 0 <= u < |s.threads| && u != t ==> ThreadOk(d', s.threads[u])
  {
    hide PublishedOk, CommittedOk, CacheOk, Placed, Excluded;
    forall u | 0 <= u < |s.threads| && u != t ensures ThreadOk(d', s.threads[u]) {
      assert ThreadOk(s.d, s.threads[u]);
      WriterAlone(s, t, u, d', key);
      OtherFramed(s.d, d', key, s.threads[u]);
    }
  }

  /** A key of a shard this writer holds has no pending change elsewhere. */
  lemma QuietElsewhere(s: State, t: nat, k: Key)
    requires Inv(s) && t < |s.threads| && !PendingIn(s.threads[t], k)
    requires Holds(s.threads[t], Route) == Shared && Holds(s.threads[t], ActiveShard(ActiveIndex(s.d, k))) == Exclusive
    ensures Quiet(s, k)
  {
    forall u | 0 <= u < |s.threads| ensures !PendingIn(s.threads[u], k) {
      if u != t && PendingIn(s.threads[u], k) {
        PendingLocked(s, u, k);
        ShardMine(s, t, ActiveIndex(s.d, k), u);
        assert false;
      }
    }
  }

  // ------------------------------------------------------------------------------- steps

  lemma AllocateKeeps(s: State, s': State, t: nat)
    requires Inv(s) && t < |s.threads| == |s'.threads| && Allocate(s, s', t)
    ensures Inv(s')
  {
    hide Placed, Covers, InForce, Listed;
    var pc := s.threads[t];
    var n :| 0 <= n < |pc.edits| && s.d.active[ActiveIndex(s.d, pc.edits[n].key)].None?
             && s' == Go(s, t, AllocateAt(s.d, ActiveIndex(s.d, pc.edits[n].key)), pc);
    var key := pc.edits[n].key;
    AllocateFrame(s.d, key);
    assert s'.threads == s.threads;
    forall u | 0 <= u < |s.threads| ensures ThreadOk(s'.d, s'.threads[u]) {
      assert ThreadOk(s.d, s.threads[u]);
      if u != t {
        AllocatorAlone(s, t, u, s'.d, key);
        OtherFramed(s.d, s'.d, key, s.threads[u]);
      }
    }
    forall k | Quiet(s', k) ensures Lookup(s'.d.published, k) == Live(s'.d, k) {
      assert Quiet(s, k);
    }
    forall k | Settled(s', ActiveIndex(s'.d, k)) ensures Lookup(s'.d.committed, k) == Lookup(s'.d.published, k) {
      assert Settled(s, ActiveIndex(s.d, k));
    }
  }

  lemma AllocatorAlone(s: State, t: nat, u: nat, d': Data, key: Key)
    requires Inv(s) && t < |s.threads| && u < |s.threads| && t != u && Frame(s.d, d', key)
    requires s.threads[t].WResolve? && Available(s, t, Directory, Exclusive) && s.d.active[ActiveIndex(s.d, key)].None?
    requires d'.epoch == s.d.epoch && d'.published == s.d.published
    ensures Untouched(s.d, d', s.threads[u], key)
  {
    hide Placed, Listed, PublishedOk, CommittedOk, CacheOk, InForce;
    var pc := s.threads[u];
    assert ThreadOk(s.d, pc);
    assert Compatible(Holds(pc, Directory), Exclusive);
    Alone(s, t, u, Route);
    if pc.WApply? || pc.WPromoted? || pc.WPending? {
      HeldAllocated(s.d, pc, ActiveIndex(s.d, key));
    }
  }

  lemma HeldAllocated(d: Data, pc: Thread, i: nat)
    requires |d.active| > 0 && ThreadOk(d, pc) && (pc.WApply? || pc.WPromoted? || pc.WPending?)
    ensures ActiveShard(i) in pc.held ==> i < |d.active| && d.active[i].Some?
  {
    assert ActiveShard(i) in pc.held ==> ShardLock(d, ActiveShard(i));
  }

  /** An edit of the writer, with what holding its shard gives. */
  lemma EditHeld(s: State, t: nat, n: nat)
    requires Inv(s) && t < |s.threads| && (s.threads[t].WApply? || s.threads[t].WPromoted? || s.threads[t].WPending?)
    requires n < |s.threads[t].edits|
    ensures var i := ActiveIndex(s.d, s.threads[t].edits[n].key);
            && s.d.active[i].Some? && ActiveShard(i) in s.threads[t].held
            && Holds(s.threads[t], Route) == Shared && Holds(s.threads[t], ActiveShard(i)) == Exclusive
  {
    var pc := s.threads[t];
    assert ThreadOk(s.d, pc);
    CoversKey(s.d, pc.edits, pc.held, Ahead(pc), n);
  }

  lemma ThreadHasOk(s: State, t: nat)
    requires Inv(s) && t < |s.threads|
    ensures ThreadOk(s.d, s.threads[t])
  {
  }

  /** Threads keep their facts when the writer's new position is right for the new data. */
  lemma WriteThreads(s: State, s': State, t: nat, key: Key)
    requires Inv(s) && Alters(s, s', t) && Frame(s.d, s'.d, key)
    requires Holds(s.threads[t], Route) == Shared &&
             Holds(s.threads[t], ActiveShard(ActiveIndex(s.d, key))) == Exclusive
    requires s.d.active[ActiveIndex(s.d, key)].Some?
    requires forall e, items :: CaptureOk(s.d, e, items) ==> CaptureOk(s'.d, e, items)
    requires ThreadOk(s'.d, s'.threads[t])
    ensures ThreadsOk(s')
  {
    hide Inv, ThreadOk, Holds;
    OthersOk(s, t, s'.d, key);
  }

  lemma PromoteKeeps(s: State, s': State, t: nat)
    requires Inv(s) && t < |s.threads| == |s'.threads| && Promote(s, s', t)
    ensures Inv(s')
  {
    hide Placed, Frame, CacheOk, ThreadOk, ThreadsOk, PublishedOk, CommittedOk, Excluded;
    var pc := s.threads[t];
    var key := pc.edits[pc.done].key;
    ThreadHasOk(s, t);
    EditHeld(s, t, pc.done);
    PromoteFrame(s.d, key);
    PromotedData(s.d, key);
    PromotedOk(s.d, s'.d, pc);
    WriteThreads(s, s', t, key);
    KeepExcluded(s, s', t);
    PromoteViews(s, s', t);
    assert CacheOk(s'.d) by { CacheFramed(s.d, s'.d); }
  }

  lemma CacheFramed(d: Data, d': Data)
    requires CacheOk(d) && d'.cache == d.cache && forall e, items :: CaptureOk(d, e, items) ==> CaptureOk(d', e, items)
    ensures CacheOk(d')
  {
  }

  lemma PromoteViews(s: State, s': State, t: nat)
    requires Inv(s) && t < |s.threads| == |s'.threads| && Promote(s, s', t)
    requires forall k :: Live(s'.d, k) == Live(s.d, k)
    ensures |s'.d.active| > 0 && PublishedOk(s') && CommittedOk(s')
  {
    hide Placed, ThreadsOk, Excluded;
    PromotedData(s.d, s.threads[t].edits[s.threads[t].done].key);
    forall k | Quiet(s', k) ensures Lookup(s'.d.published, k) == Live(s'.d, k) {
      QuietBack(s, s', t, k);
    }
    forall k | Settled(s', ActiveIndex(s'.d, k)) ensures Lookup(s'.d.committed, k) == Lookup(s'.d.published, k) {
      assert !DirtyIn(s'.threads[t], ActiveIndex(s.d, k));
      SettledBack(s, s', t, ActiveIndex(s.d, k));
    }
  }

  lemma PromotedData(d: Data, key: Key)
    requires |d.active| > 0
    ensures var d' := PromoteIn(d, key);
            && d'.hash == d.hash && |d'.active| == |d.active| && d'.epoch == d.epoch && d'.cache == d.cache
            && d'.published == d.published && d'.committed == d.committed
  {
  }

  lemma PromotedOk(d: Data, d': Data, pc: Thread)
    requires |d.active| > 0 && pc.WApply? && pc.done < |pc.edits| && ThreadOk(d, pc)
    requires Frame(d, d', pc.edits[pc.done].key) && d'.published == d.published
    requires Find(d'.hash, d'.previous, pc.edits[pc.done].key) == None
    ensures ThreadOk(d', WPromoted(pc.edits, pc.single, if pc.single then ActivePart(pc.held) else pc.held, pc.done))
  {
    var held := if pc.single then ActivePart(pc.held) else pc.held;
    assert Covers(d, pc.edits, held, pc.done + 1);
    CoversFramed(d, d', pc.edits[pc.done].key, pc.edits, held, pc.done + 1);
    assert InForce(d', pc.edits, held, pc.done);
  }

  /** The edit a guard makes next. */
  function NextEdit(pc: Thread): nat
    requires pc.WPromoted? || pc.WPending?
  {
    if pc.WPromoted? then pc.done else pc.upto
  }

  /** Edits of other keys leave a binding alone. */
  lemma {:induction false} AfterSame(v: Option<Value>, edits: seq<Edit>, a: nat, b: nat, k: Key)
    requires a <= b <= |edits| && forall i :: a <= i < b ==> edits[i].key != k
    ensures After(v, edits, b, k) == After(v, edits, a, k)
    decreases b
  {
    if a < b {
      AfterSame(v, edits, a, b - 1, k);
    }
  }

  lemma NotPending(pc: Thread, k: Key, n: nat)
    requires pc.WPending? && k !in PendingKeys(pc) && pc.done <= n < pc.upto && n < |pc.edits|
    ensures pc.edits[n].key != k
  {
    assert pc.edits[n].key in PendingKeys(pc);
  }

  /**
   * Before a guard makes its next change, the active generation shows what the edits so far make of the
   * committed map.
   */
  lemma NextShows(s: State, t: nat)
    requires Inv(s) && t < |s.threads| && (s.threads[t].WPromoted? || (s.threads[t].WPending? && s.d.previous == []))
    requires NextEdit(s.threads[t]) < |s.threads[t].edits|
    ensures var pc := s.threads[t]; var n := NextEdit(pc); var k := pc.edits[n].key;
            && Find(s.d.hash, s.d.previous, k) == None
            && Find(s.d.hash, s.d.active, k) == After(Lookup(s.d.committed, k), pc.edits, n, k)
  {
    hide Placed, CacheOk, CommittedOk, Excluded, Covers;
    var pc := s.threads[t];
    var n := NextEdit(pc);
    var k := pc.edits[n].key;
    ThreadHasOk(s, t);
    EditHeld(s, t, n);
    if !PendingIn(pc, k) {
      QuietElsewhere(s, t, k);
      assert Lookup(s.d.published, k) == Live(s.d, k) == Find(s.d.hash, s.d.active, k);
      forall i | pc.done <= i < n ensures pc.edits[i].key != k {
        NotPending(pc, k, i);
      }
      AfterSame(Lookup(s.d.committed, k), pc.edits, pc.done, n, k);
    } else {
      var i :| pc.done <= i < pc.upto && i < |pc.edits| && pc.edits[i].key == k;
      assert Made(s.d, pc.edits, pc.done, pc.upto);
    }
  }

  lemma MutateKeeps(s: State, s': State, t: nat)
    requires Inv(s) && t < |s.threads| == |s'.threads| && Mutate(s, s', t)
    ensures Inv(s')
  {
    hide Placed, Frame, CacheOk, ThreadOk, ThreadsOk, PublishedOk, CommittedOk, Excluded;
    var pc := s.threads[t];
    var n := NextEdit(pc);
    var e := pc.edits[n];
    ThreadHasOk(s, t);
    EditHeld(s, t, n);
    NextShows(s, t);
    BindFrame(s.d, e.key, e.f(Find(s.d.hash, s.d.active, e.key)));
    assert pc.done <= n by { GuardOrder(s.d, pc); }
    MutatedOk(s.d, s'.d, pc);
    WriteThreads(s, s', t, e.key);
    KeepExcluded(s, s', t);
    MutateViews(s, s', t);
    assert CacheOk(s'.d) by { CacheFramed(s.d, s'.d); }
  }

  lemma GuardOrder(d: Data, pc: Thread)
    requires |d.active| > 0 && ThreadOk(d, pc) && (pc.WPromoted? || pc.WPending?)
    ensures pc.done <= NextEdit(pc)
  {
  }

  lemma MutateViews(s: State, s': State, t: nat)
    requires Inv(s) && t < |s.threads| == |s'.threads| && Mutate(s, s', t)
    requires s.threads[t].done <= NextEdit(s.threads[t])
    requires forall k :: k != s.threads[t].edits[NextEdit(s.threads[t])].key ==> Live(s'.d, k) == Live(s.d, k)
    ensures |s'.d.active| > 0 && PublishedOk(s') && CommittedOk(s')
  {
    hide Placed, ThreadsOk, Excluded, Live, Find;
    var pc, n, next := s.threads[t], NextEdit(s.threads[t]), s'.threads[t];
    assert forall k :: PendingIn(pc, k) ==> PendingIn(next, k);
    forall k | Quiet(s', k) ensures Lookup(s'.d.published, k) == Live(s'.d, k) {
      assert !PendingIn(s'.threads[t], k);
      assert k != pc.edits[n].key by {
        assert pc.edits[n].key in PendingKeys(s'.threads[t]);
      }
      QuietBack(s, s', t, k);
    }
    forall k | Settled(s', ActiveIndex(s'.d, k)) ensures Lookup(s'.d.committed, k) == Lookup(s'.d.published, k) {
      assert !DirtyIn(s'.threads[t], ActiveIndex(s.d, k));
      SettledBack(s, s', t, ActiveIndex(s.d, k));
    }
  }

  lemma MutatedOk(d: Data, d': Data, pc: Thread)
    requires |d.active| > 0 && (pc.WPromoted? || pc.WPending?) && NextEdit(pc) < |pc.edits| && ThreadOk(d, pc)
    requires Frame(d, d', pc.edits[NextEdit(pc)].key) && d'.published == d.published
    requires var n := NextEdit(pc); var e := pc.edits[n];
             && Find(d.hash, d.previous, e.key) == None
             && Find(d.hash, d.active, e.key) == After(Lookup(d.committed, e.key), pc.edits, n, e.key)
             && Find(d'.hash, d'.active, e.key) == e.f(Find(d.hash, d.active, e.key))
    ensures ThreadOk(d', WPending(pc.edits, pc.single, pc.held, pc.done, NextEdit(pc) + 1))
  {
    hide Covers, Frame, Made, InForce;
    var n := NextEdit(pc);
    CoversMore(d, pc.edits, pc.held, Ahead(pc), n + 1);
    CoversFramed(d, d', pc.edits[n].key, pc.edits, pc.held, n + 1);
    InForceSame(d, d', pc.edits[n].key, pc.edits, pc.held, pc.done);
    MadeMore(d, d', pc.edits, pc.done, n);
  }

  lemma InForceSame(d: Data, d': Data, key: Key, edits: seq<Edit>, held: set<Lock>, done: nat)
    requires Frame(d, d', key) && d'.published == d.published && done <= |edits| && InForce(d, edits, held, done)
    ensures InForce(d', edits, held, done)
  {
    forall k ensures ActiveIndex(d', k) == ActiveIndex(d, k) {
    }
  }

  lemma FramedKey(d: Data, d': Data, key: Key, k: Key)
    requires Frame(d, d', key)
    ensures d'.committed == d.committed
    ensures Find(d.hash, d.previous, k) == None ==> Find(d'.hash, d'.previous, k) == None
    ensures k != key ==> Find(d'.hash, d'.active, k) == Find(d.hash, d.active, k)
  {
  }

  lemma MadeMore(d: Data, d': Data, edits: seq<Edit>, done: nat, n: nat)
    requires done <= n < |edits| && (done < n ==> Made(d, edits, done, n)) && Frame(d, d', edits[n].key)
    requires var e := edits[n];
             && Find(d.hash, d.previous, e.key) == None
             && Find(d.hash, d.active, e.key) == After(Lookup(d.committed, e.key), edits, n, e.key)
             && Find(d'.hash, d'.active, e.key) == e.f(Find(d.hash, d.active, e.key))
    ensures Made(d', edits, done, n + 1)
  {
    hide Frame, Find;
    forall i | done <= i < n + 1
      ensures Find(d'.hash, d'.previous, edits[i].key) == None
      ensures Find(d'.hash, d'.active, edits[i].key) ==
              After(Lookup(d'.committed, edits[i].key), edits, n + 1, edits[i].key)
    {
      FramedKey(d, d', edits[n].key, edits[i].key);
      if edits[i].key != edits[n].key {
        assert Made(d, edits, done, n);
      }
    }
  }

  lemma CoversMore(d: Data, edits: seq<Edit>, held: set<Lock>, from: nat, later: nat)
    requires |d.active| > 0 && Covers(d, edits, held, from) && from <= later
    ensures Covers(d, edits, held, later)
  {
  }

  lemma CoversKept(d: Data, d': Data, edits: seq<Edit>, held: set<Lock>, from: nat)
    requires |d.active| > 0 && d'.hash == d.hash && d'.active == d.active && d'.previous == d.previous
    requires Covers(d, edits, held, from)
    ensures Covers(d', edits, held, from)
  {
    forall l | l in held ensures ShardLock(d', l) {
      assert ShardLock(d, l);
    }
    forall n | 0 <= n < |edits|
      ensures ActiveIndex(d', edits[n].key) == ActiveIndex(d, edits[n].key)
      ensures PreviousIndex(d', edits[n].key) == PreviousIndex(d, edits[n].key)
    {
    }
  }

  lemma PublishKeeps(s: State, s': State, t: nat)
    requires Inv(s) && t < |s.threads| == |s'.threads| && Publish(s, s', t)
    ensures Inv(s')
  {
    hide Placed, CacheOk, ThreadsOk, ThreadOk, CommittedOk, PublishedOk, Excluded, CaptureOk;
    PublishedCaptures(s.d, s'.d, PendingKeys(s.threads[t]));
    PublishThreads(s, s', t);
    KeepExcluded(s, s', t);
    PublishViews(s, s', t);
    assert CacheOk(s'.d) by { CacheFramed(s.d, s'.d); }
    assert Placed(s'.d) by { SameDirectories(s.d, s'.d); }
  }

  lemma SameDirectories(d: Data, d': Data)
    requires Placed(d) && d'.hash == d.hash && d'.active == d.active && d'.previous == d.previous
    ensures Placed(d')
  {
  }

  /** What the drop of a guard that changed `keys` makes of the shared data. */
  ghost predicate Dropped(d: Data, d': Data, keys: set<Key>) {
    && d' == d.(published := PublishIn(d, keys), epoch := d'.epoch)
    && (|| d'.epoch == d.epoch + 1
        || (d'.epoch == d.epoch && forall k :: k in keys ==> Find(d.hash, d.active, k) == Lookup(d.published, k)))
  }

  /** Publishing makes every earlier capture stale, unless it publishes no change. */
  lemma PublishedCaptures(d: Data, d': Data, keys: set<Key>)
    requires Dropped(d, d', keys)
    ensures forall e, items :: CaptureOk(d, e, items) ==> CaptureOk(d', e, items)
  {
    if d'.epoch == d.epoch {
      SameLookups(d'.published, d.published);
    }
  }

  /** Another thread relies on nothing that a guard publishes. */
  lemma PublishOther(d: Data, d': Data, keys: set<Key>, held: set<Lock>, pc: Thread)
    requires |d.active| > 0 && Dropped(d, d', keys) && ThreadOk(d, pc)
    requires !pc.XHold? && !pc.XPending? && !pc.BCollect?
    requires forall k :: k in keys ==> ActiveShard(ActiveIndex(d, k)) in held
    requires forall l :: Holds(pc, l) == Exclusive ==> l !in held
    ensures ThreadOk(d', pc)
  {
    hide Covers, CaptureOk;
    PublishedCaptures(d, d', keys);
    if pc.WLock? {
      CoversKept(d, d', pc.edits, LockSet(pc.plan), 0);
    } else if pc.WApply? || pc.WPromoted? || pc.WPending? {
      CoversKept(d, d', pc.edits, pc.held, Ahead(pc));
      forall k | ActiveShard(ActiveIndex(d', k)) in pc.held
        ensures Lookup(d'.published, k) == After(Lookup(d'.committed, k), pc.edits, pc.done, k)
      {
        assert ActiveIndex(d', k) == ActiveIndex(d, k);
        assert Holds(pc, ActiveShard(ActiveIndex(d, k))) == Exclusive;
      }
    } else if pc.WRelease? {
      forall l | l in pc.held ensures ShardLock(d', l) {
        assert ShardLock(d, l);
      }
    }
  }

  lemma PublishThreads(s: State, s': State, t: nat)
    requires Inv(s) && t < |s.threads| == |s'.threads| && Publish(s, s', t)
    ensures |s'.d.active| > 0 && ThreadsOk(s')
  {
    hide Placed, PublishedOk, CommittedOk, CacheOk, Covers, InForce, ThreadOk;
    var pc := s.threads[t];
    var keys := PendingKeys(pc);
    ThreadHasOk(s, t);
    PublishedThread(s.d, s'.d, pc);
    forall k | k in keys ensures ActiveShard(ActiveIndex(s.d, k)) in pc.held {
      var n :| pc.done <= n < pc.upto && n < |pc.edits| && pc.edits[n].key == k;
      EditHeld(s, t, n);
    }
    forall u | 0 <= u < |s.threads| && u != t ensures ThreadOk(s'.d, s'.threads[u]) {
      ThreadHasOk(s, u);
      RoutePinned(s, t, u);
      Unfinished(s.d, pc);
      EditHeld(s, t, pc.done);
      NotCollecting(s, t, u, ActiveIndex(s.d, pc.edits[pc.done].key));
      forall l | Holds(s.threads[u], l) == Exclusive ensures l !in pc.held {
        Alone(s, t, u, l);
        Alone(s, t, u, Route);
      }
      PublishOther(s.d, s'.d, keys, pc.held, s.threads[u]);
    }
  }

  lemma Unfinished(d: Data, pc: Thread)
    requires |d.active| > 0 && pc.WPending? && ThreadOk(d, pc)
    ensures pc.done < |pc.edits|
  {
  }

  /** Nobody collects while a writer holds a shard. */
  lemma NotCollecting(s: State, t: nat, u: nat, i: nat)
    requires Excluded(s) && t < |s.threads| && u < |s.threads| && t != u &&
             Holds(s.threads[t], ActiveShard(i)) == Exclusive
    ensures !s.threads[u].BCollect?
  {
    Alone(s, t, u, ActiveShard(i));
  }

  lemma PublishedThread(d: Data, d': Data, pc: Thread)
    requires |d.active| > 0 && pc.WPending? && ThreadOk(d, pc) && Dropped(d, d', PendingKeys(pc))
    ensures ThreadOk(d', WApply(pc.edits, pc.single, pc.held, pc.upto))
  {
    hide Covers;
    var keys := PendingKeys(pc);
    CoversKept(d, d', pc.edits, pc.held, pc.upto);
    forall k | ActiveShard(ActiveIndex(d', k)) in pc.held
      ensures Lookup(d'.published, k) == After(Lookup(d'.committed, k), pc.edits, pc.upto, k)
    {
      assert ActiveIndex(d', k) == ActiveIndex(d, k);
      assert Lookup(d.published, k) == After(Lookup(d.committed, k), pc.edits, pc.done, k);
      if k in keys {
        var n :| pc.done <= n < pc.upto && n < |pc.edits| && pc.edits[n].key == k;
        assert Made(d, pc.edits, pc.done, pc.upto);
      } else {
        forall i | pc.done <= i < pc.upto ensures pc.edits[i].key != k {
          assert pc.edits[i].key in keys;
        }
        AfterSame(Lookup(d.committed, k), pc.edits, pc.done, pc.upto, k);
      }
    }
  }

  lemma PublishViews(s: State, s': State, t: nat)
    requires Inv(s) && t < |s.threads| == |s'.threads| && Publish(s, s', t)
    ensures |s'.d.active| > 0 && PublishedOk(s') && CommittedOk(s')
  {
    hide Placed, ThreadsOk, Excluded, CacheOk;
    var pc := s.threads[t];
    var keys := PendingKeys(pc);
    ThreadHasOk(s, t);
    forall k | Quiet(s', k) ensures Lookup(s'.d.published, k) == Live(s'.d, k) {
      if k in keys {
        var n :| pc.done <= n < pc.upto && n < |pc.edits| && pc.edits[n].key == k;
        assert Made(s.d, pc.edits, pc.done, pc.upto);
      } else {
        QuietBack(s, s', t, k);
      }
    }
    forall k | Settled(s', ActiveIndex(s'.d, k)) ensures Lookup(s'.d.committed, k) == Lookup(s'.d.published, k) {
      var i := ActiveIndex(s.d, k);
      assert !DirtyIn(s'.threads[t], i);
      assert k !in keys by {
        if k in keys {
          PendingLocked(s, t, k);
        }
      }
      SettledBack(s, s', t, i);
    }
  }
}
