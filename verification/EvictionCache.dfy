/** Whole runs of a configured cache: map operations with their metadata hooks, interrupted hooks and maintenance. */
module EvictionCache {
  import opened Domain
  import opened ShardedMap
  import opened EvictionIndex
  import opened EvictionOrder
  import opened EvictionVictims
  import opened EvictionPasses
  import opened EvictionRuns
  import opened EvictionMaintenance
  import WholeMap

  /**
   * `hooked` says whether the metadata hook ran to completion after the data change, `hooks` how many hooks of
   * a whole-map removal did.
   */
  datatype Action =
    | Put(key: Key, value: Value, hooked: bool)
    | Delete(key: Key, hooked: bool)
    | Read(key: Key)
    | RetainIf(keep: WholeMap.Filter, hooks: nat)
    | ClearAll(hooks: nat)
    | Maintain(requested: Option<nat>, policy: Policy, failures: nat -> Option<nat>, marked: nat -> bool)

  lemma AgreeInsert(logical: Table, tracked: Index, weigh: Weigher, k: Key, v: Value, e: Entry)
    requires Agree(logical, tracked, weigh) && e.weight == weigh(k, v)
    ensures Agree(logical[k := v], tracked[k := e], weigh)
  {
  }

  lemma InsertedWeight(before: Option<Entry>, key: Key, stamp: nat, weight: nat, replaced: bool)
    ensures Inserted(before, key, stamp, weight, replaced).weight == weight
  {
  }

  lemma AgreeRemove(logical: Table, tracked: Index, weigh: Weigher, k: Key)
    requires Agree(logical, tracked, weigh)
    ensures Agree(logical - {k}, tracked - {k}, weigh)
  {
  }

  lemma AgreeTouch(logical: Table, tracked: Index, weigh: Weigher, k: Key, e: Entry)
    requires Agree(logical, tracked, weigh) && k in tracked && e.weight == tracked[k].weight
    ensures Agree(logical, tracked[k := e], weigh)
  {
  }

  method PutEntry(m: StarMap, s: LifecycleState, key: Key, value: Value, hooked: bool, weigh: Weigher)
    requires m.Valid() && s.Valid() && (!s.Dirty() ==> Agree(m.logical, s.tracked, weigh))
    modifies m`active, m`previous, m`waiting, m`totalLen, m`writeEpoch, m`logical, s
    ensures m.Valid() && s.Valid() && m.logical == old(m.logical)[key := value]
    ensures !s.Dirty() ==> Agree(m.logical, s.tracked, weigh)
    ensures s.Dirty() == (old(s.Dirty()) || !hooked) && s.Pending()
    ensures s.tracked == if hooked then old(s.tracked)[key := Inserted(Lookup(old(s.tracked), key), key,
                                                                       old(s.sequence),
                                                                       weigh(key, value), key in old(m.logical))]
                         else old(s.tracked)
  {
    hide StarMap.Placed, StarMap.CacheCoherent, Striped, Stamped, Agree, Inserted;
    s.MarkPending();
    var before := m.Insert(key, value);
    if hooked {
      if !s.Dirty() {
        InsertedWeight(Lookup(s.tracked, key), key, s.sequence, weigh(key, value), before.Some?);
        AgreeInsert(old(m.logical), s.tracked, weigh, key, value,
                    Inserted(Lookup(s.tracked, key), key, s.sequence, weigh(key, value), before.Some?));
      }
      s.RecordInsert(key, weigh(key, value), before.Some?);
    } else {
      s.MarkDirty();
    }
  }

  method DeleteEntry(m: StarMap, s: LifecycleState, key: Key, hooked: bool, ghost weigh: Weigher)
    requires m.Valid() && s.Valid() && (!s.Dirty() ==> Agree(m.logical, s.tracked, weigh))
    modifies m`active, m`previous, m`waiting, m`totalLen, m`writeEpoch, m`logical, s
    ensures m.Valid() && s.Valid() && m.logical == old(m.logical) - {key}
    ensures !s.Dirty() ==> Agree(m.logical, s.tracked, weigh)
    ensures s.Dirty() == (old(s.Dirty()) || !hooked) && s.Pending()
    ensures s.tracked == if hooked && key in old(m.logical) then old(s.tracked) - {key} else old(s.tracked)
  {
    hide StarMap.Valid, LifecycleState.Valid, LifecycleState.Genuine, Agree;
    s.MarkPending();
    var before := m.Remove(key);
    if !hooked {
      s.MarkDirty();
      return;
    }
    if !s.Dirty() {
      AgreeRemove(old(m.logical), s.tracked, weigh, key);
      NothingToForget(old(m.logical), s.tracked, weigh, key);
    }
    if before.Some? {
      s.RecordRemove(key);
    }
  }

  lemma NothingToForget(logical: Table, tracked: Index, weigh: Weigher, k: Key)
    requires Agree(logical, tracked, weigh)
    ensures k !in logical ==> tracked - {k} == tracked
  {
  }

  method ReadEntry(m: StarMap, s: LifecycleState, key: Key, ghost weigh: Weigher) returns (r: Option<Value>)
    requires m.Valid() && s.Valid() && (!s.Dirty() ==> Agree(m.logical, s.tracked, weigh))
    modifies s`stripes, s`sequence, s`tracked
    ensures s.Valid() && r == Lookup(m.logical, key)
    ensures !s.Dirty() ==> Agree(m.logical, s.tracked, weigh)
    ensures s.tracked == if key in m.logical && key in old(s.tracked)
                         then old(s.tracked)[key := Touched(old(s.tracked)[key], old(s.sequence))] else old(s.tracked)
  {
    hide StarMap.Placed, StarMap.CacheCoherent, Striped, Stamped, Agree;
    r := m.Get(key);
    if !s.Dirty() && key in s.tracked {
      AgreeTouch(m.logical, s.tracked, weigh, key, Touched(s.tracked[key], s.sequence));
    }
    s.RecordRead(key, r.Some?);
  }

  /** The removal hooks of several keys, of which the first `hooked` complete. */
  method ForgetKeys(s: LifecycleState, keys: seq<Key>, hooked: nat)
    requires s.Valid()
    modifies s`stripes, s`entries, s`tracked, s`dirtyEpoch, s`workEpoch
    ensures s.Valid() && s.workEpoch >= old(s.workEpoch)
    ensures s.dirtyEpoch == old(s.dirtyEpoch) + if hooked < |keys| then 1 else 0
    ensures hooked >= |keys| ==>
              forall k :: Lookup(s.tracked, k) == if k in keys then None else Lookup(old(s.tracked), k)
    ensures forall k :: k !in keys ==> Lookup(s.tracked, k) == Lookup(old(s.tracked), k)
  {
    hide LifecycleState.Valid;
    var n := 0;
    while n < |keys| && n < hooked
      invariant 0 <= n <= |keys| && n <= hooked && s.Valid()
      invariant forall k :: Lookup(s.tracked, k) == if k in keys[..n] then None else Lookup(old(s.tracked), k)
      invariant s.dirtyEpoch == old(s.dirtyEpoch) && s.workEpoch == old(s.workEpoch)
    {
      assert keys[..n + 1] == keys[..n] + [keys[n]];
      s.RecordRemove(keys[n]);
      n := n + 1;
    }
    if n < |keys| {
      s.MarkDirty();
    } else {
      assert keys[..n] == keys;
    }
  }

  /** The keys a filter rejects, as the listing of the map gives them. */
  method RejectedKeys(m: StarMap, keep: WholeMap.Filter) returns (keys: seq<Key>)
    requires m.Valid()
    ensures forall k :: k in keys <==> k in m.logical && !keep(k, m.logical[k])
    ensures |keys| == |WholeMap.Dropped(m.logical, keep)|
  {
    hide StarMap.Valid;
    var _, items := WholeMap.CollectInto(m);
    keys := [];
    ghost var seen: set<Key> := {};
    var n := 0;
    while n < |items|
      invariant 0 <= n <= |items|
      invariant |seen| == |keys| && (forall k :: k in keys <==> k in seen)
      invariant forall i :: n <= i < |items| ==> items[i].0 !in seen
      invariant forall k :: k in keys ==> k in m.logical && !keep(k, m.logical[k])
      invariant forall i :: 0 <= i < n && !keep(items[i].0, items[i].1) ==> items[i].0 in keys
    {
      assert items[n] in items;
      if !keep(items[n].0, items[n].1) {
        keys, seen := keys + [items[n].0], seen + {items[n].0};
      }
      n := n + 1;
    }
    forall k | k in m.logical && !keep(k, m.logical[k]) ensures k in keys {
      EnumeratedKey(items, m.logical, k);
    }
    assert seen == WholeMap.Dropped(m.logical, keep);
  }

  lemma AgreeKept(logical: Table, tracked: Index, weigh: Weigher, keep: WholeMap.Filter, keys: seq<Key>, after: Index)
    requires Agree(logical, tracked, weigh) && forall k :: k in keys <==> k in logical && !keep(k, logical[k])
    requires forall k :: Lookup(after, k) == if k in keys then None else Lookup(tracked, k)
    ensures Agree(WholeMap.Kept(logical, keep), after, weigh)
  {
    var kept := WholeMap.Kept(logical, keep);
    forall k
      ensures k in after <==> k in kept
      ensures k in after ==> after[k].weight == weigh(k, kept[k])
    {
      assert Lookup(after, k) == if k in keys then None else Lookup(tracked, k);
    }
  }

  /** Retain under exclusive routing, with the hooks of the removed entries. */
  method RetainEntries(m: StarMap, s: LifecycleState, keep: WholeMap.Filter, hooked: nat, ghost weigh: Weigher)
    requires m.Valid() && s.Valid() && (!s.Dirty() ==> Agree(m.logical, s.tracked, weigh))
    modifies m`active, m`previous, m`waiting, m`totalLen, m`writeEpoch, m`logical, s
    ensures m.Valid() && s.Valid() && m.logical == WholeMap.Kept(old(m.logical), keep)
    ensures !s.Dirty() ==> Agree(m.logical, s.tracked, weigh)
    ensures s.Dirty() == (old(s.Dirty()) || hooked < |WholeMap.Dropped(old(m.logical), keep)|)
    ensures Forgets(old(s.tracked), s.tracked, WholeMap.Dropped(old(m.logical), keep), hooked)
  {
    hide StarMap.Valid, LifecycleState.Valid, Agree, WholeMap.Kept;
    s.MarkPending();
    var keys := RejectedKeys(m, keep);
    WholeMap.Retain(m, keep);
    assert s.repairedEpoch <= s.dirtyEpoch by { Ordered(s); }
    ForgetKeys(s, keys, hooked);
    if !s.Dirty() {
      AgreeKept(old(m.logical), old(s.tracked), weigh, keep, keys, s.tracked);
    }
  }

  /** The records of the removed keys go if every hook completes, and no other record goes or changes. */
  ghost predicate Forgets(before: Index, after: Index, gone: set<Key>, hooks: nat) {
    && (forall k :: k !in gone ==> Lookup(after, k) == Lookup(before, k))
    && (hooks >= |gone| ==> forall k :: k in gone ==> k !in after)
  }

  lemma Ordered(s: LifecycleState)
    requires s.Valid()
    ensures s.repairedEpoch <= s.dirtyEpoch
  {
  }

  /** Clear under exclusive routing, with the hooks of everything that was there. */
  method ClearEntries(m: StarMap, s: LifecycleState, hooked: nat, ghost weigh: Weigher)
    requires m.Valid() && s.Valid() && (!s.Dirty() ==> Agree(m.logical, s.tracked, weigh))
    modifies m`active, m`previous, m`previousShardCount, m`waiting, m`totalLen, m`writeEpoch, m`logical, s
    modifies m.tracker`migrating, m.tracker`paused, m.tracker`complete
    ensures m.Valid() && s.Valid() && m.logical == map[]
    ensures !s.Dirty() ==> Agree(m.logical, s.tracked, weigh)
    ensures s.Dirty() == (old(s.Dirty()) || hooked < |old(m.logical)|)
    ensures Forgets(old(s.tracked), s.tracked, old(m.logical).Keys, hooked)
  {
    hide StarMap.Valid, LifecycleState.Valid, Agree;
    s.MarkPending();
    var nothing: WholeMap.Filter := (_, _) => false;
    var keys := RejectedKeys(m, nothing);
    assert WholeMap.Dropped(m.logical, nothing) == m.logical.Keys && |m.logical.Keys| == |m.logical|;
    WholeMap.Clear(m);
    assert s.repairedEpoch <= s.dirtyEpoch by { Ordered(s); }
    ForgetKeys(s, keys, hooked);
    if !s.Dirty() {
      assert WholeMap.Kept(old(m.logical), nothing) == map[];
      AgreeKept(old(m.logical), old(s.tracked), weigh, nothing, keys, s.tracked);
    }
  }

  /** A script with no maintenance, on a plain map. */
  function Replay(m: Table, script: seq<Action>): Table {
    if script == [] then m
    else
      var before, a := Replay(m, script[..|script| - 1]), script[|script| - 1];
      match a
      case Put(k, v, _) => before[k := v]
      case Delete(k, _) => before - {k}
      case Read(_) => before
      case RetainIf(keep, _) => WholeMap.Kept(before, keep)
      case ClearAll(_) => map[]
      case Maintain(_, _, _, _) => before
  }

  /** What a maintenance action leaves: clean within every limit and nothing pending, or disturbed and still pending. */
  ghost predicate Maintained(m: StarMap, s: LifecycleState, config: Limits, a: Action)
    reads m, s
    requires a.Maintain?
  {
    && m.shardCount > 0
    && (!s.Dirty() ==>
          !s.Pending() && Satisfied(config.(count := Target(a.requested, config.count)), m.logical, s.tracked,
                                    RouterOf(m.hash, m.shardCount)))
    && (s.Dirty() ==> s.Pending() && exists n: nat :: a.marked(n))
  }

  /** The map and the index between two actions. */
  datatype Moment = Moment(logical: Table, tracked: Index, sequence: nat, dirty: bool)

  ghost function Now(m: StarMap, s: LifecycleState): Moment
    reads m, s
  {
    Moment(m.logical, s.tracked, s.sequence, s.Dirty())
  }

  /**
   * A maintenance pass takes only victims, in the order of the policy, of the index it found or, if that was
   * dirty, of the repaired one; all of them if it ends clean; and none if the limits held. The others keep their ages.
   */
  ghost predicate Evicts(p: Policy, limits: Limits, at: Router, weigh: Weigher, before: Moment, after: Moment,
                         index: Index, order: seq<Entry>, gone: set<Key>) {
    && Takes(p, limits, at, before.logical, index, order, gone, after.logical, !after.dirty)
    && Agree(before.logical, index, weigh)
    && (if before.dirty then AllCarried(before.tracked, index, before.sequence) else index == before.tracked)
    && (Satisfied(limits, before.logical, index, at) ==> after.logical == before.logical)
    && KeepAges(index, after.tracked)
  }

  /** What one action does to the map and to the index. */
  ghost predicate Does(a: Action, config: Limits, at: Router, weigh: Weigher, before: Moment, after: Moment) {
    match a
    case Put(k, v, hooked) =>
      && after.logical == before.logical[k := v]
      && after.dirty == (before.dirty || !hooked)
      && after.tracked == (if hooked then before.tracked[k := Inserted(Lookup(before.tracked, k), k, before.sequence,
                                                                       weigh(k, v), k in before.logical)]
                           else before.tracked)
    case Delete(k, hooked) =>
      && after.logical == before.logical - {k}
      && after.dirty == (before.dirty || !hooked)
      && after.tracked == (if hooked && k in before.logical then before.tracked - {k} else before.tracked)
    case Read(k) =>
      && after.logical == before.logical
      && after.dirty == before.dirty
      && after.tracked == (if k in before.logical && k in before.tracked
                           then before.tracked[k := Touched(before.tracked[k], before.sequence)] else before.tracked)
    case RetainIf(keep, hooks) =>
      && after.logical == WholeMap.Kept(before.logical, keep)
      && after.dirty == (before.dirty || hooks < |WholeMap.Dropped(before.logical, keep)|)
      && Forgets(before.tracked, after.tracked, WholeMap.Dropped(before.logical, keep), hooks)
    case ClearAll(hooks) =>
      && after.logical == map[]
      && after.dirty == (before.dirty || hooks < |before.logical|)
      && Forgets(before.tracked, after.tracked, before.logical.Keys, hooks)
    case Maintain(requested, p, _, _) =>
      var limits := config.(count := Target(requested, config.count));
      exists index, order, gone :: Evicts(p, limits, at, weigh, before, after, index, order, gone)
  }

  method PerformAction(m: StarMap, s: LifecycleState, config: Limits, weigh: Weigher, a: Action)
    requires m.Valid() && s.Valid() && (!s.Dirty() ==> Agree(m.logical, s.tracked, weigh))
    modifies m`active, m`previous, m`previousShardCount, m`waiting, m`totalLen, m`writeEpoch, m`logical, s
    modifies m.tracker`migrating, m.tracker`paused, m.tracker`complete
    ensures m.Valid() && s.Valid() && (!s.Dirty() ==> Agree(m.logical, s.tracked, weigh))
    ensures a.Maintain? ==> Agree(m.logical, s.tracked, weigh) && Maintained(m, s, config, a)
    ensures m.shardCount > 0 && Does(a, config, RouterOf(m.hash, m.shardCount), weigh, old(Now(m, s)), Now(m, s))
  {
    hide StarMap.Valid, LifecycleState.Valid, Agree, Satisfied, Takes, AllCarried, Inserted, Touched, Forgets;
    hide WholeMap.Kept, WholeMap.Dropped, Submap, KeepAges;
    HasShards(m);
    match a
    case Put(k, v, hooked) => PutEntry(m, s, k, v, hooked, weigh);
    case Delete(k, hooked) => DeleteEntry(m, s, k, hooked, weigh);
    case Read(k) => var _ := ReadEntry(m, s, k, weigh);
    case RetainIf(keep, hooked) => RetainEntries(m, s, keep, hooked, weigh);
    case ClearAll(hooked) => ClearEntries(m, s, hooked, weigh);
    case Maintain(requested, p, failures, marked) =>
      ghost var before := Now(m, s);
      var index, order, gone := RunEviction(m, s, p, requested, config, weigh, failures, marked);
      assert Evicts(p, config.(count := Target(requested, config.count)), RouterOf(m.hash, m.shardCount), weigh, before,
                    Now(m, s), index, order, gone);
  }

  /** The moments of a run: each action does exactly what it says to the moment before it. */
  ghost predicate Traced(script: seq<Action>, config: Limits, at: Router, weigh: Weigher, trace: seq<Moment>) {
    |trace| == |script| + 1 && forall i :: 0 <= i < |script| ==>
        Does(script[i], config, at, weigh, trace[i], trace[i + 1])
  }

  lemma TracedMore(script: seq<Action>, n: nat, config: Limits, at: Router, weigh: Weigher, trace: seq<Moment>,
                   now: Moment)
    requires n < |script| && Traced(script[..n], config, at, weigh, trace)
    requires Does(script[n], config, at, weigh, trace[n], now)
    ensures Traced(script[..n + 1], config, at, weigh, trace + [now])
  {
    hide Does;
    var more, longer := script[..n + 1], trace + [now];
    forall i | 0 <= i < |more| ensures Does(more[i], config, at, weigh, longer[i], longer[i + 1]) {
      if i < n {
        assert Does(script[..n][i], config, at, weigh, trace[i], trace[i + 1]);
      }
    }
  }

  /** Without maintenance, the map ends as the operations alone make it. */
  lemma {:induction false} TracedReplay(script: seq<Action>, config: Limits, at: Router, weigh: Weigher,
                                        trace: seq<Moment>, n: nat)
    requires Traced(script, config, at, weigh, trace) && n <= |script|
    requires forall i :: 0 <= i < |script| ==> !script[i].Maintain?
    ensures trace[n].logical == Replay(trace[0].logical, script[..n])
  {
    hide Evicts, Forgets, Inserted, Touched;
    if n > 0 {
      TracedReplay(script, config, at, weigh, trace, n - 1);
      assert script[..n][..n - 1] == script[..n - 1];
      assert Does(script[n - 1], config, at, weigh, trace[n - 1], trace[n - 1 + 1]);
    }
  }

  /**
   * Any run of operations, with hooks completed or interrupted, and of maintenance passes: every action does to
   * the map and to the index exactly what it says, maintenance in particular evicts the victims of the policy's
   * order. A clean index always agrees with the map, and a run that ends in maintenance ends in agreement, and
   * clean, within every limit and with nothing pending unless another thread marked a failure during the
   * exclusive part of that last pass.
   */
  method RunCache(m: StarMap, s: LifecycleState, config: Limits, weigh: Weigher, script: seq<Action>)
    returns (ghost trace: seq<Moment>)
    requires m.Valid() && s.Valid() && (!s.Dirty() ==> Agree(m.logical, s.tracked, weigh))
    modifies m`active, m`previous, m`previousShardCount, m`waiting, m`totalLen, m`writeEpoch, m`logical, s
    modifies m.tracker`migrating, m.tracker`paused, m.tracker`complete
    ensures m.Valid() && s.Valid() && (!s.Dirty() ==> Agree(m.logical, s.tracked, weigh))
    ensures m.shardCount > 0 && Traced(script, config, RouterOf(m.hash, m.shardCount), weigh, trace)
    ensures trace[0] == old(Now(m, s)) && trace[|script|] == Now(m, s)
    ensures (forall i :: 0 <= i < |script| ==> !script[i].Maintain?) ==> m.logical == Replay(old(m.logical), script)
    ensures script != [] && script[|script| - 1].Maintain? ==>
              Agree(m.logical, s.tracked, weigh) && Maintained(m, s, config, script[|script| - 1])
  {
    hide StarMap.Valid, LifecycleState.Valid, Agree, Satisfied, Does, Replay;
    HasShards(m);
    trace := [Now(m, s)];
    ghost var at := RouterOf(m.hash, m.shardCount);
    assert script[..0] == [];
    var n := 0;
    while n < |script|
      invariant 0 <= n <= |script| && m.Valid() && s.Valid() && (!s.Dirty() ==> Agree(m.logical, s.tracked, weigh))
      invariant Traced(script[..n], config, at, weigh, trace) && trace[0] == old(Now(m, s)) && trace[n] == Now(m, s)
      invariant n > 0 && script[n - 1].Maintain? ==>
                  Agree(m.logical, s.tracked, weigh) && Maintained(m, s, config, script[n - 1])
    {
      PerformAction(m, s, config, weigh, script[n]);
      TracedMore(script, n, config, at, weigh, trace, Now(m, s));
      trace, n := trace + [Now(m, s)], n + 1;
    }
    assert script[..n] == script;
    if forall i :: 0 <= i < |script| ==> !script[i].Maintain? {
      TracedReplay(script, config, at, weigh, trace, n);
    }
  }
}
