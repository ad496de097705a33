/** The eviction passes over the map and its metadata: exclusive, planned, shard-local and single-victim. */
module EvictionPasses {
  import opened Domain
  import opened Routing
  import opened ShardedMap
  import opened EvictionIndex
  import opened EvictionOrder
  import opened EvictionVictims
  import WholeMap

  type Weigher = (Key, Value) -> nat

  function RouterOf(h: Hasher, count: nat): Router
    requires count > 0
  {
    k => IndexOf(h, k, count)
  }

  /** The index tracks exactly the live entries, with their weights. */
  ghost predicate Agree(logical: Table, tracked: Index, weigh: Weigher) {
    && (forall k :: k in tracked <==> k in logical)
    && (forall k :: k in tracked ==> tracked[k].weight == weigh(k, logical[k]))
  }

  function KeysOf(v: seq<Entry>): set<Key> {
    set e | e in v :: e.key
  }

  // ---------------------------------------------------------------------- midway through a pass

  /** Number, weight and shard sizes of what is left after taking `v`. */
  ghost predicate Counted(tracked: Index, at: Router, all: seq<Entry>, v: seq<Entry>) {
    && |tracked| + |v| == |all|
    && WeightOf(tracked) + Sum(v) == Sum(all)
    && (forall i :: |AtShard(tracked, at, i)| + |Part(at, v, i)| == |Part(at, all, i)|)
  }

  ghost predicate Left(tracked: Index, all: seq<Entry>, v: seq<Entry>) {
    && (forall e :: e in all ==> (Lookup(tracked, e.key) == Some(e) <==> e !in v))
    && (forall k :: k in tracked ==> tracked[k] in all)
  }

  /** `v` has been taken from the records `all`; `tracked` is what is left. */
  ghost predicate Midway(tracked: Index, at: Router, all: seq<Entry>, v: seq<Entry>) {
    Counted(tracked, at, all, v) && Left(tracked, all, v)
  }

  lemma {:induction false} AtShardWithout(m: Index, at: Router, k: Key, i: nat)
    requires k in m
    ensures |AtShard(m - {k}, at, i)| == |AtShard(m, at, i)| - if at(k) == i then 1 else 0
  {
    if at(k) == i {
      assert AtShard(m - {k}, at, i) == AtShard(m, at, i) - {k};
      CountWithout(AtShard(m, at, i), k);
    } else {
      assert AtShard(m - {k}, at, i) == AtShard(m, at, i);
    }
  }

  lemma {:induction false} CountedStep(tracked: Index, at: Router, all: seq<Entry>, v: seq<Entry>, e: Entry)
    requires Counted(tracked, at, all, v) && Lookup(tracked, e.key) == Some(e)
    ensures Counted(tracked - {e.key}, at, all, v + [e])
  {
    hide Part, Sum;
    CountWithout(tracked, e.key);
    WeightWithout(tracked, e.key);
    Grow(at, v, e, 0);
    forall i ensures |AtShard(tracked - {e.key}, at, i)| + |Part(at, v + [e], i)| == |Part(at, all, i)| {
      AtShardWithout(tracked, at, e.key, i);
      Grow(at, v, e, i);
    }
  }

  lemma {:induction false} LeftStep(tracked: Index, all: seq<Entry>, v: seq<Entry>, e: Entry)
    requires Left(tracked, all, v) && Distinct(all) && e in all && e !in v
    ensures Lookup(tracked, e.key) == Some(e) && Left(tracked - {e.key}, all, v + [e])
  {
    forall x | x in all ensures Lookup(tracked - {e.key}, x.key) == Some(x) <==> x !in v + [e] {
      SameKey(all, x, e);
    }
  }

  lemma SameKey(all: seq<Entry>, x: Entry, y: Entry)
    requires Distinct(all) && x in all && y in all
    ensures x.key == y.key ==> x == y
  {
  }

  lemma MidwayStep(tracked: Index, at: Router, all: seq<Entry>, v: seq<Entry>, e: Entry)
    requires Midway(tracked, at, all, v) && Distinct(all) && e in all && e !in v
    ensures Lookup(tracked, e.key) == Some(e) && Midway(tracked - {e.key}, at, all, v + [e])
  {
    hide Counted, Left, Distinct;
    LeftStep(tracked, all, v, e);
    CountedStep(tracked, at, all, v, e);
  }

  lemma {:induction false} MidwayStart(p: Policy, tracked: Index, at: Router, all: seq<Entry>)
    requires Order(p, all, tracked) && forall k :: k in tracked ==> tracked[k].key == k
    ensures Midway(tracked, at, all, [])
  {
    ListWeighs(all, tracked);
    forall i ensures |AtShard(tracked, at, i)| == |Part(at, all, i)| {
      PartIsShardOrder(p, at, all, tracked, i);
      ListWeighs(Part(at, all, i), AtShard(tracked, at, i));
    }
    forall k | k in tracked ensures tracked[k] in all {
      assert Lookup(tracked, k) == Some(tracked[k]);
    }
  }

  // ------------------------------------------------------------------------------ one victim

  /** Removes a key from whichever generation has it, with one write record. */
  method EvictKey(m: StarMap, key: Key) returns (removed: bool)
    requires m.Valid()
    modifies m`active, m`previous, m`waiting, m`totalLen, m`writeEpoch, m`logical
    ensures m.Valid() && removed == (key in old(m.logical)) && m.waiting <= old(m.waiting)
    ensures m.logical == Without(old(m.logical), {key})
    ensures m.writeEpoch == old(m.writeEpoch) + if removed then 1 else 0
  {
    hide Stands, Enumerates;
    var i := m.ShardIndex(key);
    Whereabouts(m, key);
    if m.active[i].Some? && key in m.active[i].value {
      WholeMap.DropActiveKeys(m, i, {key}, 1);
      return true;
    }
    if m.previousShardCount != 0 {
      var j := IndexOf(m.hash, key, m.previousShardCount);
      if m.previous.value[j].Some? && key in m.previous.value[j].value {
        WholeMap.DropSourceKeys(m, j, {key}, 1);
        return true;
      }
    }
    NothingDropped(m.logical, key);
    removed := false;
  }

  /** A live key is in its active slot or in its previous slot. */
  lemma Whereabouts(m: StarMap, key: Key)
    requires m.Valid()
    ensures key in m.logical <==> key in TableOf(m.active[m.ShardIndex(key)])
                                  || (m.previousShardCount != 0 &&
                                      key in TableOf(m.previous.value[IndexOf(m.hash, key, m.previousShardCount)]))
  {
    SlotShare(m.hash, m.active, m.Source(), m.logical, m.waiting, m.ShardIndex(key), key);
    if m.previousShardCount != 0 {
      SourceShare(m.hash, m.active, m.Source(), m.logical, m.waiting, IndexOf(m.hash, key, m.previousShardCount), key);
    }
  }

  lemma NothingDropped(t: Table, key: Key)
    requires key !in t
    ensures Without(t, {key}) == t
  {
    SameLookups(Without(t, {key}), t);
  }

  /** A tracked record is a genuine candidate. */
  lemma TrackedGenuine(s: LifecycleState, e: Entry)
    requires s.Valid() && Lookup(s.tracked, e.key) == Some(e)
    ensures s.Genuine(e)
  {
    assert Issued(e, s.sequence);
    forall k | k in s.tracked && s.tracked[k].incarnation == e.incarnation ensures k == e.key {
      assert k != e.key ==> Apart(s.tracked[k], e);
    }
  }

  /** The map and its index as they stand in the middle of a pass that has taken `v`. */
  ghost predicate Passing(m: StarMap, s: LifecycleState, weigh: Weigher, at: Router, all: seq<Entry>, v: seq<Entry>,
                          start: Table)
    reads m, m.tracker, s
  {
    && m.Valid() && s.Valid() && Agree(m.logical, s.tracked, weigh)
    && Midway(s.tracked, at, all, v) && Distinct(all)
    && m.logical == Without(start, KeysOf(v))
  }

  /** Takes one validated candidate out of the map and the index. */
  method EvictEntry(m: StarMap, s: LifecycleState, e: Entry, sampled: nat,
                    ghost weigh: Weigher, ghost at: Router, ghost all: seq<Entry>, ghost v: seq<Entry>,
                    ghost start: Table)
    requires Passing(m, s, weigh, at, all, v, start) && !s.Dirty() && e in all && e !in v && sampled == s.epoch
    modifies m`active, m`previous, m`waiting, m`totalLen, m`writeEpoch, m`logical, s`stripes, s`entries, s`tracked
    ensures Passing(m, s, weigh, at, all, v + [e], start) && s.tracked == old(s.tracked) - {e.key}
  {
    hide StarMap.Valid, LifecycleState.Valid, Distinct, Counted, Left, Agree;
    MidwayStep(s.tracked, at, all, v, e);
    AgreedKey(m.logical, s.tracked, weigh, e.key);
    TrackedGenuine(s, e);
    var good := s.Validate(e, sampled);
    assert good;
    var removed := EvictKey(m, e.key);
    AgreeWithout(old(m.logical), s.tracked, weigh, e.key);
    WithoutOneMore(start, v, e);
    if removed {
      s.RecordEviction(e);
    }
  }

  lemma AgreedKey(logical: Table, tracked: Index, weigh: Weigher, k: Key)
    requires Agree(logical, tracked, weigh)
    ensures k in tracked <==> k in logical
  {
  }

  lemma AgreeWithout(logical: Table, tracked: Index, weigh: Weigher, k: Key)
    requires Agree(logical, tracked, weigh)
    ensures Agree(Without(logical, {k}), tracked - {k}, weigh)
  {
    var rest := Without(logical, {k});
    forall x
      ensures x in tracked - {k} <==> x in rest
      ensures x in rest ==> rest[x] == logical[x]
    {
      assert Lookup(rest, x) == if x in {k} then None else Lookup(logical, x);
    }
  }

  lemma WithoutOneMore(start: Table, v: seq<Entry>, e: Entry)
    ensures Without(Without(start, KeysOf(v)), {e.key}) == Without(start, KeysOf(v + [e]))
  {
    assert KeysOf(v + [e]) == KeysOf(v) + {e.key};
    WholeMap.WithoutTwice(start, KeysOf(v), {e.key});
  }

  // -------------------------------------------------------------------------------- counters

  lemma AgreeSize(logical: Table, tracked: Index, weigh: Weigher)
    requires Agree(logical, tracked, weigh)
    ensures |logical| == |tracked|
  {
    assert logical.Keys == tracked.Keys;
    assert |logical.Keys| == |logical| && |tracked.Keys| == |tracked|;
  }

  ghost predicate Tally(at: Router, tracked: Index, tally: seq<nat>) {
    forall i :: 0 <= i < |tally| ==> tally[i] == |AtShard(tracked, at, i)|
  }

  /** The per-shard counters are right, if there are any. */
  ghost predicate Tallied(limits: Limits, at: Router, tracked: Index, tally: seq<nat>, count: nat) {
    limits.perShard.Some? ==> |tally| == count && Tally(at, tracked, tally)
  }

  /** What the counters of a pass say about the records taken so far. */
  lemma PassingTotals(m: StarMap, s: LifecycleState, weigh: Weigher, at: Router, all: seq<Entry>, v: seq<Entry>,
                      start: Table, i: nat)
    requires Passing(m, s, weigh, at, all, v, start)
    ensures m.shardCount > 0 && s.Valid()
    ensures m.totalLen + |v| == |all|
    ensures WeightOf(s.tracked) + Sum(v) == Sum(all)
    ensures |AtShard(s.tracked, at, i)| + |Part(at, v, i)| == |Part(at, all, i)|
  {
    hide Stands, Enumerates, Striped, Stamped, Left, Part, Sum;
    AgreeSize(m.logical, s.tracked, weigh);
  }

  /** Counts the entries of both generations by destination shard. */
  method CountPerShard(m: StarMap, ghost tracked: Index, ghost weigh: Weigher) returns (tally: seq<nat>)
    requires m.Valid() && Agree(m.logical, tracked, weigh)
    ensures |tally| == m.shardCount && Tally(RouterOf(m.hash, m.shardCount), tracked, tally)
  {
    hide Stands, Enumerates, Tally;
    var _, items := WholeMap.CollectInto(m);
    tally := TallyItems(m.hash, m.shardCount, items, m.logical, tracked);
  }

  method TallyItems(h: Hasher, count: nat, items: seq<(Key, Value)>, ghost logical: Table, ghost tracked: Index)
    returns (tally: seq<nat>)
    requires count > 0 && Enumerates(items, logical) && forall k :: k in tracked <==> k in logical
    ensures |tally| == count && Tally(RouterOf(h, count), tracked, tally)
  {
    hide Tally;
    ghost var at := RouterOf(h, count);
    tally := seq(count, _ => 0);
    ghost var seen: Index := map[];
    NoneTallied(at, count);
    var n := 0;
    while n < |items|
      invariant 0 <= n <= |items| && |tally| == count && Tally(at, seen, tally)
      invariant forall k :: k in seen ==> exists j :: 0 <= j < n && items[j].0 == k
      invariant forall j :: 0 <= j < n ==> items[j].0 in seen
      invariant forall k :: k in seen ==> Lookup(tracked, k) == Some(seen[k])
    {
      var k := items[n].0;
      assert items[n] in items;
      var i := IndexOf(h, k, count);
      TallyOne(seen, at, k, tracked[k], tally, i);
      tally, seen := tally[i := tally[i] + 1], seen[k := tracked[k]];
      n := n + 1;
    }
    forall k ensures Lookup(seen, k) == Lookup(tracked, k) {
      if k in tracked {
        EnumeratedKey(items, logical, k);
      }
    }
    SameLookups(seen, tracked);
  }

  lemma NoneTallied(at: Router, count: nat)
    ensures Tally(at, map[], seq(count, _ => 0))
  {
    assert forall i :: AtShard(map[], at, i) == map[];
  }

  lemma {:induction false} TallyOne(seen: Index, at: Router, k: Key, e: Entry, tally: seq<nat>, i: nat)
    requires k !in seen && at(k) == i < |tally| && Tally(at, seen, tally)
    ensures Tally(at, seen[k := e], tally[i := tally[i] + 1])
  {
    var next := tally[i := tally[i] + 1];
    forall j | 0 <= j < |next| ensures next[j] == |AtShard(seen[k := e], at, j)| {
      if j == i {
        assert AtShard(seen[k := e], at, j) == AtShard(seen, at, j)[k := e];
        CountWith(AtShard(seen, at, j), k, e);
      } else {
        assert AtShard(seen[k := e], at, j) == AtShard(seen, at, j);
      }
    }
  }

  method OverBudget(s: LifecycleState, limits: Limits) returns (over: bool)
    requires s.Valid()
    ensures over <==> limits.budget.Some? && WeightOf(s.tracked) > limits.budget.value
  {
    if limits.budget.None? {
      return false;
    }
    var total := s.TotalWeight();
    over := total > limits.budget.value;
  }

  // -------------------------------------------------------------------------- exclusive pass

  /** Chosen records come from the candidates looked at. */
  lemma {:induction false} ChosenEarlier(limits: Limits, at: Router, all: seq<Entry>, c: seq<Entry>, n: nat)
    requires n <= |c|
    ensures forall e :: e in Chosen(limits, at, all, c, n) ==> e in c[..n]
  {
    if n > 0 {
      ChosenEarlier(limits, at, all, c, n - 1);
      assert c[..n] == c[..n - 1] + [c[n - 1]];
    }
  }

  /** Without a per-shard limit, a pass that is within the limits is over. */
  lemma {:induction false} ChosenStops(limits: Limits, at: Router, all: seq<Entry>, c: seq<Entry>, n: nat, end: nat)
    requires n <= end <= |c| && limits.perShard.None?
    requires var v := Chosen(limits, at, all, c, n); !OverCount(limits, all, v) && !OverWeight(limits, all, v)
    ensures Chosen(limits, at, all, c, end) == Chosen(limits, at, all, c, n)
    decreases end
  {
    if n < end {
      ChosenStops(limits, at, all, c, n, end - 1);
    }
  }

  /** The candidates of a pass: none within the limits, the minimum when it must be the only victim, all otherwise. */
  method SelectCandidates(m: StarMap, s: LifecycleState, p: Policy, limits: Limits, overWeight: bool,
                          ghost at: Router, ghost all: seq<Entry>) returns (c: seq<Entry>)
    requires m.Valid() && s.Valid() && m.totalLen == |all| && Order(p, all, s.tracked)
    requires overWeight == OverWeight(limits, all, [])
    ensures s.Dirty() ==> c == []
    ensures !s.Dirty() ==> Chosen(limits, at, all, c, |c|) == Victims(limits, at, all)
    ensures !s.Dirty() ==> Needed(limits, at, all, c, |c|) == Needed(limits, at, all, all, |all|)
    ensures Distinct(c) && forall e :: e in c ==> e in all
  {
    hide Stands, Enumerates, Striped, Stamped;
    var overCount := limits.count.Some? && m.totalLen > limits.count.value;
    if limits.perShard.None? && !overCount && !overWeight {
      ChosenStops(limits, at, all, all, 0, |all|);
      NothingNeeded(limits, at, all, all, |all|);
      c := [];
    } else if limits.perShard.None? && limits.budget.None? && limits.count.Some? &&
        m.totalLen == limits.count.value + 1 {
      var least := MinimumCandidate(s, p);
      MinimumSuffices(limits, at, all);
      c := if least.Some? then [least.value] else [];
      assert all[0] in all;
    } else {
      c := Candidates(s, p);
      if !s.Dirty() {
        OrderUnique(p, c, all, s.tracked);
      }
    }
  }

  /** A failure of an unrelated operation is marked in the middle of a pass. */
  method MarkFailure(m: StarMap, s: LifecycleState, ghost weigh: Weigher, ghost at: Router, ghost all: seq<Entry>,
                     ghost v: seq<Entry>, ghost start: Table)
    requires Passing(m, s, weigh, at, all, v, start)
    modifies s`dirtyEpoch, s`workEpoch
    ensures Passing(m, s, weigh, at, all, v, start) && s.Dirty() && s.workEpoch == old(s.workEpoch) + 1
  {
    hide Midway, Agree;
    s.MarkDirty();
  }

  /** Looks at one candidate. */
  method EvictNext(m: StarMap, s: LifecycleState, limits: Limits, c: seq<Entry>, n: nat, tally: seq<nat>,
                   overWeight: bool, sampled: nat,
                   ghost weigh: Weigher, ghost at: Router, ghost all: seq<Entry>, ghost v: seq<Entry>,
                   ghost start: Table)
    returns (tally': seq<nat>, overWeight': bool, evicted: bool)
    requires Passing(m, s, weigh, at, all, v, start) && !s.Dirty()
    requires at == RouterOf(m.hash, m.shardCount) && sampled == s.epoch
    requires n < |c| && c[n] in all && c[n] !in v
    requires Tallied(limits, at, s.tracked, tally, m.shardCount) && overWeight == OverWeight(limits, all, v)
    modifies m`active, m`previous, m`waiting, m`totalLen, m`writeEpoch, m`logical, s`stripes, s`entries, s`tracked
    ensures evicted == Exceeds(limits, at, all, v, c[n])
    ensures var v' := if evicted then v + [c[n]] else v;
            && Passing(m, s, weigh, at, all, v', start)
            && Tallied(limits, at, s.tracked, tally', m.shardCount) && overWeight' == OverWeight(limits, all, v')
  {
    hide Passing, Part, Sum, AtShard, Tally, LifecycleState.Valid;
    PassingTotals(m, s, weigh, at, all, v, start, at(c[n].key));
    var i := m.ShardIndex(c[n].key);
    var overCount := limits.count.Some? && m.totalLen > limits.count.value;
    var overShard := limits.perShard.Some? && tally[i] > limits.perShard.value;
    TallyAt(limits, at, s.tracked, tally, i);
    tally', overWeight' := tally, overWeight;
    evicted := overCount || overShard || overWeight;
    if evicted {
      PassingMember(m, s, weigh, at, all, v, start, c[n]);
      TallyDrop(limits, at, s.tracked, tally, m.shardCount, c[n].key);
      EvictEntry(m, s, c[n], sampled, weigh, at, all, v, start);
      PassingTotals(m, s, weigh, at, all, v + [c[n]], start, i);
      Grow(at, v, c[n], 0);
      if overWeight {
        overWeight' := OverBudget(s, limits);
      }
      if limits.perShard.Some? {
        tally' := tally[i := tally[i] - 1];
      }
    }
  }

  lemma PassingMember(m: StarMap, s: LifecycleState, weigh: Weigher, at: Router, all: seq<Entry>, v: seq<Entry>,
                      start: Table, e: Entry)
    requires Passing(m, s, weigh, at, all, v, start) && e in all && e !in v
    ensures Lookup(s.tracked, e.key) == Some(e)
  {
    hide Stands, Enumerates, Striped, Stamped, Counted;
  }

  lemma TallyAt(limits: Limits, at: Router, tracked: Index, tally: seq<nat>, i: nat)
    requires limits.perShard.Some? ==> i < |tally| && Tally(at, tracked, tally)
    ensures limits.perShard.Some? ==> tally[i] == |AtShard(tracked, at, i)|
  {
  }

  lemma {:induction false} TallyDrop(limits: Limits, at: Router, tracked: Index, tally: seq<nat>, count: nat, k: Key)
    requires Tallied(limits, at, tracked, tally, count) && k in tracked && at(k) < count
    ensures limits.perShard.Some? ==>
            tally[at(k)] > 0 && Tallied(limits, at, tracked - {k}, tally[at(k) := tally[at(k)] - 1], count)
  {
    if limits.perShard.Some? {
      AtShardWithout(tracked, at, k, at(k));
      var next := tally[at(k) := tally[at(k)] - 1];
      forall i | 0 <= i < |next| ensures next[i] == |AtShard(tracked - {k}, at, i)| {
        AtShardWithout(tracked, at, k, i);
      }
    }
  }
}
