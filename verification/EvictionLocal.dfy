/** The shard-local eviction path: it trims overfull shards one at a time, and picks the same victims. */
module EvictionLocal {
  import opened Domain
  import opened Routing
  import opened ShardedMap
  import opened EvictionIndex
  import opened EvictionOrder
  import opened EvictionVictims
  import opened EvictionPasses
  import opened EvictionRuns
  import WholeMap

  lemma {:induction false} PartAppend(at: Router, a: seq<Entry>, b: seq<Entry>, i: nat)
    ensures Part(at, a + b, i) == Part(at, a, i) + Part(at, b, i)
    decreases |b|
  {
    if b == [] {
      assert a + b == a;
    } else {
      var n := |b| - 1;
      assert a + b == (a + b[..n]) + [b[n]];
      assert b == b[..n] + [b[n]];
      Grow(at, a + b[..n], b[n], i);
      Grow(at, b[..n], b[n], i);
      PartAppend(at, a, b[..n], i);
    }
  }

  lemma {:induction false} PartUniform(at: Router, list: seq<Entry>, i: nat, j: nat)
    requires forall e :: e in list ==> at(e.key) == i
    ensures Part(at, list, j) == if i == j then list else []
    decreases |list|
  {
    if list != [] {
      var n := |list| - 1;
      assert list == list[..n] + [list[n]];
      PartUniform(at, list[..n], i, j);
      Grow(at, list[..n], list[n], j);
    }
  }

  /** Without a previous generation, a slot's table is its destination shard. */
  lemma SlotIsShard(m: StarMap, s: LifecycleState, weigh: Weigher, i: nat)
    requires m.Valid() && m.previousShardCount == 0 && Agree(m.logical, s.tracked, weigh) && i < m.shardCount
    ensures forall k :: k in TableOf(m.active[i]) <==> k in AtShard(s.tracked, RouterOf(m.hash, m.shardCount), i)
    ensures |TableOf(m.active[i])| == |AtShard(s.tracked, RouterOf(m.hash, m.shardCount), i)|
  {
    var at := RouterOf(m.hash, m.shardCount);
    var table, shard := TableOf(m.active[i]), AtShard(s.tracked, at, i);
    forall k ensures k in table <==> k in shard {
      SlotShare(m.hash, m.active, m.Source(), m.logical, m.waiting, i, k);
      assert Find(m.hash, m.Source(), k) == None;
    }
    assert table.Keys == shard.Keys;
    assert |table.Keys| == |table| && |shard.Keys| == |shard|;
  }

  /** A shard's lowest-ranked surplus. */
  function Low(limit: nat, at: Router, all: seq<Entry>, i: nat): seq<Entry> {
    Part(at, all, i)[..Surplus(limit, at, all, i)]
  }

  /** The surplus of the shards in `done` is gone, and nothing else. */
  ghost predicate Trimmed(limit: nat, at: Router, all: seq<Entry>, v: seq<Entry>, done: set<nat>) {
    forall i: nat :: Part(at, v, i) == if i in done then Low(limit, at, all, i) else []
  }

  /** Nothing went that the surplus does not hold, in its order. */
  ghost predicate Bounded(limit: nat, at: Router, all: seq<Entry>, v: seq<Entry>) {
    forall i: nat :: Part(at, v, i) <= Low(limit, at, all, i)
  }

  /** An untouched shard's candidates are its part of the global eviction order. */
  lemma {:induction false} LocalOrder(p: Policy, tracked: Index, at: Router, all: seq<Entry>, v: seq<Entry>, i: nat)
    requires Left(tracked, all, v) && Ranked(p, all) && Part(at, v, i) == [] && forall k :: k in tracked ==>
             tracked[k].key == k
    ensures Order(p, Part(at, all, i), AtShard(tracked, at, i))
  {
    PartMembers(at, all, i);
    PartMembers(at, v, i);
    PartRanked(p, at, all, i);
    forall e ensures e in Part(at, all, i) <==> Lookup(AtShard(tracked, at, i), e.key) == Some(e) {
      if e in all && at(e.key) == i {
        assert e !in v by {
          assert e in v ==> e in Part(at, v, i);
        }
      }
    }
    RankedDistinct(p, Part(at, all, i), AtShard(tracked, at, i));
  }

  method ListKeys(t: Table) returns (keys: seq<Key>)
    ensures (forall i, j :: 0 <= i < j < |keys| ==> keys[i] != keys[j]) && forall k :: k in keys <==> k in t
  {
    var items := WholeMap.ListTable(t);
    keys := seq(|items|, i requires 0 <= i < |items| => items[i].0);
    forall k ensures k in keys <==> k in t {
      if k in keys {
        var i :| 0 <= i < |keys| && keys[i] == k;
        assert items[i] in items;
      }
      if k in t {
        EnumeratedKey(items, t, k);
        var i :| 0 <= i < |items| && items[i] == (k, t[k]);
        assert keys[i] == k;
      }
    }
  }

  /**
   * Evicts an overfull shard's lowest-ranked records until it fits. When another thread marks a failure
   * after `failure` evictions, validation rejects every later candidate, and a repair is due even if none was left.
   */
  method TrimShard(m: StarMap, s: LifecycleState, limit: nat, i: nat, list: seq<Entry>, sampled: nat,
                   failure: Option<nat>,
                   ghost weigh: Weigher, ghost at: Router, ghost all: seq<Entry>, ghost v: seq<Entry>,
                   ghost start: Table)
    returns (taken: seq<Entry>)
    requires Passing(m, s, weigh, at, all, v, start) && !s.Dirty() && sampled == s.epoch
    requires m.previousShardCount == 0 && i < m.shardCount && at == RouterOf(m.hash, m.shardCount)
    requires list == Part(at, all, i) && Part(at, v, i) == []
    modifies m`active, m`previous, m`waiting, m`totalLen, m`writeEpoch, m`logical
    modifies s`stripes, s`entries, s`tracked, s`dirtyEpoch, s`workEpoch
    ensures taken <= Low(limit, at, all, i) && (!s.Dirty() ==> taken == Low(limit, at, all, i))
    ensures !s.Dirty() ==> s.workEpoch == old(s.workEpoch)
    ensures Passing(m, s, weigh, at, all, v + taken, start)
  {
    hide Passing, Part;
    PartMembers(at, all, i);
    PartMembers(at, v, i);
    taken := [];
    assert v + [] == v;
    var n := 0;
    while n < |list|
      invariant 0 <= n <= |list| && n <= Surplus(limit, at, all, i) && taken == list[..n]
      invariant Passing(m, s, weigh, at, all, v + taken, start) && !s.Dirty() && s.workEpoch == old(s.workEpoch)
    {
      if failure == Some(n) {
        break;
      }
      LocalSize(m, s, weigh, at, all, v, taken, start, i);
      if |TableOf(m.active[i])| <= limit {
        break;
      }
      NotYetTaken(m, s, weigh, at, all, v, list, n, start, i);
      EvictEntry(m, s, list[n], sampled, weigh, at, all, v + taken, start);
      assert v + taken + [list[n]] == v + (taken + [list[n]]);
      taken := taken + [list[n]];
      n := n + 1;
    }
    if failure == Some(n) {
      MarkFailure(m, s, weigh, at, all, v + taken, start);
    }
  }

  /** The size of a partly trimmed shard. */
  lemma LocalSize(m: StarMap, s: LifecycleState, weigh: Weigher, at: Router, all: seq<Entry>, v: seq<Entry>,
                  taken: seq<Entry>, start: Table, i: nat)
    requires Passing(m, s, weigh, at, all, v + taken, start) && m.previousShardCount == 0 && i < m.shardCount &&
             at == RouterOf(m.hash, m.shardCount)
    requires Part(at, v, i) == [] && forall e :: e in taken ==> at(e.key) == i
    ensures |m.active| == m.shardCount && |TableOf(m.active[i])| + |taken| == |Part(at, all, i)|
  {
    hide Passing, Part;
    PassingTotals(m, s, weigh, at, all, v + taken, start, i);
    PassingLength(m, s, weigh, at, all, v + taken, start);
    SlotIsShard(m, s, weigh, i);
    PartAppend(at, v, taken, i);
    PartUniform(at, taken, i, i);
  }

  lemma NotYetTaken(m: StarMap, s: LifecycleState, weigh: Weigher, at: Router, all: seq<Entry>, v: seq<Entry>,
                    list: seq<Entry>, n: nat, start: Table, i: nat)
    requires n < |list| && Passing(m, s, weigh, at, all, v + list[..n], start) && list == Part(at, all, i) &&
             Part(at, v, i) == []
    ensures list[n] in all && list[n] !in v + list[..n]
  {
    hide Part, Midway, StarMap.Valid, LifecycleState.Valid;
    PartMembers(at, all, i);
    PartMembers(at, v, i);
    var e := list[n];
    assert e in list;
    PartDistinct(at, all, i);
    assert e !in v by {
      assert e in v ==> e in Part(at, v, i);
    }
  }

  lemma {:induction false} PartDistinct(at: Router, list: seq<Entry>, i: nat)
    requires Distinct(list)
    ensures Distinct(Part(at, list, i))
    decreases |list|
  {
    if list != [] {
      var n := |list| - 1;
      PartDistinct(at, list[..n], i);
      PartMembers(at, list[..n], i);
      var part := Part(at, list[..n], i);
      forall x | 0 <= x < |part| ensures part[x].key != list[n].key {
        assert part[x] in part;
        var y :| 0 <= y < n && list[y] == part[x];
      }
    }
  }

  /** The candidates of one overfull shard that has not been touched. */
  method ShardCandidates(m: StarMap, s: LifecycleState, p: Policy, i: nat,
                         ghost weigh: Weigher, ghost at: Router, ghost all: seq<Entry>, ghost v: seq<Entry>,
                         ghost start: Table)
    returns (list: seq<Entry>)
    requires Passing(m, s, weigh, at, all, v, start) && !s.Dirty() && Ranked(p, all) && Part(at, v, i) == []
    requires m.previousShardCount == 0 && i < m.shardCount && at == RouterOf(m.hash, m.shardCount)
    ensures list == Part(at, all, i)
  {
    hide Passing, Part, Order;
    PassingLength(m, s, weigh, at, all, v, start);
    var keys := ListKeys(TableOf(m.active[i]));
    list := CandidatesForKeys(s, p, keys);
    SlotIsShard(m, s, weigh, i);
    assert Among(s.tracked, keys) == AtShard(s.tracked, at, i);
    PassingOrder(m, s, p, weigh, at, all, v, start, i);
    OrderUnique(p, list, Part(at, all, i), AtShard(s.tracked, at, i));
  }

  /** Trims shard `i`, if it is overfull; `failure` is marked in any case. */
  method VisitShard(m: StarMap, s: LifecycleState, p: Policy, limit: nat, i: nat, sampled: nat, failure: Option<nat>,
                    ghost weigh: Weigher, ghost at: Router, ghost all: seq<Entry>, ghost v: seq<Entry>,
                    ghost start: Table)
    returns (taken: seq<Entry>)
    requires Passing(m, s, weigh, at, all, v, start) && !s.Dirty() && sampled == s.epoch
    requires m.previousShardCount == 0 && i < m.shardCount && at == RouterOf(m.hash, m.shardCount)
    requires Ranked(p, all) && Part(at, v, i) == []
    modifies m`active, m`previous, m`waiting, m`totalLen, m`writeEpoch, m`logical
    modifies s`stripes, s`entries, s`tracked, s`dirtyEpoch, s`workEpoch
    ensures taken <= Low(limit, at, all, i) && (!s.Dirty() ==> taken == Low(limit, at, all, i))
    ensures !s.Dirty() ==> s.workEpoch == old(s.workEpoch)
    ensures Passing(m, s, weigh, at, all, v + taken, start)
  {
    hide Passing, Part, Ranked;
    assert v + [] == v;
    LocalSize(m, s, weigh, at, all, v, [], start, i);
    if |TableOf(m.active[i])| <= limit {
      if failure.Some? {
        MarkFailure(m, s, weigh, at, all, v, start);
      }
      return [];
    }
    var list := ShardCandidates(m, s, p, i, weigh, at, all, v, start);
    taken := TrimShard(m, s, limit, i, list, sampled, failure, weigh, at, all, v, start);
  }

  lemma PassingOrder(m: StarMap, s: LifecycleState, p: Policy, weigh: Weigher, at: Router, all: seq<Entry>,
                     v: seq<Entry>, start: Table, i: nat)
    requires Passing(m, s, weigh, at, all, v, start) && Ranked(p, all) && Part(at, v, i) == []
    ensures Order(p, Part(at, all, i), AtShard(s.tracked, at, i))
  {
    hide StarMap.Valid, Part, Counted, Striped, Stamped;
    LocalOrder(p, s.tracked, at, all, v, i);
  }

  function ShardOnly(limit: nat): Limits {
    Limits(None, Some(limit), None)
  }

  /**
   * Trims every overfull shard under shared routing, while no migration runs. Unless a failure is marked
   * meanwhile, the victims are those of an exclusive pass with the same per-shard limit, shard by shard and
   * in the same order; if one is, they are the first of those in every shard, and a repair is due.
   */
  method LocalPass(m: StarMap, s: LifecycleState, p: Policy, limit: nat, failures: nat -> Option<nat>,
                   ghost weigh: Weigher, ghost all: seq<Entry>) returns (victims: seq<Entry>)
    requires m.Valid() && s.Valid() && !s.Dirty() && Agree(m.logical, s.tracked, weigh) && Order(p, all, s.tracked)
    requires m.previousShardCount == 0
    modifies m`active, m`previous, m`waiting, m`totalLen, m`writeEpoch, m`logical
    modifies s`stripes, s`entries, s`tracked, s`dirtyEpoch, s`workEpoch
    ensures m.shardCount > 0 && Passing(m, s, weigh, RouterOf(m.hash, m.shardCount), all, victims, old(m.logical))
    ensures var at := RouterOf(m.hash, m.shardCount); SameAs(limit, at, all, victims, !s.Dirty())
    ensures !s.Dirty() ==> s.workEpoch == old(s.workEpoch)
  {
    hide StarMap.Valid, LifecycleState.Valid, Agree, Passing, Part, Lists, Ranked;
    HasShards(m);
    ghost var at := RouterOf(m.hash, m.shardCount);
    PassingStart(m, s, p, weigh, at, all);
    victims := [];
    var i := 0;
    ghost var done: set<nat> := {};
    NothingTrimmed(limit, at, all);
    while i < m.shardCount
      invariant 0 <= i <= m.shardCount && forall j: nat :: j in done <==> j < i
      invariant Bounded(limit, at, all, victims) && (!s.Dirty() ==> Trimmed(limit, at, all, victims, done))
      invariant Passing(m, s, weigh, at, all, victims, old(m.logical))
      invariant !s.Dirty() ==> s.workEpoch == old(s.workEpoch)
    {
      if !s.Dirty() {
        var taken := VisitShard(m, s, p, limit, i, s.epoch, failures(i), weigh, at, all, victims, old(m.logical));
        TrimmedMore(limit, at, all, victims, taken, done, i);
        victims := victims + taken;
      }
      i, done := i + 1, done + {i};
    }
    if failures(m.shardCount).Some? {
      MarkFailure(m, s, weigh, at, all, victims, old(m.logical));
    }
    assert !s.Dirty() ==> forall j: nat :: j in done || Low(limit, at, all, j) == [] by {
      forall j: nat | j >= i ensures Low(limit, at, all, j) == [] {
        PartUnused(at, all, j);
      }
    }
    SameVictims(limit, at, all, victims, done, !s.Dirty());
  }

  /**
   * How a pass over single shards compares with an exclusive one: always the first of its victims, all of them
   * if clean.
   */
  ghost predicate SameAs(limit: nat, at: Router, all: seq<Entry>, v: seq<Entry>, clean: bool) {
    var w := Victims(ShardOnly(limit), at, all);
    && (forall i: nat :: Part(at, v, i) <= Part(at, w, i))
    && (clean ==> (forall i: nat :: Part(at, v, i) == Part(at, w, i)) && KeysOf(v) == KeysOf(w))
  }

  lemma NothingTrimmed(limit: nat, at: Router, all: seq<Entry>)
    ensures Trimmed(limit, at, all, [], {}) && Bounded(limit, at, all, [])
  {
  }

  lemma {:induction false} TrimmedMore(limit: nat, at: Router, all: seq<Entry>, v: seq<Entry>, taken: seq<Entry>,
                                       done: set<nat>, n: nat)
    requires Trimmed(limit, at, all, v, done) && n !in done && taken <= Low(limit, at, all, n)
    ensures Bounded(limit, at, all, v + taken)
    ensures taken == Low(limit, at, all, n) ==> Trimmed(limit, at, all, v + taken, done + {n})
  {
    hide Part;
    PartMembers(at, all, n);
    forall i: nat ensures Part(at, v + taken, i) == Part(at, v, i) + if i == n then taken else [] {
      PartAppend(at, v, taken, i);
      assert forall e :: e in taken ==> e in Part(at, all, n);
      PartUniform(at, taken, n, i);
    }
  }

  lemma {:induction false} PartUnused(at: Router, list: seq<Entry>, i: nat)
    requires forall e :: e in list ==> at(e.key) != i
    ensures Part(at, list, i) == []
    decreases |list|
  {
    if list != [] {
      PartUnused(at, list[..|list| - 1], i);
    }
  }

  lemma {:induction false} SameVictims(limit: nat, at: Router, all: seq<Entry>, v: seq<Entry>, done: set<nat>,
                                       clean: bool)
    requires Bounded(limit, at, all, v)
    requires clean ==> Trimmed(limit, at, all, v, done) && forall i: nat :: i in done || Low(limit, at, all, i) == []
    ensures SameAs(limit, at, all, v, clean)
  {
    hide Part, Chosen;
    var w := Victims(ShardOnly(limit), at, all);
    forall i: nat ensures Part(at, w, i) == Low(limit, at, all, i) {
      VictimsAreSurplus(ShardOnly(limit), at, all, i);
    }
    if clean {
      forall e ensures e in v <==> e in w {
        PartMembers(at, v, at(e.key));
        PartMembers(at, w, at(e.key));
      }
      assert KeysOf(v) == KeysOf(w);
    }
  }

  // ------------------------------------------------------- the asynchronous per-shard pass

  /** The overfull shards, each with all its candidates, planned before the first deletion. */
  ghost predicate Planned(limit: nat, at: Router, all: seq<Entry>, plans: seq<(nat, seq<Entry>)>, count: nat) {
    && (forall n :: 0 <= n < |plans| ==> plans[n].0 < count && plans[n].1 == Part(at, all, plans[n].0))
    && (forall a, b :: 0 <= a < b < |plans| ==> plans[a].0 < plans[b].0)
  }

  ghost predicate AllPlanned(limit: nat, at: Router, all: seq<Entry>, plans: seq<(nat, seq<Entry>)>, n: nat) {
    forall i: nat :: i < n && |Part(at, all, i)| > limit ==> exists x :: 0 <= x < |plans| && plans[x].0 == i
  }

  /** Locks the overfull shards in ascending order and samples their candidates. */
  method PlanShards(m: StarMap, s: LifecycleState, p: Policy, limit: nat, ghost weigh: Weigher, ghost at: Router,
                    ghost all: seq<Entry>)
    returns (plans: seq<(nat, seq<Entry>)>)
    requires Passing(m, s, weigh, at, all, [], m.logical) && !s.Dirty() && Ranked(p, all)
    requires m.previousShardCount == 0 && m.shardCount > 0 && at == RouterOf(m.hash, m.shardCount)
    ensures Planned(limit, at, all, plans, m.shardCount) && AllPlanned(limit, at, all, plans, m.shardCount)
  {
    hide Passing, Part, Ranked;
    assert Part(at, [], 0) == [] && forall i: nat :: Part(at, [], i) == [] by { EmptyTotals(at); }
    ghost var none: seq<Entry> := [];
    plans := [];
    var i := 0;
    while i < m.shardCount
      invariant 0 <= i <= m.shardCount && Planned(limit, at, all, plans, i) && AllPlanned(limit, at, all, plans, i)
    {
      assert none + [] == none;
      LocalSize(m, s, weigh, at, all, none, [], m.logical, i);
      if |TableOf(m.active[i])| > limit {
        var list := ShardCandidates(m, s, p, i, weigh, at, all, [], m.logical);
        PlannedMore(limit, at, all, plans, i, list);
        plans := plans + [(i, list)];
      }
      i := i + 1;
    }
  }

  lemma PlannedMore(limit: nat, at: Router, all: seq<Entry>, plans: seq<(nat, seq<Entry>)>, i: nat, list: seq<Entry>)
    requires Planned(limit, at, all, plans, i) && AllPlanned(limit, at, all, plans, i) && list == Part(at, all, i)
    ensures Planned(limit, at, all, plans + [(i, list)], i + 1) &&
            AllPlanned(limit, at, all, plans + [(i, list)], i + 1)
  {
    hide Part;
    var more := plans + [(i, list)];
    forall j: nat | j < i + 1 && |Part(at, all, j)| > limit ensures exists x :: 0 <= x < |more| && more[x].0 == j {
      if j < i {
        var x :| 0 <= x < |plans| && plans[x].0 == j;
        assert more[x].0 == j;
      } else {
        assert more[|plans|].0 == j;
      }
    }
  }

  /** The shards of the first `n` plans. */
  function PlanIndices(plans: seq<(nat, seq<Entry>)>, n: nat): set<nat>
    requires n <= |plans|
  {
    set x | 0 <= x < n :: plans[x].0
  }

  /** The asynchronous per-shard pass evicts the same victims, after planning every overfull shard. */
  method PerShardPass(m: StarMap, s: LifecycleState, p: Policy, limit: nat, failures: nat -> Option<nat>,
                      ghost weigh: Weigher, ghost all: seq<Entry>) returns (victims: seq<Entry>)
    requires m.Valid() && s.Valid() && !s.Dirty() && Agree(m.logical, s.tracked, weigh) && Order(p, all, s.tracked)
    requires m.previousShardCount == 0
    modifies m`active, m`previous, m`waiting, m`totalLen, m`writeEpoch, m`logical
    modifies s`stripes, s`entries, s`tracked, s`dirtyEpoch, s`workEpoch
    ensures m.shardCount > 0 && Passing(m, s, weigh, RouterOf(m.hash, m.shardCount), all, victims, old(m.logical))
    ensures var at := RouterOf(m.hash, m.shardCount); SameAs(limit, at, all, victims, !s.Dirty())
  {
    hide StarMap.Valid, LifecycleState.Valid, Agree, Passing, Part, Lists, Ranked;
    HasShards(m);
    ghost var at := RouterOf(m.hash, m.shardCount);
    PassingStart(m, s, p, weigh, at, all);
    var plans := PlanShards(m, s, p, limit, weigh, at, all);
    victims := [];
    NothingTrimmed(limit, at, all);
    var n := 0;
    while n < |plans|
      invariant 0 <= n <= |plans|
      invariant Bounded(limit, at, all, victims) &&
                (!s.Dirty() ==> Trimmed(limit, at, all, victims, PlanIndices(plans, n)))
      invariant Passing(m, s, weigh, at, all, victims, old(m.logical))
    {
      assert PlanIndices(plans, n + 1) == PlanIndices(plans, n) + {plans[n].0};
      if !s.Dirty() {
        var (i, list) := plans[n];
        assert i !in PlanIndices(plans, n);
        var taken := TrimShard(m, s, limit, i, list, s.epoch, failures(i), weigh, at, all, victims, old(m.logical));
        TrimmedMore(limit, at, all, victims, taken, PlanIndices(plans, n), i);
        victims := victims + taken;
      }
      n := n + 1;
    }
    PlansComplete(limit, at, all, plans, m.shardCount);
    SameVictims(limit, at, all, victims, PlanIndices(plans, n), !s.Dirty());
  }

  lemma PlansComplete(limit: nat, at: Router, all: seq<Entry>, plans: seq<(nat, seq<Entry>)>, count: nat)
    requires AllPlanned(limit, at, all, plans, count) && forall k :: at(k) < count
    ensures forall i: nat :: i in PlanIndices(plans, |plans|) || Low(limit, at, all, i) == []
  {
    hide Part;
    forall i: nat ensures i in PlanIndices(plans, |plans|) || Low(limit, at, all, i) == [] {
      if i >= count {
        PartUnused(at, all, i);
      } else if |Part(at, all, i)| > limit {
        var x :| 0 <= x < |plans| && plans[x].0 == i;
      }
    }
  }
}
