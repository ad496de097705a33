/** Maintenance: repairing the index after a failure, and enforcing the configured limits. */
module EvictionMaintenance {
  import opened Domain
  import opened Routing
  import opened ShardedMap
  import opened EvictionIndex
  import opened EvictionOrder
  import opened EvictionVictims
  import opened EvictionPasses
  import opened EvictionRuns
  import opened EvictionLocal
  import EvictionRetry
  import WholeMap

  /** Every index has an eviction order. */
  lemma {:induction false} OrderExists(p: Policy, m: Index, sequence: nat) returns (list: seq<Entry>)
    requires Stamped(m, sequence) && forall k :: k in m ==> m[k].key == k
    ensures Order(p, list, m)
    decreases m.Keys
  {
    if m == map[] {
      list := [];
    } else {
      var k :| k in m;
      var rest := OrderExists(p, m - {k}, sequence);
      forall x | x in rest ensures Less(p, x, m[k]) || Less(p, m[k], x) {
        assert Lookup(m - {k}, x.key) == Some(x);
        RankTotal(p, m, sequence, x.key, k);
      }
      PlaceRanks(p, rest, m[k]);
      list := Place(p, rest, m[k]);
      forall e ensures e in list <==> Lookup(m, e.key) == Some(e) {
        assert e in rest <==> Lookup(m - {k}, e.key) == Some(e);
      }
      RankedDistinct(p, list, m);
    }
  }

  /** The live entries with their weights, as a stable scan lists them. */
  method ScanWeights(m: StarMap, weigh: Weigher) returns (live: seq<(Key, nat)>)
    requires m.Valid()
    ensures forall i, j :: 0 <= i < j < |live| ==> live[i].0 != live[j].0
    ensures forall k :: k in m.logical <==> exists i :: 0 <= i < |live| && live[i].0 == k
    ensures forall i :: 0 <= i < |live| ==>
            live[i].0 in m.logical && live[i].1 == weigh(live[i].0, m.logical[live[i].0])
  {
    hide Stands;
    var _, items := WholeMap.CollectInto(m);
    live := [];
    while |live| < |items|
      invariant |live| <= |items|
      invariant forall i :: 0 <= i < |live| ==> live[i] == (items[i].0, weigh(items[i].0, items[i].1))
    {
      var (k, v) := items[|live|];
      live := live + [(k, weigh(k, v))];
    }
    forall i | 0 <= i < |live| ensures live[i].0 in m.logical && live[i].1 == weigh(live[i].0, m.logical[live[i].0]) {
      assert items[i] in items;
    }
    forall k | k in m.logical ensures exists i :: 0 <= i < |live| && live[i].0 == k {
      EnumeratedKey(items, m.logical, k);
      var i :| 0 <= i < |items| && items[i] == (k, m.logical[k]);
      assert live[i].0 == k;
    }
  }

  lemma RebuiltAgrees(logical: Table, live: seq<(Key, nat)>, tracked: Index, weigh: Weigher)
    requires Rebuilt(live, |live|, tracked)
    requires forall k :: k in logical <==> exists i :: 0 <= i < |live| && live[i].0 == k
    requires forall i :: 0 <= i < |live| ==> live[i].0 in logical && live[i].1 == weigh(live[i].0, logical[live[i].0])
    ensures Agree(logical, tracked, weigh)
  {
    forall k | k in tracked ensures k in logical && tracked[k].weight == weigh(k, logical[k]) {
      var i :| 0 <= i < |live| && live[i].0 == k;
    }
  }

  /**
   * Repairs the index when it is dirty, whatever hooks were skipped before: afterwards it agrees with the
   * map again, and carried records keep their age, recency and frequency.
   */
  method RepairIndex(m: StarMap, s: LifecycleState, weigh: Weigher)
    requires m.Valid() && s.Valid() && (!s.Dirty() ==> Agree(m.logical, s.tracked, weigh))
    modifies s`stripes, s`entries, s`sequence, s`tracked, s`epoch, s`repairedEpoch
    ensures s.Valid() && !s.Dirty() && Agree(m.logical, s.tracked, weigh)
    ensures old(s.Dirty()) ==> s.epoch == old(s.epoch) + 1 && AllCarried(old(s.tracked), s.tracked, old(s.sequence))
    ensures !old(s.Dirty()) ==> s.tracked == old(s.tracked) && s.epoch == old(s.epoch)
    ensures forall c :: old(s.Genuine(c)) ==> s.Genuine(c)
  {
    hide StarMap.Valid, LifecycleState.Valid, Rebuilt, Agree, AllCarried;
    if !s.Dirty() {
      return;
    }
    var live := ScanWeights(m, weigh);
    s.Reconcile(live);
    RebuiltAgrees(m.logical, live, s.tracked, weigh);
  }

  /** The requested target never loosens the configured one. */
  function Target(requested: Option<nat>, configured: Option<nat>): (t: Option<nat>)
    ensures requested.Some? && configured.Some? ==>
              t.Some? && t.value <= requested.value && t.value <= configured.value &&
                  (t == requested || t == configured)
    ensures requested.None? ==> t == configured
    ensures configured.None? ==> t == requested
  {
    if requested.Some? && configured.Some? then
      if requested.value < configured.value then requested else configured
    else if requested.Some? then requested else configured
  }

  /**
   * The exclusive pass after whatever repair is due, with `all` the eviction order of the repaired index: what
   * goes is the first part of its victims, and nothing else. All of them go, and the limits are met, if and only
   * if no failure is marked up to the last look that is needed; a failure marked during the repair counts as
   * marked before look 0.
   */
  method EnforceExclusively(m: StarMap, s: LifecycleState, p: Policy, limits: Limits, weigh: Weigher,
                            marked: nat -> bool)
    returns (observed: nat, ghost repaired: Index, ghost all: seq<Entry>, ghost victims: seq<Entry>)
    requires m.Valid() && s.Valid() && (!s.Dirty() ==> Agree(m.logical, s.tracked, weigh))
    modifies m`active, m`previous, m`waiting, m`totalLen, m`writeEpoch, m`logical
    modifies s`stripes, s`entries, s`sequence, s`tracked, s`epoch, s`repairedEpoch, s`workEpoch, s`dirtyEpoch
    ensures m.Valid() && s.Valid() && Agree(m.logical, s.tracked, weigh) && Submap(m.logical, old(m.logical))
    ensures observed <= s.workEpoch && (!s.Dirty() ==> observed == s.workEpoch)
    ensures Order(p, all, repaired) && Agree(old(m.logical), repaired, weigh)
    ensures if old(s.Dirty()) then AllCarried(old(s.tracked), repaired, old(s.sequence)) else repaired == old(s.tracked)
    ensures m.shardCount > 0
    ensures var at := RouterOf(m.hash, m.shardCount);
            && (!s.Dirty() ==> Satisfied(limits, m.logical, s.tracked, at))
            && (Satisfied(limits, m.logical, s.tracked, at) <==> InTime(marked, Needed(limits, at, all, all, |all|)))
            && m.logical == Without(old(m.logical), KeysOf(victims)) && victims <= Victims(limits, at, all)
            && (victims == Victims(limits, at, all) <==> InTime(marked, Needed(limits, at, all, all, |all|)))
            && Takes(p, limits, at, old(m.logical), repaired, all, KeysOf(victims), m.logical, !s.Dirty())
    ensures KeepAges(repaired, s.tracked)
    ensures (forall n: nat :: !marked(n)) ==> !s.Dirty()
  {
    hide StarMap.Valid, LifecycleState.Valid, Agree, Passing, Order, Within, Satisfied, AllCarried, Chosen, Needed,
        Submap;
    hide InTime, Takes, KeysOf, KeepAges;
    HasShards(m);
    ghost var at := RouterOf(m.hash, m.shardCount);
    s.MarkPending();
    RepairIndex(m, s, weigh);
    observed := s.workEpoch;
    repaired := s.tracked;
    Tracked(s);
    all := SomeOrder(p, s);
    victims := ExclusivePass(m, s, p, limits, marked, weigh, all);
    PassingLength(m, s, weigh, at, all, victims, old(m.logical));
    PassingSubmap(m, s, weigh, at, all, victims, old(m.logical));
    ExclusiveTakes(m, s, p, limits, weigh, at, old(m.logical), repaired, all, victims, !s.Dirty());
    StillThere(m, s, p, weigh, at, all, victims, old(m.logical), repaired);
  }

  /**
   * What a pass in the order `order` of the records `index` took: `gone` and nothing else, only victims, and all
   * of them if it was clean.
   */
  ghost predicate Takes(p: Policy, limits: Limits, at: Router, before: Table, index: Index, order: seq<Entry>,
                        gone: set<Key>, after: Table, clean: bool) {
    && Order(p, order, index) && (forall k :: k in index ==> index[k].key == k)
    && after == Without(before, gone)
    && gone <= KeysOf(Victims(limits, at, order))
    && (clean ==> gone == KeysOf(Victims(limits, at, order)))
  }

  lemma ExclusiveTakes(m: StarMap, s: LifecycleState, p: Policy, limits: Limits, weigh: Weigher, at: Router,
                       start: Table, index: Index, all: seq<Entry>, v: seq<Entry>, clean: bool)
    requires Passing(m, s, weigh, at, all, v, start) && Order(p, all, index)
    requires v <= Victims(limits, at, all) && (clean ==> v == Victims(limits, at, all))
    requires forall k :: k in index ==> index[k].key == k
    ensures m.logical == Without(start, KeysOf(v))
    ensures Takes(p, limits, at, start, index, all, KeysOf(v), m.logical, clean)
  {
    hide StarMap.Valid, LifecycleState.Valid, Midway, Agree, Order, Chosen;
  }

  /** The records that are left have their age, recency and frequency. */
  ghost predicate KeepAges(before: Index, after: Index) {
    forall k :: k in after ==>
        && k in before && after[k].inserted == before[k].inserted && after[k].accessed == before[k].accessed
        && after[k].frequency == before[k].frequency
  }

  lemma KeepAgesTwice(a: Index, b: Index, c: Index)
    requires KeepAges(a, b) && KeepAges(b, c)
    ensures KeepAges(a, c)
  {
  }

  /** Nothing goes if and only if the limits already hold. */
  lemma NothingToTake(p: Policy, limits: Limits, at: Router, logical: Table, index: Index, order: seq<Entry>,
                      weigh: Weigher)
    requires Order(p, order, index) && Agree(logical, index, weigh) && forall k :: k in index ==> index[k].key == k
    ensures Satisfied(limits, logical, index, at) <==> Victims(limits, at, order) == []
  {
    hide Order, Part, Sum, Chosen, AtShard;
    MidwayStart(p, index, at, order);
    assert logical.Keys == index.Keys && |logical.Keys| == |logical| && |index.Keys| == |index|;
    OnlyAllVictimsSuffice(limits, at, order, []);
    NoneCounted(at);
    forall i: nat
      ensures OverShard(limits, at, order, [], i) <==>
              limits.perShard.Some? && |AtShard(index, at, i)| > limits.perShard.value
    {
      assert |AtShard(index, at, i)| + |Part(at, [], i)| == |Part(at, order, i)|;
    }
  }

  lemma NoneCounted(at: Router)
    ensures Sum([]) == 0 && forall i :: Part(at, [], i) == []
  {
  }

  /** A pass over limits that already hold leaves the map as it is. */
  lemma TakesNothing(p: Policy, limits: Limits, at: Router, before: Table, index: Index, order: seq<Entry>,
                     gone: set<Key>, after: Table, clean: bool, weigh: Weigher)
    requires Takes(p, limits, at, before, index, order, gone, after, clean) && Agree(before, index, weigh)
    ensures Satisfied(limits, before, index, at) ==> after == before
  {
    hide Order, Agree, Satisfied, Chosen;
    NothingToTake(p, limits, at, before, index, order, weigh);
    if Satisfied(limits, before, index, at) {
      assert gone == {};
      SameLookups(after, before);
    }
  }

  /** What is left in the index halfway through a pass was there before. */
  lemma StillThere(m: StarMap, s: LifecycleState, p: Policy, weigh: Weigher, at: Router, all: seq<Entry>,
                   v: seq<Entry>, start: Table, tracked: Index)
    requires Passing(m, s, weigh, at, all, v, start) && Order(p, all, tracked)
    ensures m.logical == Without(start, KeysOf(v)) && Agree(m.logical, s.tracked, weigh)
    ensures forall k :: k in s.tracked ==> Lookup(tracked, k) == Some(s.tracked[k])
    ensures KeepAges(tracked, s.tracked)
  {
    hide StarMap.Valid, Counted, Striped, Stamped, Ranked, Agree;
    forall k | k in s.tracked ensures Lookup(tracked, k) == Some(s.tracked[k]) {
      assert s.tracked[k] in all;
    }
  }

  /** A rebuild of what is left carries over what there was. */
  lemma CarriedThrough(before: Index, left: Index, after: Index, start: nat, logical: Table, weigh: Weigher)
    requires (forall k :: k in left ==> Lookup(before, k) == Some(left[k])) && AllCarried(left, after, start)
    requires Agree(logical, left, weigh) && Agree(logical, after, weigh)
    ensures AllCarried(before, after, start) && KeepAges(before, after)
  {
    forall k | k in after ensures after[k].key == k && Carried(before, after[k], start) {
      assert k in left && Carried(left, after[k], start);
    }
  }

  /** An interrupted shard-local pass and the exclusive one after the repair take together what either takes alone. */
  lemma RetryTakes(p: Policy, limit: nat, at: Router, weigh: Weigher, before: Table, tracked: Index, all: seq<Entry>,
                   v: seq<Entry>, mid: Table, index: Index, all': seq<Entry>, gone: set<Key>, after: Table,
                   clean: bool, start: nat)
    requires Order(p, all, tracked) && Stamped(tracked, start) && Agree(before, tracked, weigh)
    requires forall k :: k in tracked ==> tracked[k].key == k
    requires SameAs(limit, at, all, v, false) && mid == Without(before, KeysOf(v))
    requires Agree(mid, index, weigh) && AllCarried(tracked, index, start)
    requires Takes(p, ShardOnly(limit), at, mid, index, all', gone, after, clean)
    ensures Takes(p, ShardOnly(limit), at, before, tracked, all, KeysOf(v) + gone, after, clean)
  {
    hide Order, Stamped, SameAs, AllCarried, Chosen;
    forall k ensures k in index <==> k in tracked && k !in KeysOf(v) {
      assert k in index <==> k in mid;
    }
    assert EvictionRetry.Remains(tracked, v, index, start);
    EvictionRetry.RetryFinishes(p, limit, at, tracked, all, v, index, all', start);
    WholeMap.WithoutTwice(before, KeysOf(v), gone);
  }

  /**
   * The pass itself: shard-local when only shard sizes matter, exclusive after a repair otherwise, or when
   * a failure was marked during the shard-local one. Whichever it is, in whatever parts, it takes victims of the
   * order of one index only: of the repaired one if it began dirty, of the one it found otherwise.
   */
  method EnforceLimits(m: StarMap, s: LifecycleState, p: Policy, limits: Limits, weigh: Weigher,
                       failures: nat -> Option<nat>, marked: nat -> bool)
    returns (observed: nat, ghost index: Index, ghost order: seq<Entry>, ghost gone: set<Key>)
    requires m.Valid() && s.Valid() && (!s.Dirty() ==> Agree(m.logical, s.tracked, weigh))
    modifies m`active, m`previous, m`waiting, m`totalLen, m`writeEpoch, m`logical
    modifies s`stripes, s`entries, s`sequence, s`tracked, s`epoch, s`repairedEpoch, s`workEpoch, s`dirtyEpoch
    ensures m.Valid() && s.Valid() && Agree(m.logical, s.tracked, weigh) && Submap(m.logical, old(m.logical))
    ensures observed <= s.workEpoch && (!s.Dirty() ==> observed == s.workEpoch)
    ensures m.shardCount > 0
    ensures !s.Dirty() ==> Satisfied(limits, m.logical, s.tracked, RouterOf(m.hash, m.shardCount))
    ensures (forall n: nat :: !marked(n)) ==> !s.Dirty()
    ensures Agree(old(m.logical), index, weigh)
    ensures if old(s.Dirty()) then AllCarried(old(s.tracked), index, old(s.sequence)) else index == old(s.tracked)
    ensures Takes(p, limits, RouterOf(m.hash, m.shardCount), old(m.logical), index, order, gone, m.logical, !s.Dirty())
    ensures KeepAges(index, s.tracked)
  {
    hide StarMap.Valid, LifecycleState.Valid, Agree, Passing, Order, Within, Satisfied, Chosen, Needed, Submap, SameAs;
    hide AllCarried, InTime, KeepAges;
    HasShards(m);
    ghost var at := RouterOf(m.hash, m.shardCount);
    ghost var first := m.logical;
    SubmapSame(m.logical);
    if limits.count.None? && limits.budget.None? && limits.perShard.Some? && !s.Dirty() && m.previousShardCount == 0 {
      s.MarkPending();
      observed := s.workEpoch;
      index := s.tracked;
      order := SomeOrder(p, s);
      Tracked(s);
      var victims := LocalPass(m, s, p, limits.perShard.value, failures, weigh, order);
      gone := KeysOf(victims);
      PassingLength(m, s, weigh, at, order, victims, first);
      PassingSubmap(m, s, weigh, at, order, victims, first);
      StillThere(m, s, p, weigh, at, order, victims, first, index);
      if !s.Dirty() {
        LocalWithin(limits, at, order, victims);
        PassingSatisfied(m, s, weigh, at, order, victims, first, limits);
        LocalTakes(limits, at, order, victims);
        return;
      }
      ghost var second, left := m.logical, s.tracked;
      var seen, repaired, rest, more := EnforceExclusively(m, s, p, limits, weigh, marked);
      observed := seen;
      SubmapTwice(m.logical, second, first);
      CarriedThrough(index, left, repaired, old(s.sequence), second, weigh);
      PartsOf(limits.perShard.value, at, order, victims);
      RetryTakes(p, limits.perShard.value, at, weigh, first, index, order, victims, second, repaired, rest,
                 KeysOf(more), m.logical, !s.Dirty(), old(s.sequence));
      KeepAgesTwice(index, repaired, s.tracked);
      gone := gone + KeysOf(more);
      return;
    }
    var seen, repaired, all, victims := EnforceExclusively(m, s, p, limits, weigh, marked);
    observed, index, order, gone := seen, repaired, all, KeysOf(victims);
  }

  lemma Tracked(s: LifecycleState)
    requires s.Valid()
    ensures Stamped(s.tracked, s.sequence) && forall k :: k in s.tracked ==> s.tracked[k].key == k
  {
  }

  lemma PartsOf(limit: nat, at: Router, all: seq<Entry>, v: seq<Entry>)
    requires exists clean :: SameAs(limit, at, all, v, clean)
    ensures SameAs(limit, at, all, v, false)
  {
    hide Part, Chosen;
  }

  lemma LocalTakes(limits: Limits, at: Router, all: seq<Entry>, v: seq<Entry>)
    requires limits.count.None? && limits.budget.None? && limits.perShard.Some?
    requires SameAs(limits.perShard.value, at, all, v, true)
    ensures KeysOf(v) == KeysOf(Victims(limits, at, all))
  {
    hide Part, Chosen;
    assert limits == ShardOnly(limits.perShard.value);
  }

  /** The smallest case in which a late failure mark defeats the pass: one entry too many. */
  lemma OneTooMany(at: Router, all: seq<Entry>, marked: nat -> bool)
    requires |all| == 1
    ensures var limits := Limits(Some(0), None, None);
            && Victims(limits, at, all) == all && Needed(limits, at, all, all, 1) == 1
            && (InTime(marked, 1) <==> !marked(0) && !marked(1))
            && (PlanInTime(marked, limits, at, all) <==> !marked(0) && !marked(1) && !marked(2))
  {
    var limits := Limits(Some(0), None, None);
    assert OnlyOne(limits, |all|);
    MinimumSuffices(limits, at, all);
    assert all == [all[0]];
  }

  /**
   * A failure that an operation marks after releasing routing, in the middle of another thread's exclusive
   * pass, makes the pass return over its limit, with the work still pending.
   */
  method MarkedTooEarly(m: StarMap, s: LifecycleState, p: Policy, marked: nat -> bool, ghost weigh: Weigher)
    requires m.Valid() && s.Valid() && !s.Dirty() && Agree(m.logical, s.tracked, weigh)
    requires m.totalLen == 1 && (marked(0) || marked(1))
    modifies m`active, m`previous, m`waiting, m`totalLen, m`writeEpoch, m`logical
    modifies s`stripes, s`entries, s`tracked, s`dirtyEpoch, s`workEpoch
    ensures m.shardCount > 0 && s.Pending()
    ensures !Satisfied(Limits(Some(0), None, None), m.logical, s.tracked, RouterOf(m.hash, m.shardCount))
  {
    hide StarMap.Valid, LifecycleState.Valid, Agree, Passing, Order, Satisfied, Chosen, Needed;
    HasShards(m);
    ghost var at := RouterOf(m.hash, m.shardCount);
    ghost var all := SomeOrder(p, s);
    PassingStart(m, s, p, weigh, at, all);
    PassingTotals(m, s, weigh, at, all, [], m.logical, 0);
    OneTooMany(at, all, marked);
    var victims := ExclusivePass(m, s, p, Limits(Some(0), None, None), marked, weigh, all);
    assert s.Dirty();
  }

  /** Every binding of `a` is one of `b`. */
  ghost predicate Submap(a: Table, b: Table) {
    forall k :: k in a ==> Lookup(a, k) == Lookup(b, k)
  }

  lemma SubmapSame(a: Table)
    ensures Submap(a, a)
  {
  }

  lemma SubmapTwice(a: Table, b: Table, c: Table)
    requires Submap(a, b) && Submap(b, c)
    ensures Submap(a, c)
  {
    forall k | k in a ensures Lookup(a, k) == Lookup(c, k) {
      assert Lookup(a, k) == Lookup(b, k);
      assert k in b;
    }
  }

  /**
   * A maintenance pass from any state. Whatever failures came before it or interrupt its shard-local part, it
   * ends with the index in agreement with the map and only evicted entries gone. Unless a failure is marked
   * during its exclusive part, every limit holds and nothing is pending; if one is, the work stays pending.
   */
  method RunEviction(m: StarMap, s: LifecycleState, p: Policy, requested: Option<nat>, config: Limits, weigh: Weigher,
                     failures: nat -> Option<nat>, marked: nat -> bool)
    returns (ghost index: Index, ghost order: seq<Entry>, ghost gone: set<Key>)
    requires m.Valid() && s.Valid() && (!s.Dirty() ==> Agree(m.logical, s.tracked, weigh))
    modifies m`active, m`previous, m`waiting, m`totalLen, m`writeEpoch, m`logical, s
    ensures m.Valid() && s.Valid() && Agree(m.logical, s.tracked, weigh) && Submap(m.logical, old(m.logical))
    ensures m.shardCount > 0
    ensures !s.Dirty() ==>
              !s.Pending() && Satisfied(config.(count := Target(requested, config.count)), m.logical, s.tracked,
                                        RouterOf(m.hash, m.shardCount))
    ensures s.Dirty() ==> s.Pending() && exists n: nat :: marked(n)
    ensures Agree(old(m.logical), index, weigh)
    ensures if old(s.Dirty()) then AllCarried(old(s.tracked), index, old(s.sequence)) else index == old(s.tracked)
    ensures var limits, at := config.(count := Target(requested, config.count)), RouterOf(m.hash, m.shardCount);
            && Takes(p, limits, at, old(m.logical), index, order, gone, m.logical, !s.Dirty())
            && (Satisfied(limits, old(m.logical), index, at) ==> m.logical == old(m.logical))
    ensures KeepAges(index, s.tracked)
  {
    hide StarMap.Valid, LifecycleState.Valid, Agree, Satisfied, Submap, Takes, AllCarried, Order, Chosen;
    HasShards(m);
    SubmapSame(m.logical);
    var limits := config.(count := Target(requested, config.count));
    var over := OverBudget(s, limits);
    if !s.Dirty() && limits.perShard.None? && !over && (limits.count.None? || m.totalLen <= limits.count.value) {
      AlreadySatisfied(m, s, limits, RouterOf(m.hash, m.shardCount));
      index, gone := s.tracked, {};
      order := SomeOrder(p, s);
      Tracked(s);
      NoneTaken(p, limits, RouterOf(m.hash, m.shardCount), m.logical, index, order, weigh);
      s.MarkMaintained(s.workEpoch);
      return;
    }
    var observed, repaired, all, taken := EnforceLimits(m, s, p, limits, weigh, failures, marked);
    index, order, gone := repaired, all, taken;
    TakesNothing(p, limits, RouterOf(m.hash, m.shardCount), old(m.logical), index, order, gone, m.logical, !s.Dirty(),
                 weigh);
    s.MarkMaintained(observed);
    if !s.Dirty() {
      Acknowledged(s);
    }
  }

  lemma NoneTaken(p: Policy, limits: Limits, at: Router, logical: Table, index: Index, order: seq<Entry>,
                  weigh: Weigher)
    requires Order(p, order, index) && Agree(logical, index, weigh) && Satisfied(limits, logical, index, at)
    requires forall k :: k in index ==> index[k].key == k
    ensures Takes(p, limits, at, logical, index, order, {}, logical, true)
  {
    hide Order, Agree, Satisfied, Chosen;
    NothingToTake(p, limits, at, logical, index, order, weigh);
    SameLookups(Without(logical, {}), logical);
  }

  lemma AlreadySatisfied(m: StarMap, s: LifecycleState, limits: Limits, at: Router)
    requires m.Valid() && limits.perShard.None?
    requires limits.count.Some? ==> m.totalLen <= limits.count.value
    requires limits.budget.Some? ==> WeightOf(s.tracked) <= limits.budget.value
    ensures Satisfied(limits, m.logical, s.tracked, at)
  {
  }

  /** A pass that acknowledged all work leaves nothing pending. */
  lemma Acknowledged(s: LifecycleState)
    requires s.Valid() && !s.Dirty() && s.maintainedEpoch >= s.workEpoch
    ensures !s.Pending()
  {
  }

  lemma SomeOrder(p: Policy, s: LifecycleState) returns (all: seq<Entry>)
    requires s.Valid()
    ensures Order(p, all, s.tracked)
  {
    all := OrderExists(p, s.tracked, s.sequence);
  }

  lemma LocalWithin(limits: Limits, at: Router, all: seq<Entry>, v: seq<Entry>)
    requires limits.count.None? && limits.budget.None? && limits.perShard.Some?
    requires SameAs(limits.perShard.value, at, all, v, true)
    ensures Within(limits, at, all, v)
  {
    hide Part, Chosen;
    var w := Victims(limits, at, all);
    VictimsSuffice(limits, at, all);
    assert limits == ShardOnly(limits.perShard.value);
    forall i: nat ensures !OverShard(limits, at, all, v, i) {
      assert !OverShard(limits, at, all, w, i);
    }
  }

  lemma PassingSubmap(m: StarMap, s: LifecycleState, weigh: Weigher, at: Router, all: seq<Entry>, v: seq<Entry>,
                      start: Table)
    requires Passing(m, s, weigh, at, all, v, start)
    ensures Submap(m.logical, start)
  {
    hide StarMap.Valid, LifecycleState.Valid, Midway;
    forall k | k in m.logical ensures Lookup(m.logical, k) == Lookup(start, k) {
      assert Lookup(m.logical, k) == if k in KeysOf(v) then None else Lookup(start, k);
    }
  }
}
