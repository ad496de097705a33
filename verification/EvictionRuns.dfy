/** Complete eviction passes, their agreement with each other, and maintenance after a failure. */
module EvictionRuns {
  import opened Domain
  import opened Routing
  import opened ShardedMap
  import opened EvictionIndex
  import opened EvictionOrder
  import opened EvictionVictims
  import opened EvictionPasses

  /** Every limit holds of the map and its index. */
  ghost predicate Satisfied(limits: Limits, logical: Table, tracked: Index, at: Router) {
    && (limits.count.Some? ==> |logical| <= limits.count.value)
    && (limits.budget.Some? ==> WeightOf(tracked) <= limits.budget.value)
    && (limits.perShard.Some? ==> forall i :: |AtShard(tracked, at, i)| <= limits.perShard.value)
  }

  /** The limits hold of the map and its index exactly when what was taken suffices. */
  lemma PassingSatisfied(m: StarMap, s: LifecycleState, weigh: Weigher, at: Router, all: seq<Entry>, v: seq<Entry>,
                         start: Table, limits: Limits)
    requires Passing(m, s, weigh, at, all, v, start)
    ensures Satisfied(limits, m.logical, s.tracked, at) <==> Within(limits, at, all, v)
  {
    hide Passing, Part, Sum, AtShard;
    PassingTotals(m, s, weigh, at, all, v, start, 0);
    assert |m.logical| == m.totalLen by { PassingLength(m, s, weigh, at, all, v, start); }
    forall i: nat
      ensures limits.perShard.Some? ==>
              (|AtShard(s.tracked, at, i)| <= limits.perShard.value <==> !OverShard(limits, at, all, v, i))
    {
      PassingTotals(m, s, weigh, at, all, v, start, i);
    }
  }

  lemma PassingLength(m: StarMap, s: LifecycleState, weigh: Weigher, at: Router, all: seq<Entry>, v: seq<Entry>,
                      start: Table)
    requires Passing(m, s, weigh, at, all, v, start)
    ensures |m.logical| == m.totalLen && s.Valid() && m.Valid() && Agree(m.logical, s.tracked, weigh)
  {
  }

  lemma PassingStart(m: StarMap, s: LifecycleState, p: Policy, weigh: Weigher, at: Router, all: seq<Entry>)
    requires m.Valid() && s.Valid() && Agree(m.logical, s.tracked, weigh) && Order(p, all, s.tracked)
    ensures Passing(m, s, weigh, at, all, [], m.logical)
  {
    hide Stands, Enumerates, Striped, Stamped;
    MidwayStart(p, s.tracked, at, all);
    assert KeysOf([]) == {};
    SameLookups(Without(m.logical, {}), m.logical);
  }

  // ----------------------------------------------------------------------- exclusive pass

  /**
   * Checks and removes candidate by candidate. Once another thread marks a failure, validation rejects every
   * later candidate, so the victims are the first of those chosen.
   */
  method RemoveExcess(m: StarMap, s: LifecycleState, limits: Limits, c: seq<Entry>, tally0: seq<nat>, overWeight0: bool,
                      sampled: nat, marked: nat -> bool,
                      ghost weigh: Weigher, ghost at: Router, ghost all: seq<Entry>) returns (victims: seq<Entry>)
    requires Passing(m, s, weigh, at, all, [], m.logical) && !s.Dirty() && m.shardCount > 0 &&
             at == RouterOf(m.hash, m.shardCount) && sampled == s.epoch
    requires Distinct(c) && forall e :: e in c ==> e in all
    requires Tallied(limits, at, s.tracked, tally0, m.shardCount) && overWeight0 == OverWeight(limits, all, [])
    modifies m`active, m`previous, m`waiting, m`totalLen, m`writeEpoch, m`logical
    modifies s`stripes, s`entries, s`tracked, s`dirtyEpoch, s`workEpoch
    ensures victims <= Chosen(limits, at, all, c, |c|) && Passing(m, s, weigh, at, all, victims, old(m.logical))
    ensures !s.Dirty() ==> victims == Chosen(limits, at, all, c, |c|) && s.workEpoch == old(s.workEpoch)
    ensures s.workEpoch >= old(s.workEpoch) && (s.Dirty() ==> exists n: nat :: marked(n))
    ensures victims == Chosen(limits, at, all, c, |c|) <==>
            Calm(marked, 1, Needed(limits, at, all, c, |c|))
  {
    hide Passing, Tallied, OverWeight, Part, Sum, Distinct, LifecycleState.Valid, Chosen, Needed;
    victims := [];
    var tally, overWeight := tally0, overWeight0;
    var n := 0;
    ChosenStart(limits, at, all, c);
    while n < |c|
      invariant 0 <= n <= |c| && victims == Chosen(limits, at, all, c, n) &&
                Passing(m, s, weigh, at, all, victims, old(m.logical))
      invariant Tallied(limits, at, s.tracked, tally, m.shardCount) && overWeight == OverWeight(limits, all, victims)
      invariant !s.Dirty() && s.workEpoch == old(s.workEpoch) && Calm(marked, 1, n)
    {
      PassingTotals(m, s, weigh, at, all, victims, old(m.logical), 0);
      var overCount := limits.count.Some? && m.totalLen > limits.count.value;
      if limits.perShard.None? && !overCount && !overWeight {
        ChosenStops(limits, at, all, c, n, |c|);
        break;
      }
      if marked(n + 1) {
        CutShort(limits, at, all, c, n, |c|);
        MarkFailure(m, s, weigh, at, all, victims, old(m.logical));
        return;
      }
      NotChosenYet(limits, at, all, c, n);
      ChosenMore(limits, at, all, c, n);
      var evicted;
      tally, overWeight, evicted := EvictNext(m, s, limits, c, n, tally, overWeight, sampled, weigh, at, all, victims,
                                              old(m.logical));
      if evicted {
        victims := victims + [c[n]];
      }
      n := n + 1;
    }
    CutShort(limits, at, all, c, n, |c|);
  }

  /** No failure is marked before the looks `from` to `to`. */
  ghost predicate Calm(marked: nat -> bool, from: nat, to: nat) {
    forall n: nat :: from <= n <= to ==> !marked(n)
  }

  lemma ChosenStart(limits: Limits, at: Router, all: seq<Entry>, c: seq<Entry>)
    ensures Chosen(limits, at, all, c, 0) == []
  {
  }

  lemma ChosenMore(limits: Limits, at: Router, all: seq<Entry>, c: seq<Entry>, n: nat)
    requires n < |c|
    ensures var v := Chosen(limits, at, all, c, n);
            Chosen(limits, at, all, c, n + 1) == if Exceeds(limits, at, all, v, c[n]) then v + [c[n]] else v
  {
  }

  lemma {:induction false} NotChosenYet(limits: Limits, at: Router, all: seq<Entry>, c: seq<Entry>, n: nat)
    requires n < |c| && Distinct(c)
    ensures c[n] in c && c[n] !in Chosen(limits, at, all, c, n)
  {
    ChosenEarlier(limits, at, all, c, n);
    assert c[n] !in c[..n];
  }

  /** What a pass leaves: the first of the victims, all of them exactly in time, and the limits met exactly then. */
  ghost predicate PassResult(limits: Limits, logical: Table, tracked: Index, at: Router, all: seq<Entry>,
                             victims: seq<Entry>, clean: bool, inTime: bool) {
    && victims <= Victims(limits, at, all)
    && (clean ==> victims == Victims(limits, at, all))
    && (victims == Victims(limits, at, all) <==> inTime)
    && (Satisfied(limits, logical, tracked, at) <==> inTime)
  }

  /**
   * The synchronous pass under exclusive routing. Routing keeps other threads from the data, but not from
   * marking the failure of an operation that has already released it.
   */
  method ExclusivePass(m: StarMap, s: LifecycleState, p: Policy, limits: Limits, marked: nat -> bool,
                       ghost weigh: Weigher, ghost all: seq<Entry>)
    returns (victims: seq<Entry>)
    requires m.Valid() && s.Valid() && !s.Dirty() && Agree(m.logical, s.tracked, weigh) && Order(p, all, s.tracked)
    modifies m`active, m`previous, m`waiting, m`totalLen, m`writeEpoch, m`logical
    modifies s`stripes, s`entries, s`tracked, s`dirtyEpoch, s`workEpoch
    ensures m.shardCount > 0 && Passing(m, s, weigh, RouterOf(m.hash, m.shardCount), all, victims, old(m.logical))
    ensures var at := RouterOf(m.hash, m.shardCount);
            PassResult(limits, m.logical, s.tracked, at, all, victims, !s.Dirty(),
                       InTime(marked, Needed(limits, at, all, all, |all|)))
    ensures !s.Dirty() ==> s.workEpoch == old(s.workEpoch)
    ensures s.workEpoch >= old(s.workEpoch) && (s.Dirty() ==> exists n: nat :: marked(n))
  {
    hide StarMap.Valid, LifecycleState.Valid, Agree, Order, Passing, Part, Sum, Tally, Distinct, Chosen, Needed,
        Satisfied;
    HasShards(m);
    ghost var at := RouterOf(m.hash, m.shardCount);
    ghost var needed := Needed(limits, at, all, all, |all|);
    PassingStart(m, s, p, weigh, at, all);
    PassingTotals(m, s, weigh, at, all, [], m.logical, 0);
    var tally := [];
    if limits.perShard.Some? {
      tally := CountPerShard(m, s.tracked, weigh);
    }
    var overWeight := OverBudget(s, limits);
    NothingNeeded(limits, at, all, all, |all|);
    victims := [];
    if marked(0) {
      // A dirty index offers no candidates.
      MarkFailure(m, s, weigh, at, all, [], m.logical);
    } else {
      var c := SelectCandidates(m, s, p, limits, overWeight, at, all);
      victims := RemoveExcess(m, s, limits, c, tally, overWeight, s.epoch, marked, weigh, at, all);
    }
    ResultFollows(m, s, weigh, at, all, victims, old(m.logical), limits);
  }

  lemma ResultFollows(m: StarMap, s: LifecycleState, weigh: Weigher, at: Router, all: seq<Entry>, v: seq<Entry>,
                      start: Table, limits: Limits)
    requires Passing(m, s, weigh, at, all, v, start) && v <= Victims(limits, at, all)
    ensures Satisfied(limits, m.logical, s.tracked, at) <==> v == Victims(limits, at, all)
  {
    hide Passing, Satisfied, Within;
    PassingSatisfied(m, s, weigh, at, all, v, start, limits);
    OnlyAllVictimsSuffice(limits, at, all, v);
  }

  // ------------------------------------------------------------------------- planned pass

  lemma {:induction false} PrefixBounded(at: Router, c: seq<Entry>, n: nat, i: nat)
    requires n <= |c|
    ensures Sum(c[..n]) <= Sum(c) && |Part(at, c[..n], i)| <= |Part(at, c, i)|
    decreases |c| - n
  {
    if n == |c| {
      assert c[..n] == c;
    } else {
      assert c[..n + 1] == c[..n] + [c[n]];
      Grow(at, c[..n], c[n], i);
      PrefixBounded(at, c, n + 1, i);
    }
  }

  lemma {:induction false} ChosenBounded(limits: Limits, at: Router, all: seq<Entry>, c: seq<Entry>, n: nat, i: nat)
    requires n <= |c|
    ensures var v := Chosen(limits, at, all, c, n);
            |v| <= n && Sum(v) <= Sum(c[..n]) && |Part(at, v, i)| <= |Part(at, c[..n], i)|
  {
    hide Part, Sum;
    if n == 0 {
      assert c[..0] == [];
    } else {
      ChosenBounded(limits, at, all, c, n - 1, i);
      assert c[..n] == c[..n - 1] + [c[n - 1]];
      Grow(at, c[..n - 1], c[n - 1], i);
      Grow(at, Chosen(limits, at, all, c, n - 1), c[n - 1], i);
    }
  }

  /** Taking one more victim never takes a simulated counter below zero. */
  lemma {:induction false} NoUnderflow(limits: Limits, at: Router, all: seq<Entry>, c: seq<Entry>, n: nat)
    requires n < |c|
    ensures var v := Chosen(limits, at, all, c, n);
            Sum(v) + c[n].weight <= Sum(c) && |Part(at, v, at(c[n].key))| + 1 <= |Part(at, c, at(c[n].key))|
  {
    hide Part, Sum;
    var i := at(c[n].key);
    ChosenBounded(limits, at, all, c, n, i);
    assert c[..n + 1] == c[..n] + [c[n]];
    Grow(at, c[..n], c[n], i);
    PrefixBounded(at, c, n + 1, i);
  }

  /** The simulated counters of a plan. */
  ghost predicate Simulated(at: Router, c: seq<Entry>, plan: seq<Entry>, counts: seq<nat>, weighted: nat) {
    && weighted + Sum(plan) == Sum(c)
    && forall i :: 0 <= i < |counts| ==> counts[i] + |Part(at, plan, i)| == |Part(at, c, i)|
  }

  /** Routes the candidates and adds them up. */
  method RouteCandidates(h: Hasher, count: nat, c: seq<Entry>) returns (counts: seq<nat>, weighted: nat)
    requires count > 0
    ensures |counts| == count && Simulated(RouterOf(h, count), c, [], counts, weighted)
  {
    hide Part, Sum;
    ghost var at := RouterOf(h, count);
    counts, weighted := seq(count, _ => 0), 0;
    EmptyTotals(at);
    var n := 0;
    assert c[..0] == [];
    while n < |c|
      invariant 0 <= n <= |c| && |counts| == count && weighted == Sum(c[..n])
      invariant forall i :: 0 <= i < |counts| ==> counts[i] == |Part(at, c[..n], i)|
    {
      assert c[..n + 1] == c[..n] + [c[n]];
      forall i ensures Part(at, c[..n + 1], i) == Part(at, c[..n], i) + if at(c[n].key) == i then [c[n]] else [] {
        Grow(at, c[..n], c[n], i);
      }
      Grow(at, c[..n], c[n], 0);
      var i := IndexOf(h, c[n].key, count);
      counts, weighted := counts[i := counts[i] + 1], weighted + c[n].weight;
      n := n + 1;
    }
    assert c[..n] == c;
  }

  lemma EmptyTotals(at: Router)
    ensures Sum([]) == 0 && forall i :: Part(at, [], i) == []
  {
  }

  /** One more victim in the plan. */
  lemma {:induction false} SimulatedStep(at: Router, c: seq<Entry>, plan: seq<Entry>, counts: seq<nat>, weighted: nat,
                                         e: Entry)
    requires Simulated(at, c, plan, counts, weighted) && at(e.key) < |counts|
    requires Sum(plan) + e.weight <= Sum(c) && |Part(at, plan, at(e.key))| + 1 <= |Part(at, c, at(e.key))|
    ensures weighted >= e.weight && counts[at(e.key)] > 0
    ensures Simulated(at, c, plan + [e], counts[at(e.key) := counts[at(e.key)] - 1], weighted - e.weight)
  {
    hide Part, Sum;
    Grow(at, plan, e, 0);
    var next := counts[at(e.key) := counts[at(e.key)] - 1];
    forall i | 0 <= i < |next| ensures next[i] + |Part(at, plan + [e], i)| == |Part(at, c, i)| {
      Grow(at, plan, e, i);
    }
  }

  /** Looks for a key in its active slot, then in its previous slot. */
  method Locate(m: StarMap, key: Key) returns (found: bool)
    requires m.Valid()
    ensures found <==> key in m.logical
  {
    Whereabouts(m, key);
    var slot := m.active[m.ShardIndex(key)];
    if slot.Some? && key in slot.value {
      return true;
    }
    if m.previousShardCount == 0 {
      return false;
    }
    slot := m.previous.value[IndexOf(m.hash, key, m.previousShardCount)];
    found := slot.Some? && key in slot.value;
  }

  /** The asynchronous plan: the same victims as checking and removing, found on simulated counters. */
  method PlanEvictions(m: StarMap, limits: Limits, c: seq<Entry>, ghost at: Router, ghost all: seq<Entry>)
    returns (plan: seq<Entry>)
    requires m.Valid() && m.shardCount > 0 && at == RouterOf(m.hash, m.shardCount)
    requires m.totalLen == |all| >= |c| && forall e :: e in c ==> e.key in m.logical
    requires c == all || (limits.perShard.None? && limits.budget.None?)
    ensures plan == Chosen(limits, at, all, c, |c|)
  {
    hide Part, Sum, Simulated, StarMap.Valid;
    var counts: seq<nat>, weighted: nat := RouteCandidates(m.hash, m.shardCount, c);
    var remaining: nat := m.totalLen;
    plan := [];
    var n := 0;
    while n < |c|
      invariant 0 <= n <= |c| && plan == Chosen(limits, at, all, c, n) && |plan| <= n && remaining + |plan| == |all|
      invariant |counts| == m.shardCount && Simulated(at, c, plan, counts, weighted)
    {
      var i := IndexOf(m.hash, c[n].key, m.shardCount);
      SimulatedAt(at, c, plan, counts, weighted, i);
      var overEntries := limits.count.Some? && remaining > limits.count.value;
      var overShard := limits.perShard.Some? && counts[i] > limits.perShard.value;
      var overWeight := limits.budget.Some? && weighted > limits.budget.value;
      if overEntries || overShard || overWeight {
        var found := Locate(m, c[n].key);
        assert found;
        NoUnderflow(limits, at, all, c, n);
        SimulatedStep(at, c, plan, counts, weighted, c[n]);
        plan := plan + [c[n]];
        remaining, weighted, counts := remaining - 1, weighted - c[n].weight, counts[i := counts[i] - 1];
      }
      n := n + 1;
    }
  }

  lemma SimulatedAt(at: Router, c: seq<Entry>, plan: seq<Entry>, counts: seq<nat>, weighted: nat, i: nat)
    requires Simulated(at, c, plan, counts, weighted) && i < |counts|
    ensures weighted + Sum(plan) == Sum(c) && counts[i] + |Part(at, plan, i)| == |Part(at, c, i)|
  {
  }

  /** Removes the planned victims once every shard is locked, until a failure is marked before look `from + n`. */
  method CommitPlan(m: StarMap, s: LifecycleState, plan: seq<Entry>, sampled: nat, marked: nat -> bool, from: nat,
                    ghost weigh: Weigher, ghost at: Router, ghost all: seq<Entry>)
    returns (committed: seq<Entry>)
    requires Passing(m, s, weigh, at, all, [], m.logical) && !s.Dirty() && sampled == s.epoch
    requires Distinct(plan) && forall e :: e in plan ==> e in all
    modifies m`active, m`previous, m`waiting, m`totalLen, m`writeEpoch, m`logical
    modifies s`stripes, s`entries, s`tracked, s`dirtyEpoch, s`workEpoch
    ensures committed <= plan && Passing(m, s, weigh, at, all, committed, old(m.logical))
    ensures !s.Dirty() ==> committed == plan && s.workEpoch == old(s.workEpoch)
    ensures committed == plan <==> forall n: nat :: from <= n < from + |plan| ==> !marked(n)
  {
    hide Passing, LifecycleState.Valid;
    var n := 0;
    assert plan[..0] == [];
    while n < |plan|
      invariant 0 <= n <= |plan| && Passing(m, s, weigh, at, all, plan[..n], old(m.logical))
      invariant !s.Dirty() && s.workEpoch == old(s.workEpoch) && forall k: nat :: from <= k < from + n ==> !marked(k)
    {
      if marked(from + n) {
        MarkFailure(m, s, weigh, at, all, plan[..n], old(m.logical));
        return plan[..n];
      }
      assert plan[..n + 1] == plan[..n] + [plan[n]];
      assert plan[n] !in plan[..n];
      EvictEntry(m, s, plan[n], sampled, weigh, at, all, plan[..n], old(m.logical));
      n := n + 1;
    }
    assert plan[..n] == plan;
    committed := plan;
  }

  /** Whether a failure is marked before one of the looks `from` up to `to`. */
  method AnyMarked(marked: nat -> bool, from: nat, to: nat) returns (hit: bool)
    requires from <= to
    ensures hit <==> exists n: nat :: from <= n < to && marked(n)
  {
    var n := from;
    while n < to
      invariant from <= n <= to && forall k: nat :: from <= k < n ==> !marked(k)
    {
      if marked(n) {
        return true;
      }
      n := n + 1;
    }
    hit := false;
  }

  lemma {:induction false} ChosenDistinct(limits: Limits, at: Router, all: seq<Entry>, c: seq<Entry>, n: nat)
    requires n <= |c| && Distinct(c)
    ensures Distinct(Chosen(limits, at, all, c, n)) && forall e :: e in Chosen(limits, at, all, c, n) ==> e in c[..n]
  {
    ChosenEarlier(limits, at, all, c, n);
    if n > 0 {
      ChosenDistinct(limits, at, all, c, n - 1);
      assert c[..n] == c[..n - 1] + [c[n - 1]];
      forall e | e in c[..n - 1] ensures e.key != c[n - 1].key {
      }
    }
  }

  /** The single-minimum path applies. */
  predicate OnlyOne(limits: Limits, size: nat) {
    limits.perShard.None? && limits.budget.None? && limits.count.Some? && size == limits.count.value + 1
  }

  /**
   * Look 0 selects the candidates, the next ones plan, one for each candidate, and the last ones commit, one for
   * each victim. A mark while planning cuts the plan short, and the commit then rejects whatever it holds.
   */
  ghost predicate PlanInTime(marked: nat -> bool, limits: Limits, at: Router, all: seq<Entry>) {
    Victims(limits, at, all) != [] ==>
      forall n: nat :: n <= (if OnlyOne(limits, |all|) then 1 else |all|) + |Victims(limits, at, all)| ==> !marked(n)
  }

  /**
   * The asynchronous pass: plan on simulated counters, then commit. Its victims are those of the exclusive pass,
   * or the first of them when another thread marks a failure meanwhile.
   */
  method PlannedPass(m: StarMap, s: LifecycleState, p: Policy, limits: Limits, marked: nat -> bool,
                     ghost weigh: Weigher, ghost all: seq<Entry>)
    returns (victims: seq<Entry>)
    requires m.Valid() && s.Valid() && !s.Dirty() && Agree(m.logical, s.tracked, weigh) && Order(p, all, s.tracked)
    modifies m`active, m`previous, m`waiting, m`totalLen, m`writeEpoch, m`logical
    modifies s`stripes, s`entries, s`tracked, s`dirtyEpoch, s`workEpoch
    ensures m.shardCount > 0 && Passing(m, s, weigh, RouterOf(m.hash, m.shardCount), all, victims, old(m.logical))
    ensures var at := RouterOf(m.hash, m.shardCount);
            PassResult(limits, m.logical, s.tracked, at, all, victims, !s.Dirty(), PlanInTime(marked, limits, at, all))
    ensures !s.Dirty() ==> s.workEpoch == old(s.workEpoch)
  {
    hide StarMap.Valid, LifecycleState.Valid, Agree, Order, Passing, Part, Satisfied, Within, Chosen;
    HasShards(m);
    ghost var at := RouterOf(m.hash, m.shardCount);
    PassingStart(m, s, p, weigh, at, all);
    PassingTotals(m, s, weigh, at, all, [], m.logical, 0);
    CandidatesLive(m, s, p, weigh, all);
    victims := [];
    if marked(0) {
      MarkFailure(m, s, weigh, at, all, [], m.logical);
    } else {
      var c := PlanCandidates(m, s, p, limits, at, all);
      var plan := PlanEvictions(m, limits, c, at, all);
      ChosenDistinct(limits, at, all, c, |c|);
      var hit := AnyMarked(marked, 1, |c| + 1);
      if hit {
        MarkFailure(m, s, weigh, at, all, [], m.logical);
      } else {
        victims := CommitPlan(m, s, plan, s.epoch, marked, |c| + 1, weigh, at, all);
      }
    }
    ResultFollows(m, s, weigh, at, all, victims, old(m.logical), limits);
  }

  lemma HasShards(m: StarMap)
    requires m.Valid()
    ensures m.shardCount > 0
  {
  }

  lemma CandidatesLive(m: StarMap, s: LifecycleState, p: Policy, weigh: Weigher, all: seq<Entry>)
    requires Agree(m.logical, s.tracked, weigh) && Order(p, all, s.tracked)
    ensures forall e :: e in all ==> e.key in m.logical
  {
    forall e | e in all ensures e.key in m.logical {
      assert Lookup(s.tracked, e.key) == Some(e);
    }
  }

  method PlanCandidates(m: StarMap, s: LifecycleState, p: Policy, limits: Limits, ghost at: Router,
                        ghost all: seq<Entry>)
    returns (c: seq<Entry>)
    requires m.Valid() && s.Valid() && !s.Dirty() && m.totalLen == |all| && Order(p, all, s.tracked)
    ensures Chosen(limits, at, all, c, |c|) == Victims(limits, at, all)
    ensures Distinct(c) && |c| <= |all| && forall e :: e in c ==> e in all
    ensures if OnlyOne(limits, |all|) then |c| == 1 else c == all
  {
    hide Stands, Enumerates, Striped, Stamped;
    if OnlyOne(limits, m.totalLen) {
      var least := MinimumCandidate(s, p);
      MinimumSuffices(limits, at, all);
      c := [least.value];
      assert all[0] in all;
    } else {
      c := Candidates(s, p);
      OrderUnique(p, c, all, s.tracked);
    }
  }
}
