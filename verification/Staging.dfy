/** Stop-the-world rebuilds: the synchronous and the asynchronous staging order build the same directory. */
module Staging {
  import opened Domain
  import opened Routing
  import opened ShardedMap
  import opened Rebalance

  /** Vacant-only insertion keeps the earlier value, overwriting insertion the later one. */
  function Keep(earlier: Option<Value>, later: Option<Value>, overwrite: bool): Option<Value> {
    if overwrite then (if later.Some? then later else earlier)
    else if earlier.Some? then earlier else later
  }

  /** A staged directory: routed by its own count, standing for `part`, allocated only where it holds entries. */
  ghost predicate Staged(h: Hasher, target: nat, dest: seq<Slot>, part: Table) {
    && |dest| == target > 0
    && Routed(h, dest)
    && (forall k :: Find(h, dest, k) == Lookup(part, k))
    && (forall i :: 0 <= i < |dest| && dest[i].Some? ==> dest[i].value != map[])
  }

  /** A staged directory is determined by what it stands for. */
  lemma StagedUnique(h: Hasher, target: nat, dest: seq<Slot>, dest': seq<Slot>, part: Table)
    requires Staged(h, target, dest, part) && Staged(h, target, dest', part)
    ensures dest == dest'
  {
    forall i | 0 <= i < target ensures dest[i] == dest'[i] {
      forall k ensures Lookup(TableOf(dest[i]), k) == Lookup(TableOf(dest'[i]), k) {
        assert k in TableOf(dest[i]) ==> IndexOf(h, k, target) == i;
        assert k in TableOf(dest'[i]) ==> IndexOf(h, k, target) == i;
        assert Find(h, dest, k) == Find(h, dest', k) == Lookup(part, k);
      }
      SameLookups(TableOf(dest[i]), TableOf(dest'[i]));
    }
  }

  lemma StageOne(h: Hasher, target: nat, dest: seq<Slot>, part: Table, k: Key, v: Value)
    requires Staged(h, target, dest, part)
    ensures |dest| == target > 0
    ensures var i := IndexOf(h, k, target);
            && (k in TableOf(dest[i]) <==> k in part)
            && Staged(h, target, dest[i := Some(TableOf(dest[i])[k := v])], part[k := v])
  {
    var i := IndexOf(h, k, target);
    var t := TableOf(dest[i])[k := v];
    assert k in t;
    assert Find(h, dest, k) == Lookup(part, k);
    var next, after := dest[i := Some(t)], part[k := v];
    forall x ensures Find(h, next, x) == Lookup(after, x) {
      FindSwapped(h, dest, i, t, x);
      assert Find(h, dest, x) == Lookup(part, x);
    }
  }

  ghost predicate Overlaid(base: Table, t: Table, part: Table, todo: set<Key>, overwrite: bool) {
    forall k :: Lookup(part, k) == if k in todo then Lookup(base, k) else Keep(Lookup(base, k), Lookup(t, k), overwrite)
  }

  /** Copies one source shard in its iteration order. */
  method StageShard(h: Hasher, target: nat, before: seq<Slot>, count: nat, t: Table, overwrite: bool, ghost base: Table)
    returns (dest: seq<Slot>, moved: nat, ghost part: Table)
    requires Staged(h, target, before, base) && count == |base|
    ensures Staged(h, target, dest, part) && moved == |part| && Overlaid(base, t, part, {}, overwrite)
  {
    hide Staged;
    dest, moved, part := before, count, base;
    var todo := t.Keys;
    while todo != {}
      invariant todo <= t.Keys && Staged(h, target, dest, part) && moved == |part|
      invariant Overlaid(base, t, part, todo, overwrite)
      decreases todo
    {
      var k :| k in todo;
      StageOne(h, target, dest, part, k, t[k]);
      var i := IndexOf(h, k, target);
      var vacant := k !in TableOf(dest[i]);
      if vacant || overwrite {
        BindSize(part, k, Some(t[k]));
        dest := dest[i := Some(TableOf(dest[i])[k := t[k]])];
        part := part[k := t[k]];
      }
      if vacant {
        moved := moved + 1;
      }
      todo := todo - {k};
    }
  }

  /** What a generation's first `n` slots laid over `base` give. */
  ghost predicate OverlaidSlots(h: Hasher, slots: seq<Slot>, n: nat, base: Table, part: Table, overwrite: bool) {
    forall k :: Lookup(part, k) ==
                if |slots| > 0 && IndexOf(h, k, |slots|) < n then Keep(Lookup(base, k), Find(h, slots, k), overwrite)
                    else Lookup(base, k)
  }

  method StageSlots(h: Hasher, target: nat, before: seq<Slot>, count: nat, slots: seq<Slot>, overwrite: bool,
                    ghost base: Table)
    returns (dest: seq<Slot>, moved: nat, ghost part: Table)
    requires Staged(h, target, before, base) && count == |base| && Routed(h, slots)
    ensures Staged(h, target, dest, part) && moved == |part| && OverlaidSlots(h, slots, |slots|, base, part, overwrite)
  {
    dest, moved, part := before, count, base;
    var n := 0;
    while n < |slots|
      invariant 0 <= n <= |slots| && Staged(h, target, dest, part) && moved == |part|
      invariant OverlaidSlots(h, slots, n, base, part, overwrite)
    {
      ghost var was := part;
      if slots[n].Some? {
        dest, moved, part := StageShard(h, target, dest, moved, slots[n].value, overwrite, part);
      }
      NextOverlay(h, slots, n, base, was, part, overwrite);
      n := n + 1;
    }
  }

  lemma NextOverlay(h: Hasher, slots: seq<Slot>, n: nat, base: Table, was: Table, part: Table, overwrite: bool)
    requires n < |slots| && Routed(h, slots) && OverlaidSlots(h, slots, n, base, was, overwrite)
    requires Overlaid(was, TableOf(slots[n]), part, {}, overwrite) || (slots[n].None? && part == was)
    ensures OverlaidSlots(h, slots, n + 1, base, part, overwrite)
  {
    forall k
      ensures Lookup(part, k) == if IndexOf(h, k, |slots|) < n + 1
              then Keep(Lookup(base, k), Find(h, slots, k), overwrite) else Lookup(base, k)
    {
      assert Lookup(was, k) == if IndexOf(h, k, |slots|) < n then Keep(Lookup(base, k), Find(h, slots, k), overwrite)
             else Lookup(base, k);
      assert k in TableOf(slots[n]) ==> IndexOf(h, k, |slots|) == n;
    }
  }

  /** The union in which the active generation wins, whether or not the generations overlap. */
  ghost predicate ActiveWins(h: Hasher, active: seq<Slot>, source: seq<Slot>, merged: Table) {
    forall k :: Lookup(merged, k) == Keep(Find(h, active, k), Find(h, source, k), false)
  }

  lemma EmptyStage(h: Hasher, target: nat)
    requires target > 0
    ensures Staged(h, target, seq(target, _ => None), map[])
  {
  }

  lemma ActiveWinsUnique(h: Hasher, active: seq<Slot>, source: seq<Slot>, merged: Table, merged': Table)
    requires ActiveWins(h, active, source, merged) && ActiveWins(h, active, source, merged')
    ensures merged == merged'
  {
    SameLookups(merged, merged');
  }

  /** Synchronous order: active shards first, later copies of a key ignored. */
  method StageSync(h: Hasher, target: nat, active: seq<Slot>, source: seq<Slot>)
    returns (dest: seq<Slot>, moved: nat, ghost merged: Table)
    requires target > 0 && Routed(h, active) && Routed(h, source)
    ensures |dest| == target && Routed(h, dest)
    ensures forall k :: Find(h, dest, k) == if Find(h, active, k).Some? then Find(h, active, k) else Find(h, source, k)
    ensures ActiveWins(h, active, source, merged) && Staged(h, target, dest, merged) && moved == |merged|
  {
    EmptyStage(h, target);
    ghost var first;
    dest, moved, first := StageSlots(h, target, seq(target, _ => None), 0, active, false, map[]);
    dest, moved, merged := StageSlots(h, target, dest, moved, source, false, first);
    forall k ensures Lookup(merged, k) == Keep(Find(h, active, k), Find(h, source, k), false) {
      assert Lookup(first, k) == Find(h, active, k);
    }
  }

  /** Asynchronous order: previous shards first, later copies of a key overwrite. */
  method StageAsync(h: Hasher, target: nat, active: seq<Slot>, source: seq<Slot>)
    returns (dest: seq<Slot>, moved: nat, ghost merged: Table)
    requires target > 0 && Routed(h, active) && Routed(h, source)
    ensures |dest| == target && Routed(h, dest)
    ensures forall k :: Find(h, dest, k) == if Find(h, active, k).Some? then Find(h, active, k) else Find(h, source, k)
    ensures ActiveWins(h, active, source, merged) && Staged(h, target, dest, merged) && moved == |merged|
  {
    EmptyStage(h, target);
    ghost var first;
    dest, moved, first := StageSlots(h, target, seq(target, _ => None), 0, source, true, map[]);
    dest, moved, merged := StageSlots(h, target, dest, moved, active, true, first);
    forall k ensures Lookup(merged, k) == Keep(Find(h, active, k), Find(h, source, k), false) {
      assert Lookup(first, k) == Find(h, source, k);
    }
  }

  /** Both orders, run on the same generations, build the same directory and count the same entries. */
  method StageBoth(h: Hasher, target: nat, active: seq<Slot>, source: seq<Slot>)
    returns (sync: seq<Slot>, async: seq<Slot>, moved: nat, moved': nat)
    requires target > 0 && Routed(h, active) && Routed(h, source)
    ensures sync == async && moved == moved'
    ensures |sync| == target && Routed(h, sync)
    ensures forall k :: Find(h, sync, k) == if Find(h, active, k).Some? then Find(h, active, k) else Find(h, source, k)
  {
    hide Staged, ActiveWins;
    ghost var merged, merged';
    sync, moved, merged := StageSync(h, target, active, source);
    async, moved', merged' := StageAsync(h, target, active, source);
    ActiveWinsUnique(h, active, source, merged, merged');
    StagedUnique(h, target, sync, async, merged);
  }

  /** Publishes a staged directory as the only generation. */
  method RebalanceStaged(m: StarMap, requested: nat, asynchronous: bool) returns (moved: Option<nat>)
    requires m.Valid()
    modifies m`active, m`previous, m`shardCount, m`previousShardCount, m`waiting, m`totalLen, m.tracker
    ensures m.Valid()
    ensures moved.Some? <==> requested <= MAX_SHARDS
    ensures moved.Some? ==> m.shardCount == StrictShardCount(requested).value && !m.tracker.migrating
    ensures moved.Some? ==> moved.value == if old(m.tracker.migrating) ||
            m.shardCount != old(m.shardCount) then |m.logical| else 0
    ensures moved.None? ==> m.shardCount == old(m.shardCount) && m.tracker.migrating == old(m.tracker.migrating)
    ensures if moved.Some? && (old(m.tracker.migrating) || m.shardCount != old(m.shardCount))
            then && m.tracker.generation == old(m.tracker.generation) + 1 && m.tracker.complete
                 && m.tracker.fromShards == old(m.shardCount) && m.tracker.toShards == m.shardCount
                 && m.tracker.initialEntries == m.tracker.movedEntries == |m.logical|
            else m.tracker.generation == old(m.tracker.generation)
  {
    hide Stands;
    var target := StrictShardCount(requested);
    if target.None? {
      return None;
    }
    if target.value == m.shardCount && !m.tracker.migrating {
      return Some(0);
    }
    var current := m.shardCount;
    var source := if m.previous.Some? then m.previous.value else [];
    ValidMerges(m);
    var dest, count;
    ghost var merged;
    if asynchronous {
      dest, count, merged := StageAsync(m.hash, target.value, m.active, source);
    } else {
      dest, count, merged := StageSync(m.hash, target.value, m.active, source);
    }
    ActiveWinsUnique(m.hash, m.active, source, merged, m.logical);
    StagedStands(m.hash, target.value, dest, m.logical);
    m.active, m.previous, m.waiting, m.previousShardCount, m.shardCount := dest, None, {}, 0, target.value;
    if asynchronous {
      m.totalLen := count;
    }
    m.tracker.FinishStaged(current, target.value, count);
    moved := Some(count);
  }

  lemma ValidMerges(m: StarMap)
    requires m.Valid()
    ensures Routed(m.hash, m.active) && Routed(m.hash, m.Source()) &&
            ActiveWins(m.hash, m.active, m.Source(), m.logical)
  {
    forall k ensures Lookup(m.logical, k) == Keep(Find(m.hash, m.active, k), Find(m.hash, m.Source(), k), false) {
      assert Lookup(m.logical, k) == if k in m.waiting then Find(m.hash, m.Source(), k) else Find(m.hash, m.active, k);
    }
  }

  lemma StagedStands(h: Hasher, target: nat, dest: seq<Slot>, logical: Table)
    requires Staged(h, target, dest, logical)
    ensures Stands(h, dest, [], logical, {})
  {
    forall k ensures Lookup(logical, k) == Find(h, dest, k) {
    }
  }
}
