/** Online migration: starting, bounded batches, and the cooperative driver. */
module Rebalance {
  import opened Domain
  import opened Routing
  import Mutation
  import opened ShardedMap

  const DEFAULT_SHARDS: nat := 64
  const MAX_SHARDS: nat := 262144

  datatype BatchReport = BatchReport(movedEntries: nat, completedShards: nat, budgetExhausted: bool, complete: bool)

  /** Zero asks for the default count; counts above the cap are refused. */
  function StrictShardCount(requested: nat): (r: Option<nat>)
    ensures r.Some? <==> requested <= MAX_SHARDS
    ensures r.Some? ==> 0 < r.value <= MAX_SHARDS && r.value == if requested == 0 then DEFAULT_SHARDS else requested
  {
    var count := if requested == 0 then DEFAULT_SHARDS else requested;
    if count > MAX_SHARDS then None else Some(count)
  }

  /** Turns the active directory into the source of a new migration over an empty directory. */
  method BeginGeneration(m: StarMap, target: nat)
    requires m.Valid() && target > 0 && !m.tracker.migrating
    modifies m`active, m`previous, m`shardCount, m`previousShardCount, m`waiting, m.tracker
    ensures m.Valid() && m.tracker.migrating && !m.tracker.paused
    ensures m.shardCount == target && m.tracker.generation == old(m.tracker.generation) + 1
    ensures m.Remaining() == m.totalLen + old(m.shardCount) && m.waiting == m.logical.Keys && |m.waiting| == m.totalLen
    ensures m.tracker.fromShards == m.tracker.totalShards == old(m.shardCount) && m.tracker.toShards == target
    ensures m.tracker.initialEntries == m.totalLen && m.tracker.movedEntries == m.tracker.completedShards == 0
  {
    hide Stands;
    var current := |m.active|;
    var fresh_ := seq(target, _ => None);
    assert m.waiting == {} && m.Source() == [] by { Idle(m); }
    SwitchGeneration(m.hash, m.active, m.logical, fresh_);
    KeysSize(m.logical);
    m.previous, m.active, m.waiting, m.previousShardCount, m.shardCount :=
      Some(m.active), fresh_, m.logical.Keys, current, target;
    m.tracker.BeginWithCounts(current, target, m.totalLen);
  }

  /** A running migration is retained, whatever it targets; an unchanged count starts none. */
  method StartRebalanceOnline(m: StarMap, requested: nat) returns (accepted: bool)
    requires m.Valid()
    modifies m`active, m`previous, m`shardCount, m`previousShardCount, m`waiting, m.tracker
    ensures m.Valid() && accepted == (requested <= MAX_SHARDS) && (!old(m.tracker.paused) ==> !m.tracker.paused)
    ensures var target := StrictShardCount(requested);
            if target.Some? && !old(m.tracker.migrating) && target.value != old(m.shardCount)
            then m.tracker.migrating && m.shardCount == target.value &&
                m.tracker.generation == old(m.tracker.generation) + 1
                 && m.Remaining() == m.totalLen + old(m.shardCount)
                 && m.tracker.fromShards == old(m.shardCount) && m.tracker.toShards == target.value
                 && m.tracker.initialEntries == m.totalLen && m.tracker.movedEntries == 0
            else m.shardCount == old(m.shardCount) && m.tracker.migrating == old(m.tracker.migrating)
                 && m.tracker.generation == old(m.tracker.generation) && m.Remaining() == old(m.Remaining())
  {
    var target := StrictShardCount(requested);
    if target.None? {
      return false;
    }
    accepted := true;
    if !m.tracker.migrating && target.value != m.shardCount {
      BeginGeneration(m, target.value);
    }
  }

  lemma Idle(m: StarMap)
    requires m.Valid() && !m.tracker.migrating
    ensures m.waiting == {} && m.Source() == []
  {
    forall k ensures k !in m.waiting {
      assert Find(m.hash, m.Source(), k) == None;
    }
  }

  /**
   * Selects at most `limit` keys of a source shard, and at least one when there is one; only the clock makes it
   * stop before the limit or the last key.
   */
  method LoadKeys(source: Table, limit: nat, timeUp: nat -> bool) returns (keys: seq<Key>)
    requires limit > 0
    ensures |keys| <= limit
    ensures forall i :: 0 <= i < |keys| ==> keys[i] in source
    ensures forall i, j :: 0 <= i < j < |keys| ==> keys[i] != keys[j]
    ensures source != map[] ==> keys != []
    ensures Unhurried(timeUp) ==> |keys| == limit || |keys| == |source|
  {
    keys := [];
    var rest := source.Keys;
    while rest != {} && |keys| < limit && (keys == [] || !timeUp(|keys|))
      invariant |keys| <= limit
      invariant forall k :: k in rest ==> k in source && k !in keys
      invariant forall i :: 0 <= i < |keys| ==> keys[i] in source
      invariant forall i, j :: 0 <= i < j < |keys| ==> keys[i] != keys[j]
      invariant keys == [] ==> rest == source.Keys
      invariant |keys| + |rest| == |source.Keys|
      decreases rest
    {
      var k :| k in rest;
      keys, rest := keys + [k], rest - {k};
    }
    KeysSize(source);
  }

  /** The clock never stops a batch. */
  ghost predicate Unhurried(timeUp: nat -> bool) {
    forall n: nat :: !timeUp(n)
  }

  /** The keys prepared for the slot being drained are all of its keys, or as many as the batch may still move. */
  ghost predicate Loaded(m: StarMap, loaded: Option<nat>, keys: seq<Key>, room: nat)
    reads m, m.tracker
    requires m.Shaped()
  {
    m.tracker.migrating && loaded == Some(m.tracker.completedShards) ==>
      |keys| == room || |keys| == |TableOf(m.Source()[m.tracker.completedShards])|
  }

  /** Moves one entry of the source slot being drained. */
  method MoveKey(m: StarMap, index: nat, key: Key)
    requires m.Valid() && m.tracker.migrating && index < |m.Source()|
    requires m.Source()[index].Some? && key in m.Source()[index].value
    modifies m`active, m`previous, m`waiting, m.tracker`movedEntries
    ensures m.Valid() && m.waiting == old(m.waiting) - {key} && |m.waiting| == |old(m.waiting)| - 1
    ensures m.tracker.movedEntries == old(m.tracker.movedEntries) + 1
    ensures m.previous == Some(old(m.Source())[index := Some(old(m.Source())[index].value - {key})])
  {
    hide Stands;
    SourceIndex(m.hash, m.active, m.Source(), m.logical, m.waiting, index, key);
    m.GetOrInitShard(m.ShardIndex(key));
    PromoteKey(m.hash, m.active, m.Source(), m.logical, m.waiting, key);
    var i := m.ShardIndex(key);
    var (target, source) := Mutation.Promoted(m.active[i].value, m.previous.value[index].value, key);
    m.active, m.previous, m.waiting :=
      m.active[i := Some(target)], Some(m.previous.value[index := Some(source)]), m.waiting - {key};
    m.tracker.Moved();
  }

  /** Retires the drained source slot, and with the last one the previous generation. */
  method EndSlot(m: StarMap)
    requires m.Valid() && m.tracker.migrating && TableOf(m.Source()[m.tracker.completedShards]) == map[]
    modifies m`previous, m`previousShardCount, m.tracker`completedShards, m.tracker`migrating, m.tracker`paused,
             m.tracker`complete
    ensures m.Valid() && m.tracker.completedShards == old(m.tracker.completedShards) + 1
    ensures m.tracker.migrating <==> m.tracker.completedShards < m.tracker.totalShards
    ensures !m.tracker.migrating ==> m.previous == None && m.waiting == {}
    ensures m.tracker.migrating ==> m.tracker.paused == old(m.tracker.paused)
    ensures m.tracker.completedShards <= m.tracker.totalShards
  {
    hide Stands;
    var index := m.tracker.completedShards;
    RetireSlot(m.hash, m.active, m.Source(), m.logical, m.waiting, index);
    m.previous := Some(m.previous.value[index := None]);
    m.tracker.Step();
    if m.tracker.completedShards == m.tracker.totalShards {
      DropEmptySource(m.hash, m.active, m.Source(), m.logical, m.waiting);
      m.previous, m.previousShardCount := None, 0;
      m.tracker.Finish();
    }
  }

  /** Prepared keys are distinct keys still present in the source slot being drained. */
  ghost predicate Prepared(m: StarMap, loaded: Option<nat>, keys: seq<Key>)
    reads m, m.tracker
    requires m.Shaped()
  {
    && (forall i, j :: 0 <= i < j < |keys| ==> keys[i] != keys[j])
    && (keys != [] ==>
          && m.tracker.migrating && loaded == Some(m.tracker.completedShards)
          && m.Source()[m.tracker.completedShards].Some?
          && forall i :: 0 <= i < |keys| ==> keys[i] in m.Source()[m.tracker.completedShards].value)
  }

  /** The keys to move next: those prepared, or those of a slot met for the first time. */
  method PrepareKeys(m: StarMap, loaded: Option<nat>, keys: seq<Key>, limit: nat, timeUp: nat -> bool)
    returns (keys': seq<Key>)
    requires m.Valid() && m.tracker.migrating && limit > 0 && Prepared(m, loaded, keys)
    ensures Prepared(m, Some(m.tracker.completedShards), keys')
    ensures keys' == [] ==>
              TableOf(m.Source()[m.tracker.completedShards]) == map[] || loaded == Some(m.tracker.completedShards)
    ensures Unhurried(timeUp) && Loaded(m, loaded, keys, limit) ==>
              Loaded(m, Some(m.tracker.completedShards), keys', limit)
  {
    hide StarMap.Placed, StarMap.CacheCoherent;
    var index := m.tracker.completedShards;
    var slot := m.previous.value[index];
    keys' := keys;
    if loaded != Some(index) && slot.Some? {
      keys' := LoadKeys(slot.value, limit, timeUp);
    }
  }

  /** One pass of the batch loop: moves one prepared key, and retires the slot when that empties it. */
  method BatchStep(m: StarMap, loaded: Option<nat>, keys: seq<Key>, limit: nat, timeUp: nat -> bool)
    returns (keys': seq<Key>, moved: nat, retired: nat)
    requires m.Valid() && m.tracker.migrating && limit > 0 && Prepared(m, loaded, keys)
    modifies m`active, m`previous, m`previousShardCount, m`waiting
    modifies m.tracker`movedEntries, m.tracker`completedShards, m.tracker`migrating, m.tracker`paused,
             m.tracker`complete
    ensures m.Valid() && m.waiting <= old(m.waiting)
    ensures moved <= 1 && retired <= 1
    ensures |m.waiting| == |old(m.waiting)| - moved
    ensures m.tracker.movedEntries == old(m.tracker.movedEntries) + moved
    ensures m.tracker.completedShards == old(m.tracker.completedShards) + retired <= m.tracker.totalShards
    ensures m.tracker.migrating <==> m.tracker.completedShards < m.tracker.totalShards
    ensures !m.tracker.migrating ==> m.previous == None && m.waiting == {}
    ensures m.tracker.migrating ==> m.tracker.paused == old(m.tracker.paused)
    ensures Prepared(m, Some(old(m.tracker.completedShards)), keys')
    ensures moved + retired == 0 ==> keys' == [] && loaded == Some(old(m.tracker.completedShards))
    ensures moved <= limit
    ensures Unhurried(timeUp) && old(Loaded(m, loaded, keys, limit)) ==>
              && Loaded(m, Some(old(m.tracker.completedShards)), keys', limit - moved)
              && (retired == 0 && keys' == [] ==> moved == limit)
  {
    hide StarMap.Placed, StarMap.CacheCoherent, Unhurried;
    var index := m.tracker.completedShards;
    var slot := m.previous.value[index];
    keys' := PrepareKeys(m, loaded, keys, limit, timeUp);
    moved, retired := 0, 0;
    if slot.Some? && keys' != [] {
      var key := keys'[|keys'| - 1];
      keys' := keys'[..|keys'| - 1];
      MoveKey(m, index, key);
      moved := 1;
      assert forall i :: 0 <= i < |keys'| ==> keys'[i] in m.previous.value[index].value;
      assert m.previous.value[index].value == map[] ==> keys' == [] by {
        assert keys' != [] ==> keys'[0] in m.previous.value[index].value;
      }
    }
    slot := m.previous.value[index];
    if slot.None? || slot.value == map[] {
      EndSlot(m);
      retired := 1;
    }
  }

  lemma NotLoaded(m: StarMap, room: nat)
    requires m.Shaped()
    ensures Loaded(m, None, [], room) && Prepared(m, None, [])
  {
  }

  /** A batch for another generation, for a paused migration or for no shard at all does nothing. */
  predicate Refused(m: StarMap, expected: Option<nat>, maxShards: nat)
    reads m, m.tracker
  {
    (expected.Some? && expected.value != m.tracker.generation) || m.tracker.paused || maxShards == 0
  }

  /**
   * A batch that began `turns` turns was stopped by the clock, or by the end of the keys it had prepared, and not
   * by a cancellation or by its shard budget.
   */
  ghost predicate StoppedEarly(report: BatchReport, turns: nat, maxShards: nat, cancelled: nat -> bool,
                               timeUp: nat -> bool) {
    turns > 0 && !cancelled(turns) && (report.completedShards < maxShards || timeUp(turns))
  }

  /** The loop of a batch on a running migration, `turns` turns of it. */
  method DrainWithin(m: StarMap, maxShards: nat, maxEntries: nat, cancelled: nat -> bool, timeUp: nat -> bool)
    returns (moved: nat, done: nat, exhausted: bool, ghost turns: nat)
    requires m.Valid() && m.tracker.migrating && maxShards > 0
    modifies m`active, m`previous, m`previousShardCount, m`waiting
    modifies m.tracker`movedEntries, m.tracker`completedShards, m.tracker`migrating, m.tracker`paused,
             m.tracker`complete
    ensures m.Valid() && m.waiting <= old(m.waiting) && moved <= maxEntries && done <= maxShards
    ensures |m.waiting| == |old(m.waiting)| - moved
    ensures m.tracker.movedEntries == old(m.tracker.movedEntries) + moved
    ensures m.tracker.completedShards == old(m.tracker.completedShards) + done <= m.tracker.totalShards
    ensures m.tracker.migrating <==> m.tracker.completedShards < m.tracker.totalShards
    ensures !m.tracker.migrating ==> m.previous == None && m.waiting == {}
    ensures m.tracker.migrating ==> m.tracker.paused == old(m.tracker.paused)
    ensures forall t: nat :: 1 <= t < turns ==> !cancelled(t)
    ensures exhausted ==> m.tracker.migrating && turns > 0 && !cancelled(turns) && (done < maxShards || timeUp(turns))
    ensures !exhausted && m.tracker.migrating && turns > 0 && !cancelled(turns) ==>
              !timeUp(turns) && (moved == maxEntries || done == maxShards)
    ensures maxEntries > 0 <==> turns > 0
    ensures moved + done > 0 <==> maxEntries > 0 && !cancelled(1)
    ensures Unhurried(timeUp) && m.tracker.migrating && (turns > 0 ==> !cancelled(turns)) ==>
              moved == maxEntries || done == maxShards
  {
    hide StarMap.Placed, StarMap.CacheCoherent, Loaded, Prepared;
    var keys: seq<Key> := [];
    var loaded: Option<nat> := None;
    NotLoaded(m, maxEntries);
    moved, done, turns := 0, 0, 0;
    var turn: nat, running := 0, true;
    exhausted := false;
    while running && done < maxShards && moved < maxEntries
      invariant m.Valid() && m.waiting <= old(m.waiting) && Prepared(m, loaded, keys)
      invariant moved <= maxEntries && done <= maxShards
      invariant |m.waiting| == |old(m.waiting)| - moved
      invariant m.tracker.movedEntries == old(m.tracker.movedEntries) + moved
      invariant m.tracker.completedShards == old(m.tracker.completedShards) + done <= m.tracker.totalShards
      invariant m.tracker.migrating <==> m.tracker.completedShards < m.tracker.totalShards
      invariant !m.tracker.migrating ==> m.previous == None && m.waiting == {}
      invariant running ==> m.tracker.migrating
      invariant m.tracker.migrating ==> m.tracker.paused == old(m.tracker.paused)
      invariant exhausted ==>
                  !running && m.tracker.migrating && turn > 0 && !cancelled(turn) && (done < maxShards || timeUp(turn))
      invariant !running ==> exhausted || !m.tracker.migrating || cancelled(turn)
      invariant running && turn > 0 ==> !timeUp(turn) && !cancelled(turn)
      invariant forall t: nat :: 1 <= t < turn ==> !cancelled(t)
      invariant turn == 0 ==> loaded == None && running
      invariant if turn > 0 && !cancelled(1) then moved + done > 0 else moved + done == 0
      invariant turn > 0 ==> maxEntries > 0 && (cancelled(1) ==> !running)
      invariant Unhurried(timeUp) ==> Loaded(m, loaded, keys, maxEntries - moved)
      invariant Unhurried(timeUp) && exhausted ==> moved == maxEntries
      decreases m.Remaining(), running
    {
      turn := turn + 1;
      if cancelled(turn) {
        running := false;
      } else {
        var index := m.tracker.completedShards;
        var more, retired;
        keys, more, retired := BatchStep(m, loaded, keys, maxEntries - moved, timeUp);
        loaded := Some(index);
        moved, done := moved + more, done + retired;
        if !m.tracker.migrating {
          running := false;
        } else if (retired == 0 && keys == []) || timeUp(turn) {
          running, exhausted := false, true;
        }
      }
    }
    turns := turn;
  }

  /**
   * Moves entries of the previous generation until a budget, the clock or a cancellation stops it.
   * `cancelled(n)` is the n-th observation of the cancellation flag, `timeUp(n)` the n-th look at the clock.
   * The map's contents, length and epoch are not even in the frame.
   */
  method AdvanceRebalance(m: StarMap, maxShards: nat, maxEntries: nat, expected: Option<nat>, cancelled: nat -> bool,
                          timeUp: nat -> bool)
    returns (report: BatchReport, ghost turns: nat)
    requires m.Valid()
    modifies m`active, m`previous, m`previousShardCount, m`waiting
    modifies m.tracker`movedEntries, m.tracker`completedShards, m.tracker`migrating, m.tracker`paused,
             m.tracker`complete
    ensures m.Valid() && m.waiting <= old(m.waiting)
    ensures report.movedEntries <= maxEntries && report.completedShards <= maxShards
    ensures m.Remaining() + report.movedEntries + report.completedShards == old(m.Remaining())
    ensures m.tracker.movedEntries == old(m.tracker.movedEntries) + report.movedEntries
    ensures |m.waiting| + report.movedEntries == |old(m.waiting)|
    ensures !m.tracker.migrating ==> m.previous == None
    ensures var refused := old(Refused(m, expected, maxShards)) || cancelled(0);
            && (refused ==> report == BatchReport(0, 0, false, false))
            && (report.complete <==> !refused && !m.tracker.migrating)
            && (report.budgetExhausted <==>
                !refused && m.tracker.migrating &&
                (report.movedEntries >= maxEntries || StoppedEarly(report, turns, maxShards, cancelled, timeUp)))
    ensures forall t: nat :: 1 <= t < turns ==> !cancelled(t)
    ensures old(!Refused(m, expected, maxShards)) && Unhurried(timeUp) && (forall n: nat :: !cancelled(n)) ==>
              !m.tracker.migrating || report.movedEntries == maxEntries || report.completedShards == maxShards
    ensures m.tracker.migrating ==> m.tracker.paused == old(m.tracker.paused)
    ensures old(m.tracker.migrating && !m.tracker.paused) && maxShards > 0 && maxEntries > 0
            && (expected.None? || expected.value == m.tracker.generation) && !cancelled(0) && !cancelled(1)
            <==> m.Remaining() < old(m.Remaining())
  {
    hide StarMap.Placed, StarMap.CacheCoherent, Unhurried;
    turns := 0;
    if (expected.Some? && expected.value != m.tracker.generation) || m.tracker.paused || cancelled(0) ||
        maxShards == 0 {
      return BatchReport(0, 0, false, false), 0;
    }
    if !m.tracker.migrating {
      Idle(m);
      return BatchReport(0, 0, false, true), 0;
    }
    var moved, done, exhausted;
    moved, done, exhausted, turns := DrainWithin(m, maxShards, maxEntries, cancelled, timeUp);
    var complete := !m.tracker.migrating;
    report := BatchReport(moved, done, exhausted || (!complete && moved >= maxEntries), complete);
  }

  const NO_LIMIT: nat := 0xFFFF_FFFF_FFFF_FFFF

  /** How far the cooperative driver is from its target: it may first have to finish a foreign migration. */
  ghost function Phase(m: StarMap, target: nat): nat
    reads m, m.tracker
  {
    if m.shardCount == target then 0 else if m.tracker.migrating then 2 else 1
  }

  /** Batches until no migration runs and the count is the requested one. */
  method RebalanceCooperative(m: StarMap, requested: nat, batchSize: nat, timeUp: nat -> bool)
    returns (moved: Option<nat>)
    requires m.Valid()
    modifies m`active, m`previous, m`shardCount, m`previousShardCount, m`waiting, m.tracker
    ensures m.Valid()
    ensures moved.Some? <==> requested <= MAX_SHARDS
    ensures moved.Some? ==> m.shardCount == StrictShardCount(requested).value && !m.tracker.migrating
    ensures moved.Some? ==>
              moved.value == |old(m.waiting)| + if m.shardCount != old(m.shardCount) then |m.logical| else 0
    ensures moved.None? ==> m.shardCount == old(m.shardCount) && m.tracker.migrating == old(m.tracker.migrating)
  {
    hide Stands, Enumerates;
    var target := StrictShardCount(requested);
    if target.None? {
      return None;
    }
    var total: nat := 0;
    while m.tracker.migrating || m.shardCount != target.value
      invariant m.Valid()
      invariant if m.shardCount == old(m.shardCount) then total + |m.waiting| == |old(m.waiting)|
                else m.shardCount == target.value && total + |m.waiting| == |old(m.waiting)| + m.totalLen
      decreases Phase(m, target.value), m.Remaining()
    {
      if !m.tracker.migrating {
        Idle(m);
        BeginGeneration(m, target.value);
      }
      var _ := m.tracker.Pause(false);
      var size := if batchSize == 0 then 1 else batchSize;
      var report, _ := AdvanceRebalance(m, NO_LIMIT, size, None, _ => false, timeUp);
      total := total + report.movedEntries;
    }
    Idle(m);
    moved := Some(total);
  }
}
