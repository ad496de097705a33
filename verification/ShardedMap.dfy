/**
 * The two-generation sharded map. While a migration runs, a key lives either in the active directory
 * or in the previous one, each routed by the hash modulo its own slot count; the map stands for the
 * union. Every operation here runs under the locks that make it atomic (the Protocol modules are about
 * the locks themselves).
 */
module ShardedMap {
  import opened Domain
  import opened Routing
  import Mutation
  import opened Tracker

  datatype SnapshotMode = Clone | Cached | Cow

  datatype CasResult = Success(value: Value) | Failure(value: Value)

  class StarMap {
    const hash: Hasher
    const mode: SnapshotMode
    const tracker: RebalanceTracker
    var active: seq<Slot>
    var previous: Option<seq<Slot>>
    var shardCount: nat
    var previousShardCount: nat
    var totalLen: nat
    var writeEpoch: nat
    var cache: Option<(nat, seq<(Key, Value)>)>

    /** The map the two directories stand for; `Valid` makes it a function of them. */
    ghost var logical: Table
    /** The keys still waiting in the previous directory. */
    ghost var waiting: set<Key>

    ghost function Source(): seq<Slot>
      reads this
    {
      if previous.Some? then previous.value else []
    }

    /** Directory shapes, and the three ways of saying that a migration runs, agree. */
    ghost predicate Shaped()
      reads this, tracker
    {
      && tracker.Valid()
      && shardCount == |active| > 0
      && previousShardCount == |Source()|
      && (previous.Some? <==> previousShardCount != 0)
      && (previous.Some? <==> tracker.migrating)
      && (tracker.migrating ==> tracker.totalShards == |Source()|)
      && (tracker.migrating ==> forall j :: 0 <= j < tracker.completedShards ==> Source()[j] == None)
    }

    ghost predicate Placed()
      reads this
    {
      Stands(hash, active, Source(), logical, waiting)
    }

    /** A cached listing whose epoch is current lists the logical map. */
    ghost predicate CacheCoherent()
      reads this
    {
      cache.Some? ==>
        cache.value.0 <= writeEpoch && (cache.value.0 == writeEpoch ==> Enumerates(cache.value.1, logical))
    }

    ghost predicate Valid()
      reads this, tracker
    {
      Shaped() && Placed() && totalLen == |logical| && CacheCoherent()
    }

    /** Work left to the migration: entries to move plus source slots to retire. */
    ghost function Remaining(): nat
      reads this, tracker
      requires Shaped()
    {
      if tracker.migrating then |waiting| + (tracker.totalShards - tracker.completedShards) else 0
    }

    constructor (hash: Hasher, count: nat, mode: SnapshotMode)
      requires count > 0
      ensures Valid() && logical == map[] && !tracker.migrating && fresh(tracker)
      ensures this.hash == hash && this.mode == mode && shardCount == count && writeEpoch == 0
    {
      this.hash, this.mode := hash, mode;
      this.tracker := new RebalanceTracker();
      active, previous := seq(count, _ => None), None;
      shardCount, previousShardCount, totalLen, writeEpoch, cache := count, 0, 0, 0, None;
      logical, waiting := map[], {};
      new;
      StandsForEmpty(hash, active, Source());
    }

    function ShardIndex(key: Key): (i: nat)
      reads this
      requires shardCount > 0
      ensures i < shardCount
    {
      IndexOf(hash, key, shardCount)
    }

    method GetOrInitShard(i: nat)
      requires Valid() && i < shardCount
      modifies this`active
      ensures Valid() && active[i].Some?
      ensures active == old(active)[i := Some(TableOf(old(active)[i]))]
    {
      if active[i].None? {
        InitSlot(hash, active, Source(), logical, waiting, i);
        active := active[i := Some(map[])];
      }
    }

    /** A physical move, not a new key: neither the length nor the epoch changes. */
    method PromotePrevious(key: Key)
      requires Valid() && active[ShardIndex(key)].Some?
      modifies this`active, this`previous, this`waiting
      ensures Valid() && active == old(active)[ShardIndex(key) := active[ShardIndex(key)]] &&
              active[ShardIndex(key)].Some?
      ensures waiting == old(waiting) - {key}
      ensures Lookup(active[ShardIndex(key)].value, key) == Lookup(logical, key)
    {
      if previousShardCount != 0 {
        var i, j := ShardIndex(key), IndexOf(hash, key, previousShardCount);
        var shard := previous.value[j];
        if shard.Some? && key in shard.value {
          PromoteKey(hash, active, Source(), logical, waiting, key);
          var (target, source) := Mutation.Promoted(active[i].value, shard.value, key);
          active := active[i := Some(target)];
          previous := Some(previous.value[j := Some(source)]);
          waiting := waiting - {key};
        }
      }
      SlotShare(hash, active, Source(), logical, waiting, ShardIndex(key), key);
    }

    /** One change of a settled key under its shard's write lock, published before the lock is released. */
    method Mutate(c: Mutation.Change) returns (before: Option<Value>)
      requires Valid() && active[ShardIndex(c.key)].Some? && c.key !in waiting
      modifies this`active, this`totalLen, this`writeEpoch, this`logical
      ensures Valid() && active == old(active)[ShardIndex(c.key) := active[ShardIndex(c.key)]] &&
              active[ShardIndex(c.key)].Some?
      ensures logical == Mutation.Changed(old(logical), c)
      ensures before == Lookup(old(logical), c.key)
      ensures writeEpoch == old(writeEpoch) + (if c.Insert? || before.Some? then 1 else 0)
      ensures logical != old(logical) ==> writeEpoch > old(writeEpoch)
    {
      hide Stands, Enumerates;
      var i := ShardIndex(c.key);
      BindActive(hash, active, Source(), logical, waiting, c.key, Mutation.Outcome(c));
      BindSize(active[i].value, c.key, Mutation.Outcome(c));
      BindSize(logical, c.key, Mutation.Outcome(c));
      SlotFits(hash, active, Source(), logical, waiting, i);
      var table, len, epoch;
      table, len, epoch, before := Mutation.MutateOnce(active[i].value, totalLen, writeEpoch, c);
      active, totalLen, writeEpoch, logical := active[i := Some(table)], len, epoch, Mutation.Changed(logical, c);
    }

    /** Allocates the key's shard and settles the key in it. */
    method Settle(key: Key)
      requires Valid()
      modifies this`active, this`previous, this`waiting
      ensures Valid() && active[ShardIndex(key)].Some?
      ensures waiting == old(waiting) - {key}
      ensures Lookup(active[ShardIndex(key)].value, key) == Lookup(logical, key)
    {
      GetOrInitShard(ShardIndex(key));
      PromotePrevious(key);
    }

    method Insert(key: Key, value: Value) returns (before: Option<Value>)
      requires Valid()
      modifies this`active, this`previous, this`waiting, this`totalLen, this`writeEpoch, this`logical
      ensures Valid()
      ensures logical == old(logical)[key := value]
      ensures before == Lookup(old(logical), key)
      ensures waiting == old(waiting) - {key}
      ensures writeEpoch == old(writeEpoch) + 1
    {
      Settle(key);
      before := Mutate(Mutation.Insert(key, value));
    }

    /** Active lookup first, previous generation as fallback; allocates nothing. */
    method Get(key: Key) returns (r: Option<Value>)
      requires Valid()
      ensures r == Lookup(logical, key)
    {
      var slot := active[ShardIndex(key)];
      SlotShare(hash, active, Source(), logical, waiting, ShardIndex(key), key);
      if slot.Some? && key in slot.value {
        return Some(slot.value[key]);
      }
      if previousShardCount == 0 {
        return None;
      }
      var old_ := previous.value[IndexOf(hash, key, previousShardCount)];
      r := if old_.Some? then Lookup(old_.value, key) else None;
    }

    method Remove(key: Key) returns (before: Option<Value>)
      requires Valid()
      modifies this`active, this`previous, this`waiting, this`totalLen, this`writeEpoch, this`logical
      ensures Valid()
      ensures logical == old(logical) - {key}
      ensures before == Lookup(old(logical), key)
      ensures waiting == old(waiting) - {key}
      ensures writeEpoch == old(writeEpoch) + (if key in old(logical) then 1 else 0)
    {
      SlotShare(hash, active, Source(), logical, waiting, ShardIndex(key), key);
      if active[ShardIndex(key)].None? && previousShardCount == 0 {
        return None;
      }
      Settle(key);
      if mode == Cow && key !in active[ShardIndex(key)].value {
        return None;
      }
      before := Mutate(Mutation.Remove(key));
    }

    /** The stored value, or the freshly computed one, which is then stored. */
    method GetOrInsertWith(key: Key, f: () -> Value) returns (value: Value)
      requires Valid()
      modifies this`active, this`previous, this`waiting, this`totalLen, this`writeEpoch, this`logical
      ensures Valid()
      ensures key in old(logical) ==> logical == old(logical) && value == logical[key] && writeEpoch == old(writeEpoch)
      ensures key !in old(logical) ==>
              logical == old(logical)[key := value] && value == f() && writeEpoch == old(writeEpoch) + 1
      ensures waiting == old(waiting) - {key}
    {
      Settle(key);
      var shard := active[ShardIndex(key)].value;
      if key in shard {
        return shard[key];
      }
      value := f();
      var _ := Mutate(Mutation.Insert(key, value));
    }

    /** Replaces a present value by `f` of it, removing it when `f` gives nothing. */
    method ComputeIfPresent(key: Key, f: Value -> Option<Value>) returns (result: Option<Value>)
      requires Valid()
      modifies this`active, this`previous, this`waiting, this`totalLen, this`writeEpoch, this`logical
      ensures Valid()
      ensures result == if key in old(logical) then f(old(logical)[key]) else None
      ensures logical == if key in old(logical) then Bind(old(logical), key, result) else old(logical)
      ensures waiting == old(waiting) - {key}
      ensures writeEpoch == old(writeEpoch) + (if key in old(logical) then 1 else 0)
    {
      Settle(key);
      var shard := active[ShardIndex(key)].value;
      if key !in shard {
        return None;
      }
      result := f(shard[key]);
      if result.Some? {
        var _ := Mutate(Mutation.Insert(key, result.value));
      } else {
        var _ := Mutate(Mutation.Remove(key));
      }
    }

    /** An absent key fails carrying the new value, a mismatch fails carrying the current one. */
    method CompareAndSwap(key: Key, expected: Value, new_: Value) returns (r: CasResult)
      requires Valid()
      modifies this`active, this`previous, this`waiting, this`totalLen, this`writeEpoch, this`logical
      ensures Valid()
      ensures r.Success? <==> Lookup(old(logical), key) == Some(expected)
      ensures r.value == if key in old(logical) && old(logical)[key] != expected then old(logical)[key] else new_
      ensures logical == if r.Success? then old(logical)[key := new_] else old(logical)
      ensures waiting == old(waiting) - {key}
      ensures writeEpoch == old(writeEpoch) + (if r.Success? then 1 else 0)
    {
      Settle(key);
      var shard := active[ShardIndex(key)].value;
      if key in shard && shard[key] == expected {
        var _ := Mutate(Mutation.Insert(key, new_));
        r := Success(new_);
      } else if key in shard {
        r := Failure(shard[key]);
      } else {
        r := Failure(new_);
      }
    }

    method CompareAndRemove(key: Key, expected: Value) returns (removed: bool)
      requires Valid()
      modifies this`active, this`previous, this`waiting, this`totalLen, this`writeEpoch, this`logical
      ensures Valid()
      ensures removed <==> Lookup(old(logical), key) == Some(expected)
      ensures logical == if removed then old(logical) - {key} else old(logical)
      ensures waiting == old(waiting) - {key}
      ensures writeEpoch == old(writeEpoch) + (if removed then 1 else 0)
    {
      Settle(key);
      var shard := active[ShardIndex(key)].value;
      removed := key in shard && shard[key] == expected;
      if removed {
        var _ := Mutate(Mutation.Remove(key));
      }
    }
  }
}
