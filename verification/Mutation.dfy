/**
 * Failure-atomic changes of shard tables.
 *
 * User code (Clone, Hash, Eq, Drop) may unwind out of any operation. Every call into user code is a
 * numbered point; `unwinds(p)` says whether the call at point `p` panics, so a contract that holds for
 * every `unwinds` holds wherever the operation is stopped.
 */
module Mutation {
  import opened Domain

  // ---------------------------------------------------------------- promotion

  /** What a completed promotion makes of an active and a previous table: the active binding wins. */
  function Promoted(active: Table, previous: Table, key: Key): (r: (Table, Table))
    ensures r.1 + r.0 == previous + active
    ensures key !in r.1
    ensures active.Keys !! previous.Keys ==> r.0.Keys !! r.1.Keys
  {
    if key !in previous then (active, previous)
    else if key in active then (active, previous - {key})
    else (active[key := previous[key]], previous - {key})
  }

  type Unwinds = nat -> bool

  const LOOKUP_SOURCE: nat := 0
  const CLONE_KEY: nat := 1
  const CLONE_TABLE: nat := 2
  const GROW_TABLE: nat := 3
  const FIND_DESTINATION: nat := 4
  const FIND_SOURCE: nat := 5
  const DROP_TABLE: nat := 6
  const DROP_KEY: nat := 7
  const DROP_VALUE: nat := 8

  /** An open-addressing table: growing rehashes resident keys, so only spare capacity makes insertion infallible. */
  class HashTable {
    var entries: Table
    var capacity: nat

    ghost predicate Valid()
      reads this
    {
      |entries| <= capacity
    }

    constructor Copy(entries: Table, capacity: nat)
      requires |entries| <= capacity
      ensures Valid() && this.entries == entries && this.capacity == capacity
    {
      this.entries, this.capacity := entries, capacity;
    }

    method ReserveOne()
      requires Valid()
      modifies this
      ensures Valid() && entries == old(entries) && |entries| < capacity
    {
      if |entries| == capacity {
        capacity := 2 * capacity + 1;
      }
    }

    /** Runs no user code: the slot was located beforehand and no resident key is rehashed. */
    method InsertVacant(key: Key, value: Value)
      requires Valid() && key !in entries && |entries| < capacity
      modifies this
      ensures Valid() && entries == old(entries)[key := value] && capacity == old(capacity)
    {
      entries := entries[key := value];
    }

    /** Runs no user code: the pair was located beforehand. */
    method Detach(key: Key) returns (value: Value)
      requires Valid() && key in entries
      modifies this
      ensures Valid() && entries == old(entries) - {key} && value == old(entries)[key]
    {
      value := entries[key];
      entries := entries - {key};
    }
  }

  /**
   * Moves one previous-generation entry to the active generation, stopping wherever `unwinds` says.
   * At every stop the two generations hold the same union, stay disjoint, and are either untouched or
   * fully promoted; a stop before the commit (points 0-5) leaves them untouched.
   */
  method PromoteEntry(active: HashTable, previous: HashTable, key: Key, unwinds: Unwinds) returns (completed: bool)
    requires active != previous && active.Valid() && previous.Valid()
    modifies active, previous
    ensures active.Valid() && previous.Valid()
    ensures previous.entries + active.entries == old(previous.entries + active.entries)
    ensures old(active.entries.Keys !! previous.entries.Keys) ==> active.entries.Keys !! previous.entries.Keys
    ensures (active.entries, previous.entries) == old((active.entries, previous.entries))
         || (active.entries, previous.entries) == Promoted(old(active.entries), old(previous.entries), key)
    ensures completed ==>
              (active.entries, previous.entries) == Promoted(old(active.entries), old(previous.entries), key)
    ensures previous.entries == old(previous.entries) || previous.entries == old(previous.entries) - {key}
    ensures (forall p: nat :: p < DROP_TABLE ==> !unwinds(p)) ==> key !in previous.entries
    ensures (forall p: nat :: !unwinds(p)) ==> completed
    ensures !completed && (forall p: nat :: p >= DROP_TABLE ==> !unwinds(p)) ==>
            (active.entries, previous.entries) == old((active.entries, previous.entries))
  {
    if unwinds(LOOKUP_SOURCE) { return false; }
    if key !in previous.entries {
      return true;
    }
    if unwinds(CLONE_KEY) { return false; }
    // A full destination is prepared on a copy, so that growth never touches a live generation.
    var destination := active;
    var full := |active.entries| == active.capacity;
    if full {
      if unwinds(CLONE_TABLE) { return false; }
      destination := new HashTable.Copy(active.entries, active.capacity);
      if unwinds(GROW_TABLE) { return false; }
      destination.ReserveOne();
    }
    if unwinds(FIND_DESTINATION) { return false; }
    if unwinds(FIND_SOURCE) { return false; }
    // Commit: no user code from here until both generations are published.
    var value := previous.Detach(key);
    if key !in destination.entries {
      destination.InsertVacant(key, value);
    }
    if full {
      active.entries, active.capacity := destination.entries, destination.capacity;
    }
    assert (active.entries, previous.entries) == Promoted(old(active.entries), old(previous.entries), key);
    // Retired objects are destroyed only now.
    if full && unwinds(DROP_TABLE) { return false; }
    if unwinds(DROP_KEY) { return false; }
    if unwinds(DROP_VALUE) { return false; }
    completed := true;
  }

  /**
   * The migration worker's move. The caller took `key` from the locked source, and destruction of the
   * retired objects is deferred past the locks, so the only stops are before the commit.
   */
  method MoveOne(active: HashTable, source: HashTable, key: Key, unwinds: Unwinds) returns (moved: bool)
    requires active != source && active.Valid() && source.Valid()
    requires key in source.entries
    modifies active, source
    ensures active.Valid() && source.Valid()
    ensures source.entries + active.entries == old(source.entries + active.entries)
    ensures old(active.entries.Keys !! source.entries.Keys) ==> active.entries.Keys !! source.entries.Keys
    ensures (active.entries, source.entries) ==
            if moved then Promoted(old(active.entries), old(source.entries), key)
            else old((active.entries, source.entries))
    ensures source.entries == if moved then old(source.entries) - {key} else old(source.entries)
    ensures !moved <==> (unwinds(CLONE_KEY) ||
                         (old(|active.entries| == active.capacity) && (unwinds(CLONE_TABLE) || unwinds(GROW_TABLE)))
                         || unwinds(FIND_DESTINATION) || unwinds(FIND_SOURCE))
  {
    if unwinds(CLONE_KEY) { return false; }
    var destination := active;
    var full := |active.entries| == active.capacity;
    if full {
      if unwinds(CLONE_TABLE) { return false; }
      destination := new HashTable.Copy(active.entries, active.capacity);
      if unwinds(GROW_TABLE) { return false; }
      destination.ReserveOne();
    }
    if unwinds(FIND_DESTINATION) { return false; }
    if unwinds(FIND_SOURCE) { return false; }
    var value := source.Detach(key);
    if key !in destination.entries {
      destination.InsertVacant(key, value);
    }
    if full {
      active.entries, active.capacity := destination.entries, destination.capacity;
    }
    moved := true;
  }

  // ------------------------------------------------- publication of mutations

  /** Where user code inside one table change stops it, if anywhere. */
  datatype Stop = Completes | BeforeCommit | AfterCommit

  datatype Change = Insert(key: Key, value: Value) | Remove(key: Key)

  function Outcome(c: Change): Option<Value> {
    if c.Insert? then Some(c.value) else None
  }

  function Changed(t: Table, c: Change): (r: Table)
    ensures Lookup(r, c.key) == Outcome(c)
    ensures forall x :: x != c.key ==> Lookup(r, x) == Lookup(t, x)
  {
    Bind(t, c.key, Outcome(c))
  }

  /** Accounts for the changes made to one write-locked table; publication happens when it is dropped. */
  class ShardMutation {
    var table: Table
    var totalLen: nat
    var writeEpoch: nat
    const initialLen: nat
    var changed: bool
    ghost const initial: Table

    ghost predicate Valid()
      reads this
    {
      && initialLen == |initial| <= totalLen
      // Removals alone only shrink the table, which the length comparison sees.
      && (!changed ==> table.Keys <= initial.Keys && forall k :: k in table ==> table[k] == initial[k])
    }

    constructor (table: Table, totalLen: nat, writeEpoch: nat)
      requires |table| <= totalLen
      ensures Valid() && this.table == table && initial == table && !changed
      ensures this.totalLen == totalLen && this.writeEpoch == writeEpoch
    {
      this.table, this.totalLen, this.writeEpoch := table, totalLen, writeEpoch;
      this.initialLen, this.changed := |table|, false;
      this.initial := table;
    }

    method Apply(c: Change, stop: Stop) returns (old_: Option<Value>)
      requires Valid()
      modifies this`table, this`changed
      ensures Valid()
      ensures table == if stop == BeforeCommit then old(table) else Changed(old(table), c)
      ensures old_ == Lookup(old(table), c.key)
      ensures changed == (old(changed) || c.Insert?)
    {
      old_ := Lookup(table, c.key);
      if c.Insert? {
        // Marked before user code runs: a replacement may be committed when a destructor panics.
        changed := true;
      }
      if stop != BeforeCommit {
        table := Changed(table, c);
      }
    }

    /** The drop that runs on normal exit and while unwinding. */
    method Publish()
      requires Valid()
      modifies this`totalLen, this`writeEpoch
      ensures totalLen == old(totalLen) + |table| - |initial|
      ensures writeEpoch == old(writeEpoch) + (if changed || |table| != |initial| then 1 else 0)
      ensures table != initial ==> writeEpoch == old(writeEpoch) + 1
    {
      var finalLen := |table|;
      if finalLen > initialLen {
        totalLen := totalLen + (finalLen - initialLen);
      } else if finalLen < initialLen {
        totalLen := totalLen - (initialLen - finalLen);
      }
      if changed || finalLen != initialLen {
        writeEpoch := writeEpoch + 1;
      }
      if !changed && |table| == |initial| {
        KeysSize(table);
        KeysSize(initial);
        SubsetSize(table.Keys, initial.Keys);
      }
    }
  }

  /** One completed change, published. */
  method MutateOnce(table: Table, totalLen: nat, writeEpoch: nat, c: Change)
    returns (finalTable: Table, finalLen: nat, finalEpoch: nat, before: Option<Value>)
    requires |table| <= totalLen
    ensures finalTable == Changed(table, c) && before == Lookup(table, c.key)
    ensures finalLen == totalLen + |finalTable| - |table|
    ensures finalEpoch == writeEpoch + (if c.Insert? || before.Some? then 1 else 0)
    ensures finalTable != table ==> finalEpoch == writeEpoch + 1
  {
    BindSize(table, c.key, Outcome(c));
    var mutation := new ShardMutation(table, totalLen, writeEpoch);
    before := mutation.Apply(c, Completes);
    mutation.Publish();
    return mutation.table, mutation.totalLen, mutation.writeEpoch, before;
  }

  /** The table left behind when a run of changes stops at the first change that does not complete. */
  function Committed(t: Table, run: seq<(Change, Stop)>): Table
    decreases |run|
  {
    if run == [] then t
    else match run[0].1
      case BeforeCommit => t
      case AfterCommit => Changed(t, run[0].0)
      case Completes => Committed(Changed(t, run[0].0), run[1..])
  }

  ghost predicate InsertReached(run: seq<(Change, Stop)>)
    decreases |run|
  {
    run != [] && (run[0].0.Insert? || (run[0].1 == Completes && InsertReached(run[1..])))
  }

  /**
   * One guarded mutation, stopped by user code after any prefix of its changes: the published length
   * is exact for what was committed, and the epoch moves whenever the contents did.
   */
  method RunMutation(table: Table, totalLen: nat, writeEpoch: nat, run: seq<(Change, Stop)>)
    returns (finalTable: Table, finalLen: nat, finalEpoch: nat)
    requires |table| <= totalLen
    ensures finalTable == Committed(table, run)
    ensures finalLen == totalLen + |finalTable| - |table|
    ensures finalTable != table ==> finalEpoch == writeEpoch + 1
    ensures finalEpoch == writeEpoch + (if InsertReached(run) || |finalTable| != |table| then 1 else 0)
  {
    hide Committed, InsertReached;
    var mutation := new ShardMutation(table, totalLen, writeEpoch);
    var i := 0;
    var running := true;
    assert run[0..] == run;
    while running && i < |run|
      invariant 0 <= i <= |run|
      invariant mutation.Valid() && mutation.initial == table
      invariant mutation.totalLen == totalLen && mutation.writeEpoch == writeEpoch
      invariant running ==> Committed(table, run) == Committed(mutation.table, run[i..])
      invariant running ==> (InsertReached(run) <==> mutation.changed || InsertReached(run[i..]))
      invariant !running ==> Committed(table, run) == mutation.table && (InsertReached(run) <==> mutation.changed)
      decreases |run| - i, running
    {
      var c, stop := run[i].0, run[i].1;
      Unroll(mutation.table, run, i);
      var _ := mutation.Apply(c, stop);
      running := stop == Completes;
      i := i + 1;
    }
    RunEnds(mutation.table, run);
    mutation.Publish();
    return mutation.table, mutation.totalLen, mutation.writeEpoch;
  }

  /** One more change of a run. */
  lemma Unroll(t: Table, run: seq<(Change, Stop)>, i: nat)
    requires i < |run|
    ensures Committed(t, run[i..]) ==
            match run[i].1
            case BeforeCommit => t
            case AfterCommit => Changed(t, run[i].0)
            case Completes => Committed(Changed(t, run[i].0), run[i + 1..])
    ensures InsertReached(run[i..]) <==> run[i].0.Insert? || (run[i].1 == Completes && InsertReached(run[i + 1..]))
  {
    assert run[i..][0] == run[i] && run[i..][1..] == run[i + 1..];
  }

  lemma RunEnds(t: Table, run: seq<(Change, Stop)>)
    ensures Committed(t, run[|run|..]) == t && !InsertReached(run[|run|..])
  {
  }
}
