/** Bucketed batch operations against sequential processing of their input. */
module Batches {
  import opened Domain
  import opened Routing
  import opened Mutation
  import opened ShardedMap

  // ------------------------------------------------------- sequential meaning

  function ApplyAll(m: Table, cs: seq<Change>): Table
    decreases |cs|
  {
    if cs == [] then m else ApplyAll(Changed(m, cs[0]), cs[1..])
  }

  /** Whether a change adds a missing key or takes away a present one. */
  function Hit(m: Table, c: Change): nat {
    if c.Insert? == (c.key in m) then 0 else 1
  }

  /** How many changes of a sequential run hit. */
  function Hits(m: Table, cs: seq<Change>): nat
    decreases |cs|
  {
    if cs == [] then 0 else Hit(m, cs[0]) + Hits(Changed(m, cs[0]), cs[1..])
  }

  /** What the last change of `k` leaves, if any change names `k`. */
  function Last(cs: seq<Change>, k: Key): Option<Option<Value>> {
    if cs == [] then None
    else if cs[|cs| - 1].key == k then Some(Outcome(cs[|cs| - 1]))
    else Last(cs[..|cs| - 1], k)
  }

  /** The changes routed to one slot, in input order. */
  function Select(h: Hasher, count: nat, cs: seq<Change>, i: nat): seq<Change>
    requires count > 0
  {
    if cs == [] then []
    else
      var rest := Select(h, count, cs[..|cs| - 1], i);
      if IndexOf(h, cs[|cs| - 1].key, count) == i then rest + [cs[|cs| - 1]] else rest
  }

  lemma {:induction false} ApplyAppend(m: Table, cs: seq<Change>, c: Change)
    ensures ApplyAll(m, cs + [c]) == Changed(ApplyAll(m, cs), c)
    ensures Hits(m, cs + [c]) == Hits(m, cs) + Hit(ApplyAll(m, cs), c)
    decreases |cs|
  {
    if cs == [] {
      assert ([c])[1..] == [];
    } else {
      assert (cs + [c])[1..] == cs[1..] + [c];
      ApplyAppend(Changed(m, cs[0]), cs[1..], c);
    }
  }

  /** A run leaves at each key what its last change of that key says. */
  lemma {:induction false} ApplyLookup(m: Table, cs: seq<Change>, k: Key)
    ensures Lookup(ApplyAll(m, cs), k) == if Last(cs, k).Some? then Last(cs, k).value else Lookup(m, k)
    decreases |cs|
  {
    if cs != [] {
      var front, c := cs[..|cs| - 1], cs[|cs| - 1];
      assert cs == front + [c];
      ApplyAppend(m, front, c);
      ApplyLookup(m, front, k);
    }
  }

  lemma {:induction false} SelectLast(h: Hasher, count: nat, cs: seq<Change>, k: Key)
    requires count > 0
    ensures Last(Select(h, count, cs, IndexOf(h, k, count)), k) == Last(cs, k)
    decreases |cs|
  {
    if cs != [] {
      var i := IndexOf(h, k, count);
      var c, front := cs[|cs| - 1], cs[..|cs| - 1];
      SelectLast(h, count, front, k);
      var rest := Select(h, count, front, i);
      if IndexOf(h, c.key, count) == i {
        assert (rest + [c])[..|rest|] == rest;
      }
    }
  }

  lemma {:induction false} SelectRouted(h: Hasher, count: nat, cs: seq<Change>, i: nat)
    requires count > 0
    ensures forall c :: c in Select(h, count, cs, i) ==> c in cs && IndexOf(h, c.key, count) == i
    decreases |cs|
  {
    if cs != [] {
      SelectRouted(h, count, cs[..|cs| - 1], i);
    }
  }

  ghost predicate Pure(cs: seq<Change>, inserts: bool) {
    forall i :: 0 <= i < |cs| ==> cs[i].Insert? == inserts
  }

  /** In a run of one kind, the hits are exactly the change of the size. */
  lemma {:induction false} HitsAreGrowth(m: Table, cs: seq<Change>, inserts: bool)
    requires Pure(cs, inserts)
    ensures |ApplyAll(m, cs)| == if inserts then |m| + Hits(m, cs) else |m| - Hits(m, cs)
    decreases |cs|
  {
    if cs != [] {
      BindSize(m, cs[0].key, Outcome(cs[0]));
      HitsAreGrowth(Changed(m, cs[0]), cs[1..], inserts);
    }
  }

  // -------------------------------------------------------------- one bucket

  /** One bucket under a single shard mutation, published once. */
  method RunBucket(t: Table, totalLen: nat, writeEpoch: nat, cs: seq<Change>)
    returns (after: Table, finalLen: nat, finalEpoch: nat, hits: nat)
    requires |t| <= totalLen
    ensures after == ApplyAll(t, cs) && hits == Hits(t, cs)
    ensures finalLen == totalLen + |after| - |t|
    ensures writeEpoch <= finalEpoch <= writeEpoch + 1
    ensures after != t ==> finalEpoch == writeEpoch + 1
  {
    var mutation := new ShardMutation(t, totalLen, writeEpoch);
    hits := 0;
    var n := 0;
    while n < |cs|
      invariant 0 <= n <= |cs|
      invariant mutation.Valid() && mutation.initial == t
      invariant mutation.totalLen == totalLen && mutation.writeEpoch == writeEpoch
      invariant mutation.table == ApplyAll(t, cs[..n]) && hits == Hits(t, cs[..n])
    {
      assert cs[..n + 1] == cs[..n] + [cs[n]];
      ApplyAppend(t, cs[..n], cs[n]);
      var before := mutation.Apply(cs[n], Completes);
      if before.Some? != cs[n].Insert? {
        hits := hits + 1;
      }
      n := n + 1;
    }
    assert cs[..n] == cs;
    mutation.Publish();
    return mutation.table, mutation.totalLen, mutation.writeEpoch, hits;
  }

  method ApplyBucket(m: StarMap, i: nat, cs: seq<Change>) returns (hits: nat)
    requires m.Valid() && m.waiting == {} && i < m.shardCount && m.active[i].Some?
    requires forall c :: c in cs ==> IndexOf(m.hash, c.key, m.shardCount) == i
    modifies m`active, m`totalLen, m`writeEpoch, m`logical
    ensures m.Valid()
    ensures forall k :: Lookup(m.logical, k) == Left(cs, k, old(m.logical))
    ensures hits == Hits(TableOf(old(m.active)[i]), cs)
    ensures |m.logical| - |old(m.logical)| == |ApplyAll(TableOf(old(m.active)[i]), cs)| - |TableOf(old(m.active)[i])|
    ensures m.writeEpoch >= old(m.writeEpoch)
  {
    ghost var after := BucketStands(m.hash, m.active, m.Source(), m.logical, i, cs);
    SlotFits(m.hash, m.active, m.Source(), m.logical, m.waiting, i);
    var table, len, epoch, n := RunBucket(m.active[i].value, m.totalLen, m.writeEpoch, cs);
    m.active := m.active[i := Some(table)];
    m.totalLen, m.writeEpoch := len, epoch;
    m.logical := after;
    hits := n;
  }

  /** What a run leaves at `k` when it starts from `m`. */
  function Left(cs: seq<Change>, k: Key, m: Table): Option<Value> {
    if Last(cs, k).Some? then Last(cs, k).value else Lookup(m, k)
  }

  /** A bucket's changes to its slot are those changes to the map. */
  lemma BucketStands(h: Hasher, active: seq<Slot>, source: seq<Slot>, logical: Table, i: nat, cs: seq<Change>)
    returns (after: Table)
    requires Stands(h, active, source, logical, {}) && i < |active|
    requires forall c :: c in cs ==> IndexOf(h, c.key, |active|) == i
    ensures Stands(h, active[i := Some(ApplyAll(TableOf(active[i]), cs))], source, after, {})
    ensures |after| + |TableOf(active[i])| == |logical| + |ApplyAll(TableOf(active[i]), cs)|
    ensures forall k :: Lookup(after, k) == Left(cs, k, logical)
    ensures ApplyAll(TableOf(active[i]), cs) == TableOf(active[i]) ==> after == logical
  {
    var t := ApplyAll(TableOf(active[i]), cs);
    after := Patch(logical, TableOf(active[i]).Keys, t);
    forall k
      ensures k in t ==> IndexOf(h, k, |active|) == i
      ensures Lookup(after, k) == Left(cs, k, logical)
      ensures t == TableOf(active[i]) ==> Lookup(after, k) == Lookup(logical, k)
    {
      ApplyLookup(TableOf(active[i]), cs, k);
      LastNamed(cs, k);
      SlotShare(h, active, source, logical, {}, i, k);
    }
    SwapActive(h, active, source, logical, {}, i, t, after);
    if t == TableOf(active[i]) {
      SameLookups(after, logical);
    }
  }

  lemma {:induction false} LastNamed(cs: seq<Change>, k: Key)
    ensures Last(cs, k).Some? ==> exists c :: c in cs && c.key == k
    decreases |cs|
  {
    if cs != [] {
      if cs[|cs| - 1].key == k {
        assert cs[|cs| - 1] in cs;
      } else {
        LastNamed(cs[..|cs| - 1], k);
      }
    }
  }

  // ------------------------------------------------------------ whole batches

  /** Groups a batch by destination slot. */
  method Bucketize(h: Hasher, count: nat, cs: seq<Change>) returns (buckets: map<nat, seq<Change>>)
    requires count > 0
    ensures forall i: nat :: i in buckets <==> Select(h, count, cs, i) != []
    ensures forall i: nat :: i in buckets ==> buckets[i] == Select(h, count, cs, i)
  {
    buckets := map[];
    var n := 0;
    while n < |cs|
      invariant 0 <= n <= |cs|
      invariant forall i: nat :: i in buckets <==> Select(h, count, cs[..n], i) != []
      invariant forall i: nat :: i in buckets ==> buckets[i] == Select(h, count, cs[..n], i)
    {
      assert cs[..n + 1][..n] == cs[..n];
      var i := IndexOf(h, cs[n].key, count);
      var bucket := if i in buckets then buckets[i] else [];
      buckets := buckets[i := bucket + [cs[n]]];
      n := n + 1;
    }
    assert cs[..n] == cs;
  }

  /** Slots outside `todo` hold what the whole batch leaves there; the others are as before the batch. */
  ghost predicate Partway(h: Hasher, count: nat, cs: seq<Change>, todo: set<nat>, start: Table, now: Table)
    requires count > 0
  {
    forall k :: Lookup(now, k) == if IndexOf(h, k, count) in todo then Lookup(start, k) else Left(cs, k, start)
  }

  lemma PartwayStart(h: Hasher, count: nat, cs: seq<Change>, todo: set<nat>, start: Table)
    requires count > 0 && (forall i: nat :: i in todo <==> Select(h, count, cs, i) != [])
    ensures Partway(h, count, cs, todo, start, start)
  {
    forall k | IndexOf(h, k, count) !in todo ensures Left(cs, k, start) == Lookup(start, k) {
      SelectLast(h, count, cs, k);
    }
  }

  lemma PartwayStep(h: Hasher, count: nat, cs: seq<Change>, todo: set<nat>, start: Table, now: Table, i: nat,
                    next: Table)
    requires count > 0 && Partway(h, count, cs, todo, start, now)
    requires forall k :: Lookup(next, k) == Left(Select(h, count, cs, i), k, now)
    ensures Partway(h, count, cs, todo - {i}, start, next)
  {
    forall k
      ensures Lookup(next, k) == if IndexOf(h, k, count) in todo - {i} then Lookup(start, k) else Left(cs, k, start)
    {
      SelectRouted(h, count, cs, i);
      LastNamed(Select(h, count, cs, i), k);
      SelectLast(h, count, cs, k);
    }
  }

  lemma PartwayEnd(h: Hasher, count: nat, cs: seq<Change>, start: Table, now: Table)
    requires count > 0 && Partway(h, count, cs, {}, start, now)
    ensures now == ApplyAll(start, cs)
  {
    forall k ensures Lookup(now, k) == Lookup(ApplyAll(start, cs), k) {
      ApplyLookup(start, cs, k);
    }
    SameLookups(now, ApplyAll(start, cs));
  }

  /** Removing keys that are all absent leaves everything as it is. */
  lemma AbsentRemovals(cs: seq<Change>, m: Table, k: Key)
    requires Pure(cs, false) && (forall c :: c in cs ==> c.key !in m)
    ensures Lookup(m, k) == Left(cs, k, m)
  {
    LastNamed(cs, k);
    RemovalsLeaveNothing(cs, k);
  }

  lemma {:induction false} RemovalsLeaveNothing(cs: seq<Change>, k: Key)
    requires Pure(cs, false)
    ensures Last(cs, k).Some? ==> Last(cs, k).value == None
    decreases |cs|
  {
    if cs != [] && cs[|cs| - 1].key != k {
      RemovalsLeaveNothing(cs[..|cs| - 1], k);
    }
  }

  lemma SelectPure(h: Hasher, count: nat, cs: seq<Change>, i: nat, inserts: bool)
    requires count > 0 && Pure(cs, inserts)
    ensures Pure(Select(h, count, cs, i), inserts)
  {
    SelectRouted(h, count, cs, i);
    var bucket := Select(h, count, cs, i);
    assert forall n :: 0 <= n < |bucket| ==> bucket[n] in bucket;
  }

  function Inserts(entries: seq<(Key, Value)>): seq<Change> {
    seq(|entries|, i requires 0 <= i < |entries| => Insert(entries[i].0, entries[i].1))
  }

  function Removes(keys: seq<Key>): seq<Change> {
    seq(|keys|, i requires 0 <= i < |keys| => Remove(keys[i]))
  }

  lemma {:induction false} LastIs(cs: seq<Change>, k: Key, p: nat)
    requires p < |cs| && cs[p].key == k && forall q :: p < q < |cs| ==> cs[q].key != k
    ensures Last(cs, k) == Some(if cs[p].Insert? then Some(cs[p].value) else None)
    decreases |cs|
  {
    if p < |cs| - 1 {
      LastIs(cs[..|cs| - 1], k, p);
    }
  }

  lemma {:induction false} NeverNamed(cs: seq<Change>, k: Key)
    requires forall q :: 0 <= q < |cs| ==> cs[q].key != k
    ensures Last(cs, k) == None
    decreases |cs|
  {
    if cs != [] {
      NeverNamed(cs[..|cs| - 1], k);
    }
  }

  /** Position `p` is the last one that names its key. */
  predicate LastEntry(entries: seq<(Key, Value)>, p: nat)
    requires p < |entries|
  {
    forall q :: p < q < |entries| ==> entries[q].0 != entries[p].0
  }

  /** Sequential insertion binds every named key to its last value, leaves the others alone, and counts the new ones. */
  lemma InsertedInOrder(m: Table, entries: seq<(Key, Value)>)
    ensures var r := ApplyAll(m, Inserts(entries));
            && (forall p: nat :: p < |entries| && LastEntry(entries, p) ==>
                  entries[p].0 in r && r[entries[p].0] == entries[p].1)
            && (forall k :: (forall p :: 0 <= p < |entries| ==> entries[p].0 != k) ==> Lookup(r, k) == Lookup(m, k))
            && |r| == |m| + Hits(m, Inserts(entries))
  {
    var cs := Inserts(entries);
    var r := ApplyAll(m, cs);
    forall p: nat | p < |entries| && LastEntry(entries, p) ensures Lookup(r, entries[p].0) == Some(entries[p].1) {
      ApplyLookup(m, cs, entries[p].0);
      LastIs(cs, entries[p].0, p);
    }
    forall k | forall p :: 0 <= p < |entries| ==> entries[p].0 != k ensures Lookup(r, k) == Lookup(m, k) {
      ApplyLookup(m, cs, k);
      NeverNamed(cs, k);
    }
    HitsAreGrowth(m, cs, true);
  }

  /** Sequential removal drops the named keys, leaves the others alone, and counts the dropped ones. */
  lemma RemovedInOrder(m: Table, keys: seq<Key>)
    ensures var r := ApplyAll(m, Removes(keys));
            && (forall k :: Lookup(r, k) == if k in keys then None else Lookup(m, k))
            && |r| == |m| - Hits(m, Removes(keys))
  {
    var cs := Removes(keys);
    forall k ensures Lookup(ApplyAll(m, cs), k) == if k in keys then None else Lookup(m, k) {
      ApplyLookup(m, cs, k);
      if k in keys {
        RemovalNamed(cs, keys, k);
      } else {
        NeverNamed(cs, k);
      }
    }
    HitsAreGrowth(m, cs, false);
  }

  lemma {:induction false} RemovalNamed(cs: seq<Change>, keys: seq<Key>, k: Key)
    requires |cs| == |keys| && (forall i :: 0 <= i < |cs| ==> cs[i] == Remove(keys[i])) && k in keys
    ensures Last(cs, k) == Some(None)
    decreases |cs|
  {
    var n := |cs| - 1;
    if cs[n].key != k {
      assert keys == keys[..n] + [keys[n]];
      RemovalNamed(cs[..n], keys[..n], k);
    }
  }

  /** Inserts one by one while migrating and by destination bucket, in any bucket order, otherwise. */
  method BatchInsert(m: StarMap, entries: seq<(Key, Value)>) returns (inserted: nat)
    requires m.Valid()
    modifies m`active, m`previous, m`waiting, m`totalLen, m`writeEpoch, m`logical
    ensures m.Valid() && m.waiting <= old(m.waiting)
    ensures m.logical == ApplyAll(old(m.logical), Inserts(entries))
    ensures inserted == Hits(old(m.logical), Inserts(entries))
    ensures forall p: nat :: p < |entries| && LastEntry(entries, p) ==>
              entries[p].0 in m.logical && m.logical[entries[p].0] == entries[p].1
    ensures forall k :: (forall p :: 0 <= p < |entries| ==> entries[p].0 != k) ==>
              Lookup(m.logical, k) == Lookup(old(m.logical), k)
    ensures inserted == |m.logical| - |old(m.logical)|
  {
    var cs := Inserts(entries);
    if m.previousShardCount != 0 {
      inserted := InsertEach(m, entries);
      return;
    }
    assert m.waiting == {} by { NothingWaits(m); }
    ghost var start := m.logical;
    var buckets := Bucketize(m.hash, m.shardCount, cs);
    var todo := buckets.Keys;
    PartwayStart(m.hash, m.shardCount, cs, todo, start);
    inserted := 0;
    while todo != {}
      invariant m.Valid() && m.waiting == {} && todo <= buckets.Keys
      invariant Partway(m.hash, m.shardCount, cs, todo, start, m.logical)
      invariant |m.logical| == |start| + inserted
      decreases todo
    {
      var i :| i in todo;
      BucketInRange(m.hash, m.shardCount, cs, i);
      SelectRouted(m.hash, m.shardCount, cs, i);
      SelectPure(m.hash, m.shardCount, cs, i, true);
      m.GetOrInitShard(i);
      ghost var now, t := m.logical, m.active[i].value;
      var hits := ApplyBucket(m, i, buckets[i]);
      HitsAreGrowth(t, buckets[i], true);
      PartwayStep(m.hash, m.shardCount, cs, todo, start, now, i, m.logical);
      inserted := inserted + hits;
      todo := todo - {i};
    }
    PartwayEnd(m.hash, m.shardCount, cs, start, m.logical);
    InsertedInOrder(start, entries);
  }

  lemma NothingWaits(m: StarMap)
    requires m.Valid() && m.previousShardCount == 0
    ensures m.waiting == {}
  {
    forall k ensures k !in m.waiting {
      assert Find(m.hash, m.Source(), k) == None;
    }
  }

  lemma BucketInRange(h: Hasher, count: nat, cs: seq<Change>, i: nat)
    requires count > 0 && Select(h, count, cs, i) != []
    ensures i < count
  {
    SelectRouted(h, count, cs, i);
    assert Select(h, count, cs, i)[0] in Select(h, count, cs, i);
  }

  method InsertEach(m: StarMap, entries: seq<(Key, Value)>) returns (inserted: nat)
    requires m.Valid()
    modifies m`active, m`previous, m`waiting, m`totalLen, m`writeEpoch, m`logical
    ensures m.Valid() && m.waiting <= old(m.waiting)
    ensures m.logical == ApplyAll(old(m.logical), Inserts(entries))
    ensures inserted == Hits(old(m.logical), Inserts(entries))
    ensures forall p: nat :: p < |entries| && LastEntry(entries, p) ==>
              entries[p].0 in m.logical && m.logical[entries[p].0] == entries[p].1
    ensures forall k :: (forall p :: 0 <= p < |entries| ==> entries[p].0 != k) ==>
              Lookup(m.logical, k) == Lookup(old(m.logical), k)
    ensures inserted == |m.logical| - |old(m.logical)|
  {
    ghost var cs := Inserts(entries);
    inserted := 0;
    var n := 0;
    while n < |entries|
      invariant 0 <= n <= |entries| && m.Valid() && m.waiting <= old(m.waiting)
      invariant m.logical == ApplyAll(old(m.logical), cs[..n]) && inserted == Hits(old(m.logical), cs[..n])
    {
      assert cs[..n + 1] == cs[..n] + [cs[n]];
      ApplyAppend(old(m.logical), cs[..n], cs[n]);
      var before := m.Insert(entries[n].0, entries[n].1);
      if before.None? {
        inserted := inserted + 1;
      }
      n := n + 1;
    }
    assert cs[..n] == cs;
    InsertedInOrder(old(m.logical), entries);
  }

  method RemoveEach(m: StarMap, keys: seq<Key>) returns (removed: nat)
    requires m.Valid()
    modifies m`active, m`previous, m`waiting, m`totalLen, m`writeEpoch, m`logical
    ensures m.Valid() && m.waiting <= old(m.waiting)
    ensures m.logical == ApplyAll(old(m.logical), Removes(keys))
    ensures removed == Hits(old(m.logical), Removes(keys))
    ensures forall k :: Lookup(m.logical, k) == if k in keys then None else Lookup(old(m.logical), k)
    ensures removed == |old(m.logical)| - |m.logical|
  {
    hide StarMap.Placed, StarMap.CacheCoherent;
    ghost var cs := Removes(keys);
    removed := 0;
    var n := 0;
    while n < |keys|
      invariant 0 <= n <= |keys| && m.Valid() && m.waiting <= old(m.waiting)
      invariant m.logical == ApplyAll(old(m.logical), cs[..n]) && removed == Hits(old(m.logical), cs[..n])
    {
      assert cs[..n + 1] == cs[..n] + [cs[n]];
      ApplyAppend(old(m.logical), cs[..n], cs[n]);
      var before := m.Remove(keys[n]);
      if before.Some? {
        removed := removed + 1;
      }
      n := n + 1;
    }
    assert cs[..n] == cs;
    RemovedInOrder(old(m.logical), keys);
  }

  /** Skips unallocated shards, and in Cow mode shards that hold none of their keys. */
  method BatchRemove(m: StarMap, keys: seq<Key>) returns (removed: nat)
    requires m.Valid()
    modifies m`active, m`previous, m`waiting, m`totalLen, m`writeEpoch, m`logical
    ensures m.Valid() && m.waiting <= old(m.waiting)
    ensures m.logical == ApplyAll(old(m.logical), Removes(keys))
    ensures removed == Hits(old(m.logical), Removes(keys))
    ensures forall k :: Lookup(m.logical, k) == if k in keys then None else Lookup(old(m.logical), k)
    ensures removed == |old(m.logical)| - |m.logical|
  {
    var cs := Removes(keys);
    if m.previousShardCount != 0 {
      removed := RemoveEach(m, keys);
      return;
    }
    assert m.waiting == {} by { NothingWaits(m); }
    ghost var start := m.logical;
    var buckets := Bucketize(m.hash, m.shardCount, cs);
    var todo := buckets.Keys;
    PartwayStart(m.hash, m.shardCount, cs, todo, start);
    removed := 0;
    while todo != {}
      invariant m.Valid() && m.waiting == {} && todo <= buckets.Keys
      invariant Partway(m.hash, m.shardCount, cs, todo, start, m.logical)
      invariant |m.logical| == |start| - removed
      decreases todo
    {
      var i :| i in todo;
      BucketInRange(m.hash, m.shardCount, cs, i);
      ghost var now := m.logical;
      var hits := RemoveBucket(m, i, buckets[i], cs);
      PartwayStep(m.hash, m.shardCount, cs, todo, start, now, i, m.logical);
      removed := removed + hits;
      todo := todo - {i};
    }
    PartwayEnd(m.hash, m.shardCount, cs, start, m.logical);
    RemovedInOrder(start, keys);
  }

  method RemoveBucket(m: StarMap, i: nat, bucket: seq<Change>, ghost cs: seq<Change>) returns (hits: nat)
    requires m.Valid() && m.waiting == {} && i < m.shardCount
    requires Pure(cs, false) && bucket == Select(m.hash, m.shardCount, cs, i)
    modifies m`active, m`totalLen, m`writeEpoch, m`logical
    ensures m.Valid()
    ensures forall k :: Lookup(m.logical, k) == Left(bucket, k, old(m.logical))
    ensures |m.logical| == |old(m.logical)| - hits
  {
    SelectRouted(m.hash, m.shardCount, cs, i);
    SelectPure(m.hash, m.shardCount, cs, i, false);
    if m.active[i].None? || (m.mode == Cow && forall n :: 0 <= n < |bucket| ==> bucket[n].key !in m.active[i].value) {
      forall k ensures Lookup(m.logical, k) == Left(bucket, k, m.logical) {
        forall c | c in bucket ensures c.key !in m.logical {
          SlotShare(m.hash, m.active, m.Source(), m.logical, m.waiting, i, c.key);
        }
        AbsentRemovals(bucket, m.logical, k);
      }
      return 0;
    }
    HitsAreGrowth(m.active[i].value, bucket, false);
    hits := ApplyBucket(m, i, bucket);
  }

  /** The input positions among the first `n` whose key is routed to slot `i`. */
  function Positions(h: Hasher, count: nat, keys: seq<Key>, n: nat, i: nat): seq<nat>
    requires count > 0 && n <= |keys|
  {
    if n == 0 then []
    else
      var rest := Positions(h, count, keys, n - 1, i);
      if IndexOf(h, keys[n - 1], count) == i then rest + [n - 1] else rest
  }

  lemma {:induction false} PositionsOf(h: Hasher, count: nat, keys: seq<Key>, n: nat, i: nat)
    requires count > 0 && n <= |keys|
    ensures forall q: nat :: q in Positions(h, count, keys, n, i) <==> q < n && IndexOf(h, keys[q], count) == i
  {
    if n > 0 {
      PositionsOf(h, count, keys, n - 1, i);
    }
  }

  method GroupPositions(h: Hasher, count: nat, keys: seq<Key>) returns (buckets: map<nat, seq<nat>>)
    requires count > 0
    ensures forall i: nat :: i in buckets <==> Positions(h, count, keys, |keys|, i) != []
    ensures forall i: nat :: i in buckets ==> buckets[i] == Positions(h, count, keys, |keys|, i)
  {
    buckets := map[];
    var n := 0;
    while n < |keys|
      invariant 0 <= n <= |keys|
      invariant forall i: nat :: i in buckets <==> Positions(h, count, keys, n, i) != []
      invariant forall i: nat :: i in buckets ==> buckets[i] == Positions(h, count, keys, n, i)
    {
      var i := IndexOf(h, keys[n], count);
      var bucket := if i in buckets then buckets[i] else [];
      buckets := buckets[i := bucket + [n]];
      n := n + 1;
    }
  }

  /** Fills the answers of one slot's positions. */
  method ReadBucket(t: Table, keys: seq<Key>, bucket: seq<nat>, before: seq<Option<Value>>)
    returns (result: seq<Option<Value>>)
    requires |before| == |keys| && forall q :: q in bucket ==> q < |keys|
    ensures |result| == |keys|
    ensures forall p: nat :: p < |keys| ==> result[p] == if p in bucket then Lookup(t, keys[p]) else before[p]
  {
    result := before;
    var n := 0;
    while n < |bucket|
      invariant 0 <= n <= |bucket| && |result| == |keys|
      invariant forall p: nat :: p < |keys| ==> result[p] == if p in bucket[..n] then Lookup(t, keys[p]) else before[p]
    {
      assert bucket[n] in bucket && bucket[..n + 1] == bucket[..n] + [bucket[n]];
      result := result[bucket[n] := Lookup(t, keys[bucket[n]])];
      n := n + 1;
    }
    assert bucket[..n] == bucket;
  }

  /** One read lock per slot, slots in any order; unallocated slots keep the initial absence. */
  method GetBucketed(h: Hasher, active: seq<Slot>, keys: seq<Key>) returns (result: seq<Option<Value>>)
    requires |active| > 0
    ensures |result| == |keys|
    ensures forall p: nat :: p < |keys| ==> result[p] == Find(h, active, keys[p])
  {
    result := seq(|keys|, _ => None);
    var buckets := GroupPositions(h, |active|, keys);
    var todo := buckets.Keys;
    forall p: nat | p < |keys| ensures IndexOf(h, keys[p], |active|) in todo {
      PositionsOf(h, |active|, keys, |keys|, IndexOf(h, keys[p], |active|));
    }
    while todo != {}
      invariant |result| == |keys| && todo <= buckets.Keys
      invariant forall p: nat :: p < |keys| ==>
                  result[p] == if IndexOf(h, keys[p], |active|) in todo then None else Find(h, active, keys[p])
      decreases todo
    {
      var i :| i in todo;
      PositionsOf(h, |active|, keys, |keys|, i);
      assert buckets[i][0] in buckets[i];
      if active[i].Some? {
        result := ReadBucket(active[i].value, keys, buckets[i], result);
      }
      todo := todo - {i};
    }
  }

  /** Gets keys in input order. */
  method BatchGet(m: StarMap, keys: seq<Key>) returns (result: seq<Option<Value>>)
    requires m.Valid()
    ensures |result| == |keys|
    ensures forall p: nat :: p < |keys| ==> result[p] == Lookup(m.logical, keys[p])
  {
    if m.previousShardCount == 0 {
      NothingWaits(m);
      result := GetBucketed(m.hash, m.active, keys);
      return;
    }
    result := seq(|keys|, _ => None);
    var p := 0;
    while p < |keys|
      invariant 0 <= p <= |keys| == |result|
      invariant forall q: nat :: q < p ==> result[q] == Lookup(m.logical, keys[q])
    {
      var r := m.Get(keys[p]);
      result := result[p := r];
      p := p + 1;
    }
  }
}
