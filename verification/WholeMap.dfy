/** Operations over every shard of both generations: retain, clear, snapshot capture and the epoch cache. */
module WholeMap {
  import opened Domain
  import opened Routing
  import opened ShardedMap

  type Filter = (Key, Value) -> bool

  function Dropped(t: Table, keep: Filter): set<Key> {
    set k | k in t && !keep(k, t[k])
  }

  function Kept(t: Table, keep: Filter): Table {
    map k | k in t && keep(k, t[k]) :: t[k]
  }

  lemma WithoutTwice(t: Table, a: set<Key>, b: set<Key>)
    ensures Without(Without(t, a), b) == Without(t, a + b)
  {
    SameLookups(Without(Without(t, a), b), Without(t, a + b));
  }

  /** Drops keys of one active shard, with `records` write records. */
  method DropActiveKeys(m: StarMap, i: nat, ks: set<Key>, records: nat)
    requires m.Valid() && i < m.shardCount && m.active[i].Some? && ks <= m.active[i].value.Keys && records > 0
    modifies m`active, m`totalLen, m`writeEpoch, m`logical
    ensures m.Valid() && m.writeEpoch == old(m.writeEpoch) + records
    ensures m.logical == Without(old(m.logical), ks)
    ensures m.active == old(m.active)[i := Some(Without(old(m.active)[i].value, ks))]
  {
    hide Stands;
    DropActive(m.hash, m.active, m.Source(), m.logical, m.waiting, i, ks);
    WithoutSize(m.logical, ks);
    m.active, m.totalLen, m.writeEpoch, m.logical :=
      m.active[i := Some(Without(m.active[i].value, ks))], m.totalLen - |ks|, m.writeEpoch + records,
          Without(m.logical, ks);
  }

  /** Drops keys of one previous shard, with `records` write records. */
  method DropSourceKeys(m: StarMap, j: nat, ks: set<Key>, records: nat)
    requires m.Valid() && m.previous.Some? && j < |m.previous.value| && m.previous.value[j].Some?
    requires ks <= m.previous.value[j].value.Keys && records > 0
    modifies m`previous, m`waiting, m`totalLen, m`writeEpoch, m`logical
    ensures m.Valid() && m.writeEpoch == old(m.writeEpoch) + records
    ensures m.logical == Without(old(m.logical), ks) && m.waiting <= old(m.waiting)
    ensures m.previous == Some(old(m.previous).value[j := Some(Without(old(m.previous).value[j].value, ks))])
  {
    hide Stands;
    DropSource(m.hash, m.active, m.Source(), m.logical, m.waiting, j, ks);
    WithoutSize(m.logical, ks);
    m.previous, m.waiting, m.totalLen, m.writeEpoch, m.logical :=
      Some(m.previous.value[j := Some(Without(m.previous.value[j].value, ks))]),
      m.waiting - ks, m.totalLen - |ks|, m.writeEpoch + records, Without(m.logical, ks);
  }

  // ------------------------------------------------------------------- retain

  /** What `retain` has done so far: it removed only entries that fail the filter. */
  ghost predicate Retaining(start: Table, now: Table, keep: Filter, gone: set<Key>) {
    now == Without(start, gone) && forall k :: k in gone ==> k in start && !keep(k, start[k])
  }

  ghost predicate SlotKept(slot: Slot, keep: Filter) {
    forall k :: k in TableOf(slot) ==> keep(k, TableOf(slot)[k])
  }

  ghost predicate AllKept(slots: seq<Slot>, n: nat, keep: Filter) {
    forall i :: 0 <= i < n && i < |slots| ==> SlotKept(slots[i], keep)
  }

  lemma RetainMore(start: Table, now: Table, keep: Filter, gone: set<Key>, ks: set<Key>)
    requires Retaining(start, now, keep, gone) && forall k :: k in ks ==> k in now && !keep(k, now[k])
    ensures Retaining(start, Without(now, ks), keep, gone + ks)
  {
    WithoutTwice(start, gone, ks);
    forall k | k in ks ensures k in start && !keep(k, start[k]) {
      assert Lookup(now, k) == Lookup(start, k);
    }
  }

  lemma RestKept(t: Table, keep: Filter)
    ensures SlotKept(Some(Without(t, Dropped(t, keep))), keep)
    ensures Dropped(t, keep) == {} ==> SlotKept(Some(t), keep)
  {
    if Dropped(t, keep) == {} {
      forall k | k in t ensures keep(k, t[k]) {
        assert k !in Dropped(t, keep);
      }
    }
    var r := Without(t, Dropped(t, keep));
    forall k | k in r ensures keep(k, r[k]) {
      assert Lookup(r, k) == if k in Dropped(t, keep) then None else Lookup(t, k);
    }
  }

  /** Removes the failing entries of one active shard, each with its own write record. */
  method RetainActiveShard(m: StarMap, i: nat, keep: Filter, ghost start: Table, ghost gone: set<Key>)
    returns (ghost gone': set<Key>)
    requires m.Valid() && i < m.shardCount && Retaining(start, m.logical, keep, gone)
    modifies m`active, m`totalLen, m`writeEpoch, m`logical
    ensures m.Valid() && Retaining(start, m.logical, keep, gone')
    ensures m.active == old(m.active)[i := m.active[i]] && SlotKept(m.active[i], keep)
  {
    gone' := gone;
    if m.active[i].Some? {
      var failing := Dropped(m.active[i].value, keep);
      RestKept(m.active[i].value, keep);
      if failing != {} {
        forall k | k in failing ensures k in m.logical && !keep(k, m.logical[k]) {
          SlotShare(m.hash, m.active, m.Source(), m.logical, m.waiting, i, k);
        }
        RetainMore(start, m.logical, keep, gone, failing);
        gone' := gone + failing;
        DropActiveKeys(m, i, failing, |failing|);
      }
    }
  }

  method RetainSourceShard(m: StarMap, j: nat, keep: Filter, ghost start: Table, ghost gone: set<Key>)
    returns (ghost gone': set<Key>)
    requires m.Valid() && m.previous.Some? && j < |m.previous.value|
    requires Retaining(start, m.logical, keep, gone)
    modifies m`previous, m`waiting, m`totalLen, m`writeEpoch, m`logical
    ensures m.Valid() && Retaining(start, m.logical, keep, gone') && m.waiting <= old(m.waiting)
    ensures m.previous.Some? && m.previous.value == old(m.previous).value[j := m.previous.value[j]]
    ensures SlotKept(m.previous.value[j], keep)
  {
    gone' := gone;
    if m.previous.value[j].Some? {
      var failing := Dropped(m.previous.value[j].value, keep);
      RestKept(m.previous.value[j].value, keep);
      if failing != {} {
        forall k | k in failing ensures k in m.logical && !keep(k, m.logical[k]) {
          SourceShare(m.hash, m.active, m.Source(), m.logical, m.waiting, j, k);
        }
        RetainMore(start, m.logical, keep, gone, failing);
        gone' := gone + failing;
        DropSourceKeys(m, j, failing, |failing|);
      }
    }
  }

  method RetainActive(m: StarMap, keep: Filter, ghost start: Table) returns (ghost gone: set<Key>)
    requires m.Valid() && Retaining(start, m.logical, keep, {})
    modifies m`active, m`totalLen, m`writeEpoch, m`logical
    ensures m.Valid() && Retaining(start, m.logical, keep, gone) && AllKept(m.active, |m.active|, keep)
  {
    gone := {};
    var i := 0;
    while i < m.shardCount
      invariant i <= m.shardCount && m.Valid()
      invariant Retaining(start, m.logical, keep, gone) && AllKept(m.active, i, keep)
    {
      gone := RetainActiveShard(m, i, keep, start, gone);
      i := i + 1;
    }
  }

  method RetainSource(m: StarMap, keep: Filter, ghost start: Table, ghost before: set<Key>)
    returns (ghost gone: set<Key>)
    requires m.Valid() && Retaining(start, m.logical, keep, before)
    modifies m`previous, m`waiting, m`totalLen, m`writeEpoch, m`logical
    ensures m.Valid() && m.waiting <= old(m.waiting)
    ensures Retaining(start, m.logical, keep, gone) && AllKept(m.Source(), |m.Source()|, keep)
  {
    gone := before;
    var j := 0;
    while j < m.previousShardCount
      invariant j <= m.previousShardCount && m.Valid() && m.waiting <= old(m.waiting)
      invariant Retaining(start, m.logical, keep, gone) && AllKept(m.Source(), j, keep)
    {
      gone := RetainSourceShard(m, j, keep, start, gone);
      j := j + 1;
    }
  }

  /** Keeps exactly the matching entries of both generations. */
  method Retain(m: StarMap, keep: Filter)
    requires m.Valid()
    modifies m`active, m`previous, m`waiting, m`totalLen, m`writeEpoch, m`logical
    ensures m.Valid() && m.waiting <= old(m.waiting)
    ensures m.logical == Kept(old(m.logical), keep)
    ensures forall k :: Lookup(m.logical, k) ==
                        if k in old(m.logical) && keep(k, old(m.logical)[k]) then Some(old(m.logical)[k]) else None
  {
    ghost var start := m.logical;
    assert Without(start, {}) == start by { SameLookups(Without(start, {}), start); }
    ghost var gone := RetainActive(m, keep, start);
    gone := RetainSource(m, keep, start, gone);
    RetainEnds(m, start, gone, keep);
  }

  lemma RetainEnds(m: StarMap, start: Table, gone: set<Key>, keep: Filter)
    requires m.Valid() && Retaining(start, m.logical, keep, gone)
    requires AllKept(m.active, |m.active|, keep) && AllKept(m.Source(), |m.Source()|, keep)
    ensures m.logical == Kept(start, keep)
  {
    forall k ensures Lookup(m.logical, k) == Lookup(Kept(start, keep), k) {
      SlotShare(m.hash, m.active, m.Source(), m.logical, m.waiting, IndexOf(m.hash, k, |m.active|), k);
      if k in m.waiting {
        assert Find(m.hash, m.Source(), k).Some?;
      }
      assert Lookup(m.logical, k) == if k in gone then None else Lookup(start, k);
    }
    SameLookups(m.logical, Kept(start, keep));
  }

  // -------------------------------------------------------------------- clear

  ghost predicate AllEmpty(slots: seq<Slot>, n: nat) {
    forall i :: 0 <= i < n && i < |slots| ==> TableOf(slots[i]) == map[]
  }

  /** The same slots are allocated. */
  ghost predicate SameAllocation(a: seq<Slot>, b: seq<Slot>) {
    |a| == |b| && forall i :: 0 <= i < |a| ==> a[i].Some? == b[i].Some?
  }

  lemma WithoutAll(t: Table)
    ensures Without(t, t.Keys) == map[]
  {
    SameLookups(Without(t, t.Keys), map[]);
  }

  method ClearActive(m: StarMap)
    requires m.Valid()
    modifies m`active, m`totalLen, m`writeEpoch, m`logical
    ensures m.Valid() && AllEmpty(m.active, |m.active|) && SameAllocation(m.active, old(m.active))
    ensures m.writeEpoch >= old(m.writeEpoch)
  {
    hide Stands, Enumerates;
    var i := 0;
    while i < m.shardCount
      invariant i <= m.shardCount && m.Valid() && AllEmpty(m.active, i) && SameAllocation(m.active, old(m.active))
      invariant m.writeEpoch >= old(m.writeEpoch)
    {
      if m.active[i].Some? && |m.active[i].value| != 0 {
        WithoutAll(m.active[i].value);
        DropActiveKeys(m, i, m.active[i].value.Keys, 1);
      }
      i := i + 1;
    }
  }

  method ClearSource(m: StarMap)
    requires m.Valid()
    modifies m`previous, m`waiting, m`totalLen, m`writeEpoch, m`logical
    ensures m.Valid() && AllEmpty(m.Source(), |m.Source()|)
    ensures m.writeEpoch >= old(m.writeEpoch)
  {
    hide Stands, Enumerates;
    var j := 0;
    while j < m.previousShardCount
      invariant j <= m.previousShardCount && m.Valid() && AllEmpty(m.Source(), j)
      invariant m.writeEpoch >= old(m.writeEpoch)
    {
      if m.previous.value[j].Some? && |m.previous.value[j].value| != 0 {
        WithoutAll(m.previous.value[j].value);
        DropSourceKeys(m, j, m.previous.value[j].value.Keys, 1);
      }
      j := j + 1;
    }
  }

  /** Empties both generations, keeps allocated active shards and ends any migration. */
  method Clear(m: StarMap)
    requires m.Valid()
    modifies m`active, m`previous, m`previousShardCount, m`waiting, m`totalLen, m`writeEpoch, m`logical
    modifies m.tracker`migrating, m.tracker`paused, m.tracker`complete
    ensures m.Valid() && m.logical == map[] && !m.tracker.migrating && SameAllocation(m.active, old(m.active))
    ensures m.writeEpoch >= old(m.writeEpoch)
  {
    ClearActive(m);
    ClearSource(m);
    StandsForEmpty(m.hash, m.active, m.Source());
    StandsUnique(m.hash, m.active, m.Source(), m.logical, m.waiting, map[], {});
    StandsForEmpty(m.hash, m.active, []);
    m.previous, m.previousShardCount := None, 0;
    m.tracker.Finish();
  }

  // ---------------------------------------------------------------- snapshots

  /** Lists one shard in its iteration order. */
  method ListTable(t: Table) returns (items: seq<(Key, Value)>)
    ensures Enumerates(items, t)
  {
    items := [];
    var todo := t.Keys;
    while todo != {}
      invariant todo <= t.Keys
      invariant Enumerates(items, Without(t, todo))
      decreases todo
    {
      var k :| k in todo;
      ListOneMore(items, t, todo, k);
      items, todo := items + [(k, t[k])], todo - {k};
    }
    SameLookups(Without(t, {}), t);
  }

  lemma ListOneMore(items: seq<(Key, Value)>, t: Table, todo: set<Key>, k: Key)
    requires Enumerates(items, Without(t, todo)) && k in todo && k in t
    ensures Enumerates(items + [(k, t[k])], Without(t, todo - {k}))
  {
    var one := map[k := t[k]];
    EnumerateAppend(items, Without(t, todo), [(k, t[k])], one);
    forall x ensures Lookup(Without(t, todo) + one, x) == Lookup(Without(t, todo - {k}), x) {
    }
    SameLookups(Without(t, todo) + one, Without(t, todo - {k}));
  }

  /** What a listing of `slots[..n]` appended to a listing of `base` lists. */
  ghost predicate ListedUpTo(h: Hasher, slots: seq<Slot>, n: nat, base: Table, all: Table) {
    forall k :: Lookup(all, k) ==
                if |slots| > 0 && IndexOf(h, k, |slots|) < n &&
                    Find(h, slots, k).Some? then Find(h, slots, k) else Lookup(base, k)
  }

  /** Appends the listing of every allocated shard of one generation. */
  method ListSlots(h: Hasher, slots: seq<Slot>, before: seq<(Key, Value)>, ghost base: Table)
    returns (items: seq<(Key, Value)>, ghost all: Table)
    requires Enumerates(before, base) && Routed(h, slots)
    requires forall k :: k in base ==> Find(h, slots, k) == None
    ensures Enumerates(items, all) && ListedUpTo(h, slots, |slots|, base, all)
  {
    items, all := before, base;
    var i := 0;
    while i < |slots|
      invariant 0 <= i <= |slots| && Enumerates(items, all) && ListedUpTo(h, slots, i, base, all)
    {
      if slots[i].Some? {
        var part := ListTable(slots[i].value);
        NextSlotListed(h, slots, i, base, all);
        EnumerateAppend(items, all, part, slots[i].value);
        items, all := items + part, all + slots[i].value;
      }
      i := i + 1;
    }
  }

  lemma NextSlotListed(h: Hasher, slots: seq<Slot>, i: nat, base: Table, all: Table)
    requires Routed(h, slots) && i < |slots| && slots[i].Some? && ListedUpTo(h, slots, i, base, all)
    requires forall k :: k in base ==> Find(h, slots, k) == None
    ensures all.Keys !! slots[i].value.Keys
    ensures ListedUpTo(h, slots, i + 1, base, all + slots[i].value)
  {
    var t := slots[i].value;
    forall k
      ensures !(k in all && k in t)
      ensures Lookup(all + t, k) == if IndexOf(h, k, |slots|) < i + 1 &&
              Find(h, slots, k).Some? then Find(h, slots, k) else Lookup(base, k)
    {
      assert Lookup(all, k) == if IndexOf(h, k, |slots|) < i &&
             Find(h, slots, k).Some? then Find(h, slots, k) else Lookup(base, k);
      if k in t {
        assert k in TableOf(slots[i]);
        assert Find(h, slots, k).Some?;
      }
    }
  }

  /** With all shards pinned: the current epoch and every entry of both generations exactly once. */
  method CollectInto(m: StarMap) returns (epoch: nat, items: seq<(Key, Value)>)
    requires m.Valid()
    ensures epoch == m.writeEpoch && Enumerates(items, m.logical) && |items| == m.totalLen
  {
    epoch := m.writeEpoch;
    ghost var all;
    assert Enumerates([], map[]);
    items, all := ListSlots(m.hash, m.active, [], map[]);
    assert forall k :: Lookup(all, k) == Find(m.hash, m.active, k);
    var old_ := if m.previous.Some? then m.previous.value else [];
    ghost var base := all;
    items, all := ListSlots(m.hash, old_, items, base);
    forall k ensures Lookup(all, k) == Lookup(m.logical, k) {
      assert Lookup(base, k) == Find(m.hash, m.active, k);
    }
    SameLookups(all, m.logical);
    EnumerateSize(items, m.logical);
  }

  /** A cache hit needs only a matching epoch: no routing access. */
  method CachedSnapshot(m: StarMap) returns (hit: Option<(nat, seq<(Key, Value)>)>)
    requires m.Valid()
    ensures hit.Some? ==> hit == m.cache && hit.value.0 == m.writeEpoch && Enumerates(hit.value.1, m.logical)
    ensures hit.Some? <==> m.mode != Clone && m.cache.Some? && m.cache.value.0 == m.writeEpoch
  {
    if m.mode == Clone || m.cache.None? || m.cache.value.0 != m.writeEpoch {
      return None;
    }
    hit := m.cache;
  }

  /** Serves the cache when it is current and rebuilds it otherwise. */
  method CaptureSnapshot(m: StarMap) returns (epoch: nat, items: seq<(Key, Value)>)
    requires m.Valid()
    modifies m`cache
    ensures m.Valid()
    ensures epoch == m.writeEpoch && Enumerates(items, m.logical)
    ensures m.mode != Clone ==> m.cache == Some((epoch, items))
    ensures m.mode == Clone ==> m.cache == old(m.cache)
  {
    var hit := CachedSnapshot(m);
    if hit.Some? {
      return hit.value.0, hit.value.1;
    }
    epoch, items := CollectInto(m);
    if m.mode != Clone {
      m.cache := Some((epoch, items));
    }
  }
}
