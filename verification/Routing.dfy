/** Routing of keys to directory slots, and the map a two-generation directory stands for. */
module Routing {
  import opened Domain

  function IndexOf(h: Hasher, k: Key, count: nat): (i: nat)
    requires count > 0
    ensures i < count
  {
    h(k) % count
  }

  function TableOf(slot: Slot): Table {
    if slot.Some? then slot.value else map[]
  }

  /** Every key sits at its hash index. */
  ghost predicate Routed(h: Hasher, slots: seq<Slot>) {
    forall i, k {:trigger k in TableOf(slots[i])} :: 0 <= i < |slots| && k in TableOf(slots[i]) ==>
        IndexOf(h, k, |slots|) == i
  }

  ghost predicate RoutedTo(h: Hasher, t: Table, i: nat, count: nat) {
    count > 0 && forall k {:trigger k in t} :: k in t ==> IndexOf(h, k, count) == i
  }

  /** Looks in the one slot that may hold the key. */
  function Find(h: Hasher, slots: seq<Slot>, k: Key): Option<Value> {
    if |slots| == 0 then None else Lookup(TableOf(slots[IndexOf(h, k, |slots|)]), k)
  }

  /**
   * The directories `active` and `source` together stand for `logical`: each generation is routed by
   * its own count, the generations are disjoint, and `waiting` is the key set of the source.
   */
  ghost predicate Stands(h: Hasher, active: seq<Slot>, source: seq<Slot>, logical: Table, waiting: set<Key>) {
    && Routed(h, active)
    && Routed(h, source)
    && (forall k :: k in waiting <==> Find(h, source, k).Some?)
    && (forall k :: k in waiting ==> Find(h, active, k) == None)
    && (forall k :: Lookup(logical, k) == if k in waiting then Find(h, source, k) else Find(h, active, k))
  }

  /** The directories determine the map they stand for. */
  lemma StandsUnique(h: Hasher, active: seq<Slot>, source: seq<Slot>, m: Table, w: set<Key>, m': Table, w': set<Key>)
    requires Stands(h, active, source, m, w) && Stands(h, active, source, m', w')
    ensures m == m' && w == w'
  {
    SameLookups(m, m');
  }

  lemma StandsForEmpty(h: Hasher, active: seq<Slot>, source: seq<Slot>)
    requires forall i :: 0 <= i < |active| ==> TableOf(active[i]) == map[]
    requires forall i :: 0 <= i < |source| ==> TableOf(source[i]) == map[]
    ensures Stands(h, active, source, map[], {})
  {
  }

  /** `m` with the keys of `out` dropped and those of `t` put in. */
  function Patch(m: Table, out: set<Key>, t: Table): (r: Table)
    ensures forall k :: Lookup(r, k) == if k in t then Lookup(t, k) else if k in out then None else Lookup(m, k)
  {
    map k | k in m.Keys + t.Keys && (k in t || k !in out) :: if k in t then t[k] else m[k]
  }

  lemma PatchKeys(m: Table, out: set<Key>, t: Table)
    ensures Patch(m, out, t).Keys == m.Keys - out + t.Keys
  {
    forall k ensures k in Patch(m, out, t) <==> k in m.Keys - out + t.Keys {
      assert Lookup(Patch(m, out, t), k).Some? <==> k in Patch(m, out, t);
    }
  }

  lemma PatchSize(m: set<Key>, part: set<Key>, t: set<Key>)
    requires part <= m && m * t <= part
    ensures |m - part + t| + |part| == |m| + |t|
  {
    assert |m - part| == |m| - |part|;
    assert |m - part + t| == |m - part| + |t|;
  }

  lemma FindSwapped(h: Hasher, slots: seq<Slot>, i: nat, t: Table, k: Key)
    requires i < |slots|
    ensures Find(h, slots[i := Some(t)], k) == if IndexOf(h, k, |slots|) == i then Lookup(t, k) else Find(h, slots, k)
  {
  }

  lemma SwapStands(h: Hasher, active: seq<Slot>, source: seq<Slot>, logical: Table, waiting: set<Key>,
                   i: nat, t: Table, after: Table)
    requires Stands(h, active, source, logical, waiting)
    requires i < |active| && RoutedTo(h, t, i, |active|) && t.Keys !! waiting
    requires forall k :: Lookup(after, k) ==
                         if k in t then Lookup(t, k) else if k in TableOf(active[i]) then None else Lookup(logical, k)
    ensures Stands(h, active[i := Some(t)], source, after, waiting)
  {
    var next := active[i := Some(t)];
    assert Routed(h, next);
    forall k
      ensures k in waiting ==> Find(h, next, k) == None
      ensures Lookup(after, k) == if k in waiting then Find(h, source, k) else Find(h, next, k)
    {
      FindSwapped(h, active, i, t, k);
      SlotShare(h, active, source, logical, waiting, i, k);
    }
  }

  /** Replacing the table of an active slot replaces that slot's part of the map. */
  lemma SwapActive(h: Hasher, active: seq<Slot>, source: seq<Slot>, logical: Table, waiting: set<Key>,
                   i: nat, t: Table, after: Table)
    requires Stands(h, active, source, logical, waiting)
    requires i < |active| && RoutedTo(h, t, i, |active|) && t.Keys !! waiting
    requires after == Patch(logical, TableOf(active[i]).Keys, t)
    ensures Stands(h, active[i := Some(t)], source, after, waiting)
    ensures |after| + |TableOf(active[i])| == |logical| + |t|
  {
    hide Stands, RoutedTo, TableOf;
    SwapStands(h, active, source, logical, waiting, i, t, after);
    SwapSize(h, active, source, logical, waiting, i, t);
    PatchKeys(logical, TableOf(active[i]).Keys, t);
    KeysSize(after);
  }

  lemma SwapSize(h: Hasher, active: seq<Slot>, source: seq<Slot>, logical: Table, waiting: set<Key>, i: nat, t: Table)
    requires Stands(h, active, source, logical, waiting)
    requires i < |active| && RoutedTo(h, t, i, |active|) && t.Keys !! waiting
    ensures |logical.Keys - TableOf(active[i]).Keys + t.Keys| + |TableOf(active[i])| == |logical| + |t|
  {
    forall k
      ensures k in TableOf(active[i]) ==> k in logical
      ensures k in t && k in logical ==> k in TableOf(active[i])
    {
      SlotShare(h, active, source, logical, waiting, i, k);
    }
    PatchSize(logical.Keys, TableOf(active[i]).Keys, t.Keys);
    KeysSize(logical);
    KeysSize(t);
    KeysSize(TableOf(active[i]));
  }

  /** How one active slot shows in the map. */
  lemma SlotShare(h: Hasher, active: seq<Slot>, source: seq<Slot>, logical: Table, waiting: set<Key>, i: nat, k: Key)
    requires Stands(h, active, source, logical, waiting) && i < |active|
    ensures k in TableOf(active[i]) ==> IndexOf(h, k, |active|) == i && k !in waiting
    ensures IndexOf(h, k, |active|) == i && k !in waiting ==> Lookup(logical, k) == Lookup(TableOf(active[i]), k)
    ensures Lookup(logical, k) == if k in waiting then Find(h, source, k) else Find(h, active, k)
  {
    if k in TableOf(active[i]) {
      assert Find(h, active, k).Some?;
    }
  }

  /** How one source slot shows in the map. */
  lemma SourceShare(h: Hasher, active: seq<Slot>, source: seq<Slot>, logical: Table, waiting: set<Key>, j: nat, k: Key)
    requires Stands(h, active, source, logical, waiting) && j < |source|
    ensures k in TableOf(source[j]) ==> k in waiting && Lookup(logical, k) == Lookup(TableOf(source[j]), k)
  {
    if k in TableOf(source[j]) {
      assert Find(h, source, k).Some?;
    }
  }

  lemma SourceIndex(h: Hasher, active: seq<Slot>, source: seq<Slot>, logical: Table, waiting: set<Key>, j: nat, k: Key)
    requires Stands(h, active, source, logical, waiting) && j < |source| && k in TableOf(source[j])
    ensures IndexOf(h, k, |source|) == j && k in waiting
  {
    SourceShare(h, active, source, logical, waiting, j, k);
  }

  /** Allocating an empty shard changes nothing. */
  lemma InitSlot(h: Hasher, active: seq<Slot>, source: seq<Slot>, logical: Table, waiting: set<Key>, i: nat)
    requires Stands(h, active, source, logical, waiting) && i < |active| && active[i].None?
    ensures Stands(h, active[i := Some(map[])], source, logical, waiting)
  {
    forall k ensures Find(h, active[i := Some(map[])], k) == Find(h, active, k) {
    }
  }

  /** A slot holds no more entries than the map. */
  lemma SlotFits(h: Hasher, active: seq<Slot>, source: seq<Slot>, logical: Table, waiting: set<Key>, i: nat)
    requires Stands(h, active, source, logical, waiting) && i < |active|
    ensures |TableOf(active[i])| <= |logical|
  {
    forall k | k in TableOf(active[i]) ensures k in logical {
      SlotShare(h, active, source, logical, waiting, i, k);
    }
    KeysSize(logical);
    KeysSize(TableOf(active[i]));
    SubsetSize(TableOf(active[i]).Keys, logical.Keys);
  }

  /** Changing the binding of one key that does not wait in the source. */
  lemma BindActive(h: Hasher, active: seq<Slot>, source: seq<Slot>, logical: Table, waiting: set<Key>, k: Key,
                   v: Option<Value>)
    requires Stands(h, active, source, logical, waiting) && |active| > 0 && k !in waiting
    ensures var i := IndexOf(h, k, |active|);
            Stands(h, active[i := Some(Bind(TableOf(active[i]), k, v))], source, Bind(logical, k, v), waiting)
    ensures Lookup(TableOf(active[IndexOf(h, k, |active|)]), k) == Lookup(logical, k)
  {
    var i := IndexOf(h, k, |active|);
    var t := Bind(TableOf(active[i]), k, v);
    var next := active[i := Some(t)];
    assert Routed(h, next) by {
      forall x | x in t ensures IndexOf(h, x, |active|) == i {
        assert x == k || Lookup(t, x) == Lookup(TableOf(active[i]), x);
      }
    }
    forall x
      ensures x in waiting ==> Find(h, next, x) == None
      ensures Lookup(Bind(logical, k, v), x) == if x in waiting then Find(h, source, x) else Find(h, next, x)
    {
      FindSwapped(h, active, i, t, x);
      SlotShare(h, active, source, logical, waiting, i, x);
    }
  }

  /** Moving one waiting key to its active slot changes nothing but where it is. */
  lemma PromoteKey(h: Hasher, active: seq<Slot>, source: seq<Slot>, logical: Table, waiting: set<Key>, k: Key)
    requires Stands(h, active, source, logical, waiting) && |active| > 0 && k in waiting
    ensures |source| > 0
    ensures var i, j := IndexOf(h, k, |active|), IndexOf(h, k, |source|);
            && k in TableOf(source[j]) && k !in TableOf(active[i])
            && Stands(h, active[i := Some(TableOf(active[i])[k := TableOf(source[j])[k]])],
                      source[j := Some(TableOf(source[j]) - {k})], logical, waiting - {k})
  {
    assert Find(h, source, k).Some?;
    var i, j := IndexOf(h, k, |active|), IndexOf(h, k, |source|);
    assert Find(h, active, k) == None;
    var active' := active[i := Some(TableOf(active[i])[k := TableOf(source[j])[k]])];
    var source' := source[j := Some(TableOf(source[j]) - {k})];
    forall x
      ensures Find(h, active', x) == if x == k then Find(h, source, k) else Find(h, active, x)
      ensures Find(h, source', x) == if x == k then None else Find(h, source, x)
    {
    }
    assert Lookup(logical, k) == Find(h, source, k);
  }

  /** `m` without the keys of `ks`. */
  function Without(m: Table, ks: set<Key>): (r: Table)
    ensures forall k :: Lookup(r, k) == if k in ks then None else Lookup(m, k)
  {
    map k | k in m && k !in ks :: m[k]
  }

  lemma WithoutSize(m: Table, ks: set<Key>)
    requires forall k :: k in ks ==> k in m
    ensures |Without(m, ks)| == |m| - |ks|
  {
    var r := Without(m, ks);
    assert r.Keys == m.Keys - ks by {
      forall k ensures k in r <==> k in m.Keys - ks {
        assert Lookup(r, k) == if k in ks then None else Lookup(m, k);
      }
    }
    KeysSize(m);
    KeysSize(r);
    assert |m.Keys - ks| == |m.Keys| - |ks|;
  }

  /** Removing keys of one active slot removes them from the map. */
  lemma DropActive(h: Hasher, active: seq<Slot>, source: seq<Slot>, logical: Table, waiting: set<Key>, i: nat,
                   ks: set<Key>)
    requires Stands(h, active, source, logical, waiting) && i < |active| && ks <= TableOf(active[i]).Keys
    ensures Stands(h, active[i := Some(Without(TableOf(active[i]), ks))], source, Without(logical, ks), waiting)
    ensures (forall k :: k in ks ==> k in logical)
  {
    var t := Without(TableOf(active[i]), ks);
    forall k
      ensures k in ks ==> k in logical && k !in waiting
      ensures Find(h, active[i := Some(t)], k) == if k in ks then None else Find(h, active, k)
    {
      FindSwapped(h, active, i, t, k);
      SlotShare(h, active, source, logical, waiting, i, k);
    }
  }

  /** Removing keys of one source slot removes them from the map. */
  lemma DropSource(h: Hasher, active: seq<Slot>, source: seq<Slot>, logical: Table, waiting: set<Key>, j: nat,
                   ks: set<Key>)
    requires Stands(h, active, source, logical, waiting) && j < |source| && ks <= TableOf(source[j]).Keys
    ensures Stands(h, active, source[j := Some(Without(TableOf(source[j]), ks))], Without(logical, ks), waiting - ks)
    ensures (forall k :: k in ks ==> k in logical)
  {
    var t := Without(TableOf(source[j]), ks);
    forall k
      ensures k in ks ==> k in logical && k in waiting
      ensures Find(h, source[j := Some(t)], k) == if k in ks then None else Find(h, source, k)
    {
      FindSwapped(h, source, j, t, k);
      if k in ks {
        assert Find(h, source, k).Some?;
      }
      assert Lookup(logical, k) == if k in waiting then Find(h, source, k) else Find(h, active, k);
    }
  }

  /** Retiring an empty source slot changes nothing. */
  lemma RetireSlot(h: Hasher, active: seq<Slot>, source: seq<Slot>, logical: Table, waiting: set<Key>, j: nat)
    requires Stands(h, active, source, logical, waiting) && j < |source| && TableOf(source[j]) == map[]
    ensures Stands(h, active, source[j := None], logical, waiting)
  {
    forall k ensures Find(h, source[j := None], k) == Find(h, source, k) {
    }
  }

  /** A directory without source entries stands on its active generation alone. */
  lemma DropEmptySource(h: Hasher, active: seq<Slot>, source: seq<Slot>, logical: Table, waiting: set<Key>)
    requires Stands(h, active, source, logical, waiting)
    requires forall j :: 0 <= j < |source| ==> source[j] == None
    ensures waiting == {} && Stands(h, active, [], logical, {})
  {
    forall k ensures Find(h, source, k) == None {
    }
  }

  /** A generation switch: all slots become source, over a fresh empty active directory. */
  lemma SwitchGeneration(h: Hasher, active: seq<Slot>, logical: Table, fresh_: seq<Slot>)
    requires Stands(h, active, [], logical, {})
    requires forall i :: 0 <= i < |fresh_| ==> fresh_[i] == None
    ensures Stands(h, fresh_, active, logical, logical.Keys)
  {
    forall k
      ensures k in logical.Keys <==> Find(h, active, k).Some?
      ensures Find(h, fresh_, k) == None
      ensures Lookup(logical, k) == Find(h, active, k)
    {
      assert Lookup(logical, k) == Find(h, active, k);
    }
  }
}
