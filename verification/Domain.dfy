/** The values every component of the map talks about. */
module Domain {

  /** Keys with lawful equality; hashing is a parameter of the components that route. */
  type Key(==, !new)

  type Value(==, !new)

  datatype Option<+T> = None | Some(value: T)

  /** The contents of one shard. */
  type Table = map<Key, Value>

  /** A lazily allocated shard slot of a directory. */
  type Slot = Option<Table>

  type Hasher = Key -> nat

  function Lookup<V>(m: map<Key, V>, k: Key): Option<V> {
    if k in m then Some(m[k]) else None
  }

  /** `m` with the binding of `k` replaced by `v`, or dropped when `v` is `None`. */
  function Bind(m: Table, k: Key, v: Option<Value>): (r: Table)
    ensures Lookup(r, k) == v
    ensures forall x :: x != k ==> Lookup(r, x) == Lookup(m, x)
  {
    if v.Some? then m[k := v.value] else m - {k}
  }

  lemma BindSize(m: Table, k: Key, v: Option<Value>)
    ensures |Bind(m, k, v)| + (if k in m then 1 else 0) == |m| + (if v.Some? then 1 else 0)
    ensures v == Lookup(m, k) ==> Bind(m, k, v) == m
  {
    if v.Some? {
      assert m[k := v.value].Keys == m.Keys + {k};
    } else {
      assert (m - {k}).Keys == m.Keys - {k};
    }
    KeysSize(m);
    KeysSize(Bind(m, k, v));
    if v == Lookup(m, k) {
      SameLookups(Bind(m, k, v), m);
    }
  }

  /** Two tables with the same lookups are the same table. */
  lemma SameLookups<V>(a: map<Key, V>, b: map<Key, V>)
    requires forall k :: Lookup(a, k) == Lookup(b, k)
    ensures a == b
  {
    assert forall k :: k in a <==> Lookup(a, k).Some?;
    assert forall k :: k in b <==> Lookup(b, k).Some?;
    assert a.Keys == b.Keys;
  }

  lemma KeysSize(a: Table)
    ensures |a.Keys| == |a|
  {
  }

  lemma SubsetSize(a: set<Key>, b: set<Key>)
    requires a <= b
    ensures |a| <= |b|
    ensures |a| == |b| ==> a == b
  {
    assert b == a + (b - a);
  }

  /** A listing of a table's entries in some iteration order, each key once. */
  ghost predicate Enumerates(items: seq<(Key, Value)>, m: Table) {
    && (forall i, j :: 0 <= i < j < |items| ==> items[i].0 != items[j].0)
    && (forall p :: p in items <==> p.0 in m && m[p.0] == p.1)
  }

  lemma EnumerateAppend(a: seq<(Key, Value)>, m: Table, b: seq<(Key, Value)>, n: Table)
    requires Enumerates(a, m) && Enumerates(b, n) && m.Keys !! n.Keys
    ensures Enumerates(a + b, m + n)
  {
    var c := a + b;
    forall i, j | 0 <= i < j < |c|
      ensures c[i].0 != c[j].0
    {
      if i < |a| <= j {
        assert c[i] in a && c[j] in b;
      }
    }
    forall p
      ensures p in c <==> p.0 in m + n && (m + n)[p.0] == p.1
    {
      assert p in c <==> p in a || p in b;
    }
  }

  lemma EnumeratedKey(items: seq<(Key, Value)>, m: Table, k: Key)
    requires Enumerates(items, m) && k in m
    ensures (k, m[k]) in items
  {
  }

  /** A listing has exactly as many items as the table has entries. */
  lemma {:induction false} EnumerateSize(items: seq<(Key, Value)>, m: Table)
    requires Enumerates(items, m)
    ensures |items| == |m|
    decreases |items|
  {
    if items == [] {
      if k :| k in m {
        EnumeratedKey(items, m, k);
        assert false;
      }
    } else {
      var last := items[|items| - 1];
      var rest := items[..|items| - 1];
      assert last in items;
      forall p
        ensures p in rest <==> p.0 in m - {last.0} && (m - {last.0})[p.0] == p.1
      {
        if p in rest {
          assert p in items;
        }
        if p.0 in m - {last.0} && m[p.0] == p.1 {
          assert p in items && p != last;
        }
      }
      EnumerateSize(rest, m - {last.0});
    }
  }
}
