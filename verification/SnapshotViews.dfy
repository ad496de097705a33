/** Immutable views: the captured shard tables, with the length, version and shard count of the capture. */
module SnapshotViews {
  import opened Domain
  import opened Routing
  import opened ShardedMap
  import CowStorage
  import WholeMap

  datatype SnapshotView = SnapshotView(shards: seq<Table>, len: nat, version: nat, shardCount: nat)

  function SumSizes(tables: seq<Table>): nat {
    if tables == [] then 0 else SumSizes(tables[..|tables| - 1]) + |tables[|tables| - 1]|
  }

  function NewView(tables: seq<Table>, version: nat, shardCount: nat): SnapshotView {
    SnapshotView(tables, SumSizes(tables), version, shardCount)
  }

  /** The tables hold every entry of `m`, each in one table only, and nothing else. */
  ghost predicate Shows(tables: seq<Table>, m: Table) {
    && (forall i, j :: 0 <= i < j < |tables| ==> tables[i].Keys !! tables[j].Keys)
    && (forall i, k :: 0 <= i < |tables| && k in tables[i] ==> Lookup(m, k) == Some(tables[i][k]))
    && (forall k :: k in m ==> exists i :: 0 <= i < |tables| && k in tables[i])
  }

  lemma ShowsMore(tables: seq<Table>, m: Table, t: Table)
    requires Shows(tables, m) && m.Keys !! t.Keys
    ensures Shows(tables + [t], m + t)
  {
    var more := tables + [t];
    forall i, j | 0 <= i < j < |more| ensures more[i].Keys !! more[j].Keys {
      forall k | k in more[i] ensures k !in more[j] {
        assert i < |tables| && k in tables[i];
        assert j == |tables| ==> Lookup(m, k).Some?;
      }
    }
    forall i, k | 0 <= i < |more| && k in more[i] ensures Lookup(m + t, k) == Some(more[i][k]) {
      assert i < |tables| ==> Lookup(m, k) == Some(tables[i][k]);
    }
    forall k | k in m + t ensures exists i :: 0 <= i < |more| && k in more[i] {
      if k in t {
        assert k in more[|tables|];
      } else {
        var i :| 0 <= i < |tables| && k in tables[i];
        assert k in more[i];
      }
    }
  }

  /** The length of a view is the number of entries it shows. */
  lemma {:induction false} ViewLength(tables: seq<Table>, m: Table)
    requires Shows(tables, m)
    ensures SumSizes(tables) == |m|
    decreases |tables|
  {
    if tables == [] {
      assert m == map[] by {
        if k :| k in m {
          assert false;
        }
      }
    } else {
      var n := |tables| - 1;
      var rest := Without(m, tables[n].Keys);
      ViewRest(tables, m);
      ViewLength(tables[..n], rest);
      WithoutSize(m, tables[n].Keys);
      KeysSize(tables[n]);
    }
  }

  lemma ViewRest(tables: seq<Table>, m: Table)
    requires Shows(tables, m) && |tables| > 0
    ensures Shows(tables[..|tables| - 1], Without(m, tables[|tables| - 1].Keys))
    ensures forall k :: k in tables[|tables| - 1] ==> k in m
  {
    hide Shows, Without;
    var n := |tables| - 1;
    forall k | k in tables[n] ensures k in m {
      ShownEntry(tables, m, n, k);
    }
    forall k ensures Lookup(Without(m, tables[n].Keys), k) == if k in tables[n] then None else Lookup(m, k) {
    }
    ViewFront(tables, m, Without(m, tables[n].Keys));
  }

  lemma ShownEntry(tables: seq<Table>, m: Table, i: nat, k: Key)
    requires Shows(tables, m) && i < |tables| && k in tables[i]
    ensures Lookup(m, k) == Some(tables[i][k])
  {
  }

  lemma ViewFront(tables: seq<Table>, m: Table, rest: Table)
    requires Shows(tables, m) && |tables| > 0
    requires forall k :: Lookup(rest, k) == if k in tables[|tables| - 1] then None else Lookup(m, k)
    ensures Shows(tables[..|tables| - 1], rest)
  {
    var n := |tables| - 1;
    var front := tables[..n];
    forall i, k | 0 <= i < |front| && k in front[i] ensures Lookup(rest, k) == Some(front[i][k]) {
      assert k in tables[i] && k !in tables[n];
    }
    forall k | k in rest ensures exists i :: 0 <= i < |front| && k in front[i] {
      assert Lookup(rest, k) == if k in tables[n] then None else Lookup(m, k);
      var i :| 0 <= i < |tables| && k in tables[i];
      assert k in front[i];
    }
  }

  /** Appends the table of every allocated shard of one generation. */
  method ViewSlots(h: Hasher, slots: seq<Slot>, before: seq<Table>, ghost base: Table)
    returns (tables: seq<Table>, ghost all: Table)
    requires Shows(before, base) && Routed(h, slots)
    requires forall k :: k in base ==> Find(h, slots, k) == None
    ensures Shows(tables, all) && WholeMap.ListedUpTo(h, slots, |slots|, base, all)
    ensures tables == before + CowStorage.Present(slots)
  {
    tables, all := before, base;
    var i := 0;
    while i < |slots|
      invariant 0 <= i <= |slots| && Shows(tables, all) && WholeMap.ListedUpTo(h, slots, i, base, all)
      invariant tables == before + CowStorage.Present(slots[..i])
    {
      CowStorage.PresentNext(slots, i);
      if slots[i].Some? {
        WholeMap.NextSlotListed(h, slots, i, base, all);
        ShowsMore(tables, all, slots[i].value);
        tables, all := tables + [slots[i].value], all + slots[i].value;
      }
      i := i + 1;
    }
    assert slots[..i] == slots;
  }

  /** A view of the whole map: every entry once, the right length, and the epoch and shard count of the capture. */
  method CaptureView(m: StarMap) returns (view: SnapshotView)
    requires m.Valid()
    ensures Shows(view.shards, m.logical) && view.len == |m.logical| == m.totalLen
    ensures view.shards == CowStorage.Present(m.active + m.Source())
    ensures view.version == m.writeEpoch && view.shardCount == |m.active|
  {
    hide Shows, CowStorage.Present, WholeMap.ListedUpTo, StarMap.Valid, Stands;
    ShowsNothing();
    Directories(m);
    var source := if m.previous.Some? then m.previous.value else [];
    var tables;
    ghost var base, all;
    tables, base := ViewSlots(m.hash, m.active, [], map[]);
    ActiveListed(m, base);
    tables, all := ViewSlots(m.hash, source, tables, base);
    AllListed(m, base, all);
    CowStorage.PresentAppend(m.active, source);
    ViewLength(tables, m.logical);
    view := NewView(tables, m.writeEpoch, m.shardCount);
  }

  lemma Directories(m: StarMap)
    requires m.Valid()
    ensures Routed(m.hash, m.active) && Routed(m.hash, m.Source())
    ensures |m.active| == m.shardCount && |m.logical| == m.totalLen
  {
  }

  /** What the active shards list is in no previous shard. */
  lemma ActiveListed(m: StarMap, base: Table)
    requires m.Valid() && WholeMap.ListedUpTo(m.hash, m.active, |m.active|, map[], base)
    ensures forall k :: k in base ==> Find(m.hash, m.Source(), k) == None
  {
    assert forall k :: Lookup(base, k) == Find(m.hash, m.active, k);
  }

  /** Both generations list the logical map. */
  lemma AllListed(m: StarMap, base: Table, all: Table)
    requires m.Valid() && WholeMap.ListedUpTo(m.hash, m.active, |m.active|, map[], base)
    requires WholeMap.ListedUpTo(m.hash, m.Source(), |m.Source()|, base, all)
    ensures all == m.logical
  {
    assert forall k :: Lookup(base, k) == Find(m.hash, m.active, k);
    forall k ensures Lookup(all, k) == Lookup(m.logical, k) {
      assert Lookup(base, k) == Find(m.hash, m.active, k);
    }
    SameLookups(all, m.logical);
  }

  lemma ShowsNothing()
    ensures Shows([], map[])
  {
  }
}
