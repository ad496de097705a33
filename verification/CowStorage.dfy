/**
 * Copy-on-write shard storage. Shards and captured views share table cells by reference counting; a
 * write goes to the cell in place only when nobody else holds it.
 */
module CowStorage {
  import opened Domain

  /** A reference-counted table. */
  class Cell {
    var table: Table
    var strong: nat

    constructor (table: Table)
      ensures this.table == table && this.strong == 1
    {
      this.table, this.strong := table, 1;
    }
  }

  /** What a map operation or another view's owner may do while a view is held. */
  datatype Action =
    | Extend(slot: Slot)
    | Write(index: nat, table: Table)
    | Retire(index: nat)
    | Capture
    | Release(view: nat)

  /** What an action does to the slots; a write to an empty slot initializes it. */
  function Effect(slots: seq<Slot>, a: Action): seq<Slot> {
    match a
    case Extend(slot) => slots + [slot]
    case Write(i, t) => if i < |slots| then slots[i := Some(t)] else slots
    case Retire(i) => if i < |slots| then slots[i := None] else slots
    case Capture => slots
    case Release(_) => slots
  }

  function Scripted(slots: seq<Slot>, script: seq<Action>): seq<Slot> {
    if script == [] then slots
    else Effect(Scripted(slots, script[..|script| - 1]), script[|script| - 1])
  }

  /** The slots of a copy-on-write map, both directories one after the other, and what every live view holds. */
  class CowShards {
    var shards: seq<Option<Cell>>
    /** The references held by live views. */
    ghost var held: multiset<Cell>
    ghost var repr: set<Cell>

    /** Every reference is counted, and no two slots share a cell. */
    ghost predicate Valid()
      reads this, repr
    {
      && (forall c :: c in repr ==> c.strong == (if Some(c) in shards then 1 else 0) + held[c])
      && (forall i :: 0 <= i < |shards| && shards[i].Some? ==> shards[i].value in repr)
      && (forall c :: c in held ==> c in repr)
      && (forall i, j :: 0 <= i < j < |shards| && shards[i].Some? ==> shards[i] != shards[j])
    }

    /** `slots` are the tables in the cells. */
    ghost predicate Shows(slots: seq<Slot>)
      reads this, repr
    {
      && |slots| == |shards|
      && forall i :: 0 <= i < |slots| ==>
         (shards[i].Some? ==> shards[i].value in repr) && SlotShows(shards[i], slots[i])
    }

    constructor ()
      ensures Valid() && shards == [] && fresh(repr) && held == multiset{}
    {
      shards, held, repr := [], multiset{}, {};
    }

    /** A new directory slot, allocated or not. */
    method AddSlot(slot: Slot, ghost slots: seq<Slot>)
      requires Valid() && Shows(slots)
      modifies this`shards, this`repr
      ensures Valid() && fresh(repr - old(repr)) && old(repr) <= repr && Shows(slots + [slot])
    {
      if slot.Some? {
        var cell := new Cell(slot.value);
        shards, repr := shards + [Some(cell)], repr + {cell};
      } else {
        shards := shards + [None];
      }
    }

    method CloneReference(cell: Cell)
      requires Valid() && cell in repr
      modifies this`held, cell`strong
      ensures Valid() && held == old(held) + multiset{cell}
    {
      cell.strong, held := cell.strong + 1, held + multiset{cell};
    }

    method DropReference(cell: Cell)
      requires Valid() && cell in held
      modifies this`held, cell`strong
      ensures Valid() && held == old(held) - multiset{cell}
    {
      cell.strong, held := cell.strong - 1, held - multiset{cell};
    }

    lemma HeldCounted(cell: Cell)
      requires Valid() && cell in held
      ensures cell in repr
    {
    }

    lemma ShardCounted(i: nat)
      requires Valid() && i < |shards| && shards[i].Some?
      ensures shards[i].value in repr
    {
    }

    /** Shares every allocated slot's cell with a new view; no table is copied or touched. */
    method Snapshot() returns (view: seq<Cell>)
      requires Valid()
      modifies this`held, repr`strong
      ensures Valid() && view == Allocated(shards) && held == old(held) + multiset(view)
      ensures forall c :: c in view <==> Some(c) in shards
    {
      hide Valid, Cloned, Allocated;
      ClonedEnds(old(held), shards);
      view := [];
      var i := 0;
      while i < |shards|
        invariant 0 <= i <= |shards| && Valid() && view == Allocated(shards[..i]) &&
                  held == Cloned(old(held), shards, i)
      {
        NextClone(old(held), shards, i);
        if shards[i].Some? {
          ShardCounted(i);
          CloneReference(shards[i].value);
          view := view + [shards[i].value];
        }
        i := i + 1;
      }
      assert shards[..i] == shards;
      AllocatedMembers(shards);
    }

    /** Drops a view; its cells stay alive while somebody else holds them. */
    method Drop(view: seq<Cell>)
      requires Valid() && multiset(view) <= held
      modifies this`held, repr`strong
      ensures Valid() && held == old(held) - multiset(view)
    {
      hide Valid, Dropped;
      DroppedEnds(old(held), view);
      var i := 0;
      while i < |view|
        invariant 0 <= i <= |view| && Valid() && held == Dropped(old(held), view, i)
      {
        NextReference(old(held), view, i);
        HeldCounted(view[i]);
        DropReference(view[i]);
        i := i + 1;
      }
    }

    /** Empties a slot: its reference goes, and the cell lives on while a view holds it. */
    method RetireShard(i: nat, ghost slots: seq<Slot>)
      requires Valid() && i < |shards| && Shows(slots)
      modifies this`shards, repr`strong
      ensures Valid() && Shows(slots[i := None])
    {
      if shards[i].Some? {
        var before := shards[i].value;
        ReplaceMember(shards, i, None);
        before.strong := before.strong - 1;
        shards := shards[i := None];
      }
    }

    /** Gives a slot a fresh cell and lets go of the old one, if there was one. */
    method Renew(i: nat, table: Table, ghost slots: seq<Slot>)
      requires Valid() && i < |shards| && Shows(slots)
      modifies this`shards, this`repr, repr`strong
      ensures Valid() && fresh(repr - old(repr)) && old(repr) <= repr && Shows(slots[i := Some(table)])
      ensures |shards| == |old(shards)| && shards[i].Some? && fresh(shards[i].value)
    {
      RetireShard(i, slots);
      var cell := new Cell(table);
      ReplaceMember(shards, i, Some(cell));
      shards, repr := shards[i := Some(cell)], repr + {cell};
    }

    /**
     * Mutable access, writing `table`: in place when the shard is the only owner, on a copy otherwise.
     * Either way no table that a view holds changes.
     */
    method WriteShard(i: nat, table: Table, ghost slots: seq<Slot>)
      requires Valid() && i < |shards| && Shows(slots)
      modifies this`shards, this`repr, repr
      ensures Valid() && fresh(repr - old(repr)) && old(repr) <= repr && Shows(slots[i := Some(table)])
      ensures |shards| == |old(shards)| && shards[i].Some?
      ensures old(shards)[i].Some? ==> (shards[i] == old(shards)[i] <==> old(shards)[i].value !in held)
      ensures forall c :: c in held ==> c.table == old(c.table)
    {
      if shards[i].Some? && shards[i].value.strong == 1 {
        shards[i].value.table := table;
      } else {
        Renew(i, table, slots);
      }
    }
  }

  ghost predicate SlotShows(cell: Option<Cell>, slot: Slot)
    reads if cell.Some? then {cell.value} else {}
  {
    (cell.None? && slot.None?) || (cell.Some? && slot == Some(cell.value.table))
  }

  /** The cells of the allocated slots, in order. */
  function Allocated(shards: seq<Option<Cell>>): seq<Cell> {
    if shards == [] then []
    else
      var last := shards[|shards| - 1];
      Allocated(shards[..|shards| - 1]) + if last.Some? then [last.value] else []
  }

  lemma {:induction false} AllocatedMembers(shards: seq<Option<Cell>>)
    ensures forall c :: c in Allocated(shards) <==> Some(c) in shards
    decreases |shards|
  {
    if shards != [] {
      var n := |shards| - 1;
      AllocatedMembers(shards[..n]);
      assert shards == shards[..n] + [shards[n]];
    }
  }

  /** The references once the first `i` slots are shared. */
  ghost function Cloned(held: multiset<Cell>, shards: seq<Option<Cell>>, i: nat): multiset<Cell>
    requires i <= |shards|
  {
    held + multiset(Allocated(shards[..i]))
  }

  lemma ClonedEnds(held: multiset<Cell>, shards: seq<Option<Cell>>)
    ensures Allocated(shards[..0]) == [] && Cloned(held, shards, 0) == held
    ensures Cloned(held, shards, |shards|) == held + multiset(Allocated(shards))
  {
    assert shards[..|shards|] == shards;
  }

  lemma NextClone(held: multiset<Cell>, shards: seq<Option<Cell>>, i: nat)
    requires i < |shards|
    ensures Allocated(shards[..i + 1]) == Allocated(shards[..i]) + if shards[i].Some? then [shards[i].value] else []
    ensures Cloned(held, shards, i + 1) ==
            Cloned(held, shards, i) + if shards[i].Some? then multiset{shards[i].value} else multiset{}
  {
    assert shards[..i + 1][..i] == shards[..i];
  }

  /** The references once the first `i` of a view are dropped. */
  ghost function Dropped(held: multiset<Cell>, view: seq<Cell>, i: nat): multiset<Cell>
    requires i <= |view|
  {
    held - multiset(view[..i])
  }

  lemma DroppedEnds(held: multiset<Cell>, view: seq<Cell>)
    ensures Dropped(held, view, 0) == held && Dropped(held, view, |view|) == held - multiset(view)
  {
    assert view[..|view|] == view;
  }

  /** A view that is held has its next reference held after its first ones are dropped. */
  lemma NextReference(held: multiset<Cell>, view: seq<Cell>, i: nat)
    requires i < |view| && multiset(view) <= held
    ensures view[i] in Dropped(held, view, i)
    ensures Dropped(held, view, i) - multiset{view[i]} == Dropped(held, view, i + 1)
  {
    assert view == view[..i + 1] + view[i + 1..];
    assert view[..i + 1] == view[..i] + [view[i]];
    var before := multiset(view[..i]);
    assert multiset(view[..i + 1]) == before + multiset{view[i]};
    assert (before + multiset{view[i]})[view[i]] <= held[view[i]];
  }

  lemma ReplaceMember(cells: seq<Option<Cell>>, i: nat, cell: Option<Cell>)
    requires i < |cells| && (cell.Some? ==> cell !in cells)
    requires forall a, b :: 0 <= a < b < |cells| && cells[a].Some? ==> cells[a] != cells[b]
    ensures forall c :: Some(c) in cells[i := cell] <==> Some(c) == cell || (Some(c) in cells && Some(c) != cells[i])
  {
    forall c ensures Some(c) in cells[i := cell] <==> Some(c) == cell || (Some(c) in cells && Some(c) != cells[i]) {
      if Some(c) in cells && Some(c) != cells[i] {
        var j :| 0 <= j < |cells| && cells[j] == Some(c);
        assert cells[i := cell][j] == Some(c);
      }
      assert cells[i := cell][i] == cell;
    }
  }

  /** The references of several views. */
  ghost function References(views: seq<seq<Cell>>): multiset<Cell> {
    if views == [] then multiset{} else References(views[..|views| - 1]) + multiset(views[|views| - 1])
  }

  lemma ReferencesWith(views: seq<seq<Cell>>, view: seq<Cell>)
    ensures References(views + [view]) == References(views) + multiset(view)
  {
    assert (views + [view])[..|views|] == views;
  }

  lemma {:induction false} ReferencesWithout(views: seq<seq<Cell>>, n: nat)
    requires n < |views|
    ensures References(views) == References(views[..n] + views[n + 1..]) + multiset(views[n])
    decreases |views|
  {
    var last := |views| - 1;
    if n < last {
      ReferencesWithout(views[..last], n);
      assert views[..last][..n] + views[..last][n + 1..] == (views[..n] + views[n + 1..])[..last - 1];
    } else {
      assert views[..n] + views[n + 1..] == views[..last];
    }
  }

  predicate OfMap(a: Action) {
    a.Extend? || a.Write? || a.Retire?
  }

  /** An action of the map, while views hold what they hold. */
  method PerformWrite(m: CowShards, a: Action, ghost slots: seq<Slot>)
    requires m.Valid() && OfMap(a) && m.Shows(slots)
    modifies m`shards, m`repr, m.repr
    ensures m.Valid() && fresh(m.repr - old(m.repr)) && old(m.repr) <= m.repr && m.Shows(Effect(slots, a))
    ensures forall c :: c in m.held ==> c.table == old(c.table)
  {
    match a
    case Extend(slot) => m.AddSlot(slot, slots);
    case Write(i, t) =>
      if i < |m.shards| {
        m.WriteShard(i, t, slots);
      }
    case Retire(i) =>
      if i < |m.shards| {
        m.RetireShard(i, slots);
      }
  }

  /** A capture or a release, while `view` and `others` are held. */
  method PerformView(m: CowShards, a: Action, ghost view: seq<Cell>, others: seq<seq<Cell>>)
    returns (others': seq<seq<Cell>>)
    requires m.Valid() && !OfMap(a) && m.held == multiset(view) + References(others)
    modifies m`held, m.repr`strong
    ensures m.Valid() && m.held == multiset(view) + References(others')
  {
    hide CowShards.Valid, References;
    others' := others;
    if a.Capture? {
      var another := m.Snapshot();
      others' := others + [another];
      ReferencesWith(others, another);
    } else if a.view < |others| {
      ReferencesWithout(others, a.view);
      others' := others[..a.view] + others[a.view + 1..];
      assert m.held == multiset(view) + References(others') + multiset(others[a.view]);
      m.Drop(others[a.view]);
    }
  }

  /** One action while `view` and `others` are held. */
  method Perform(m: CowShards, a: Action, view: seq<Cell>, others: seq<seq<Cell>>, ghost slots: seq<Slot>)
    returns (others': seq<seq<Cell>>)
    requires m.Valid() && m.held == multiset(view) + References(others) && m.Shows(slots)
    modifies m, m.repr
    ensures m.Valid() && fresh(m.repr - old(m.repr)) && old(m.repr) <= m.repr
    ensures m.held == multiset(view) + References(others') && m.Shows(Effect(slots, a))
    ensures forall c :: c in view ==> c.table == old(c.table)
  {
    assert forall c :: c in view ==> c in multiset(view) && c in m.held;
    if OfMap(a) {
      PerformWrite(m, a, slots);
      others' := others;
    } else {
      others' := PerformView(m, a, view, others);
    }
  }

  /** The tables of the allocated slots, in order. */
  function Present(slots: seq<Slot>): seq<Table> {
    if slots == [] then []
    else
      var last := slots[|slots| - 1];
      Present(slots[..|slots| - 1]) + if last.Some? then [last.value] else []
  }

  lemma PresentNext(slots: seq<Slot>, i: nat)
    requires i < |slots|
    ensures Present(slots[..i + 1]) == Present(slots[..i]) + if slots[i].Some? then [slots[i].value] else []
  {
    assert slots[..i + 1][..i] == slots[..i];
  }

  lemma {:induction false} PresentAppend(a: seq<Slot>, b: seq<Slot>)
    ensures Present(a + b) == Present(a) + Present(b)
    decreases |b|
  {
    if b == [] {
      assert a + b == a;
    } else {
      var n := |b| - 1;
      assert (a + b)[..|a + b| - 1] == a + b[..n];
      PresentAppend(a, b[..n]);
    }
  }

  ghost predicate ViewShows(view: seq<Cell>, tables: seq<Table>)
    reads set c | c in view
  {
    |view| == |tables| && forall i :: 0 <= i < |view| ==> view[i].table == tables[i]
  }

  lemma {:induction false} AllocatedShow(shards: seq<Option<Cell>>, slots: seq<Slot>)
    requires |shards| == |slots| && forall i :: 0 <= i < |slots| ==> SlotShows(shards[i], slots[i])
    ensures ViewShows(Allocated(shards), Present(slots))
    decreases |shards|
  {
    if shards != [] {
      var n := |shards| - 1;
      AllocatedShow(shards[..n], slots[..n]);
      assert SlotShows(shards[n], slots[n]);
    }
  }

  lemma ScriptedMore(slots: seq<Slot>, script: seq<Action>, n: nat)
    requires n < |script|
    ensures Scripted(slots, script[..n + 1]) == Effect(Scripted(slots, script[..n]), script[n])
  {
    assert script[..n + 1][..n] == script[..n];
  }

  /**
   * Immutability: a captured view shows the tables of its capture after any later run of writes, slot
   * allocations and retirements, captures and releases of other views, while the map shows what the
   * run makes of it.
   */
  method HoldView(m: CowShards, script: seq<Action>, others: seq<seq<Cell>>, ghost slots: seq<Slot>)
    returns (view: seq<Cell>)
    requires m.Valid() && m.held == References(others) && m.Shows(slots)
    modifies m, m.repr
    ensures m.Valid() && m.Shows(Scripted(slots, script))
    ensures ViewShows(view, Present(slots))
  {
    hide CowShards.Valid, Scripted, Effect, Present, References;
    assert ViewShows(Allocated(m.shards), Present(slots)) by { CapturedShows(m, slots); }
    view := m.Snapshot();
    assert script[..0] == [] && Scripted(slots, []) == slots by { ScriptedNothing(slots); }
    var rest := others;
    var n := 0;
    while n < |script|
      invariant 0 <= n <= |script| && m.Valid() && fresh(m.repr - old(m.repr)) && old(m.repr) <= m.repr
      invariant m.held == multiset(view) + References(rest) && m.Shows(Scripted(slots, script[..n]))
      invariant ViewShows(view, Present(slots))
    {
      ScriptedMore(slots, script, n);
      rest := Perform(m, script[n], view, rest, Scripted(slots, script[..n]));
      n := n + 1;
    }
    assert script[..n] == script;
  }

  lemma CapturedShows(m: CowShards, slots: seq<Slot>)
    requires m.Shows(slots)
    ensures ViewShows(Allocated(m.shards), Present(slots))
  {
    AllocatedShow(m.shards, slots);
  }

  lemma ScriptedNothing(slots: seq<Slot>)
    ensures Scripted(slots, []) == slots
  {
  }
}
