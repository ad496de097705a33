/** The map's own operations as runs of the copy-on-write storage. */
module CowOperations {
  import opened Domain
  import opened Routing
  import opened CowStorage
  import Mutation

  lemma {:induction false} ScriptedAppend(slots: seq<Slot>, a: seq<Action>, b: seq<Action>)
    ensures Scripted(slots, a + b) == Scripted(Scripted(slots, a), b)
    decreases |b|
  {
    if b == [] {
      assert a + b == a;
    } else {
      var n := |b| - 1;
      assert (a + b)[..|a + b| - 1] == a + b[..n];
      ScriptedAppend(slots, a, b[..n]);
    }
  }

  /** What map operations do to the slots of both directories. */
  datatype Operation =
    | Change(i: nat, table: Table)           // a write, removal or batch in one active shard
    | Promote(i: nat, j: nat, key: Key)      // a promotion or one move of the migration
    | RetireSource(j: nat)                   // a drained previous slot is taken
    | Switch(count: nat)                     // a new generation starts with empty slots
    | Rebuild(dest: seq<Slot>)               // a staged directory replaces both generations
    | Clear                                  // every table is emptied, the previous directory dropped

  predicate Applies(active: seq<Slot>, source: seq<Slot>, op: Operation) {
    match op
    case Change(i, _) => i < |active|
    case Promote(i, j, key) => i < |active| && j < |source| && key in TableOf(source[j])
    case RetireSource(j) => j < |source|
    case _ => true
  }

  function Empty(slot: Slot): Slot {
    if slot.Some? then Some(map[]) else None
  }

  /** The slots an operation leaves, in the layout active directory then previous directory, then new slots. */
  function Left(active: seq<Slot>, source: seq<Slot>, op: Operation): seq<Slot>
    requires Applies(active, source, op)
  {
    match op
    case Change(i, t) => active[i := Some(t)] + source
    case Promote(i, j, key) =>
      var (target, rest) := Mutation.Promoted(TableOf(active[i]), TableOf(source[j]), key);
      active[i := Some(target)] + source[j := Some(rest)]
    case RetireSource(j) => active + source[j := None]
    case Switch(count) => active + source + Nothing(count)
    case Rebuild(dest) => Nothing(|active| + |source|) + dest
    case Clear => seq(|active|, i requires 0 <= i < |active| => Empty(active[i])) + Nothing(|source|)
  }

  function Nothing(n: nat): seq<Slot> {
    seq(n, _ => None)
  }

  /** Each slot treated by number: the first `n` of them. */
  function Each(n: nat, f: nat -> Action): seq<Action> {
    if n == 0 then [] else Each(n - 1, f) + [f(n - 1)]
  }

  /** Emptied tables in the active directory, retired slots after it. */
  function Clearing(active: seq<Slot>): nat -> Action {
    (i: nat) => if i < |active| && active[i].Some? then Write(i, map[]) else Retire(i)
  }

  function Retiring(): nat -> Action {
    (i: nat) => Retire(i)
  }

  function Extending(dest: seq<Slot>): nat -> Action {
    (i: nat) => Extend(if i < |dest| then dest[i] else None)
  }

  function ScriptOf(active: seq<Slot>, source: seq<Slot>, op: Operation): seq<Action>
    requires Applies(active, source, op)
  {
    match op
    case Change(i, t) => [Write(i, t)]
    case Promote(i, j, key) =>
      var (target, rest) := Mutation.Promoted(TableOf(active[i]), TableOf(source[j]), key);
      [Write(i, target), Write(|active| + j, rest)]
    case RetireSource(j) => [Retire(|active| + j)]
    case Switch(count) => Each(count, Extending(Nothing(count)))
    case Rebuild(dest) =>
      Each(|active| + |source|, Retiring()) + Each(|dest|, Extending(dest))
    case Clear => Each(|active| + |source|, Clearing(active))
  }

  /** An action that treats slot number `i` and no other. */
  predicate Treats(a: Action, i: nat) {
    (a.Write? || a.Retire?) && a.index == i
  }

  function Treated(a: Action): Slot {
    if a.Write? then Some(a.table) else None
  }

  lemma {:induction false} EachTreats(slots: seq<Slot>, n: nat, f: nat -> Action)
    requires n <= |slots| && forall i: nat :: i < n ==> Treats(f(i), i)
    ensures var r := Scripted(slots, Each(n, f));
            |r| == |slots| && forall i: nat :: i < |slots| ==> r[i] == if i < n then Treated(f(i)) else slots[i]
  {
    if n == 0 {
      ScriptedNothing(slots);
    } else {
      EachTreats(slots, n - 1, f);
      var script := Each(n, f);
      assert script[..|script| - 1] == Each(n - 1, f);
      assert Treats(f(n - 1), n - 1);
    }
  }

  lemma {:induction false} EachExtends(slots: seq<Slot>, dest: seq<Slot>, f: nat -> Action)
    requires forall i: nat :: i < |dest| ==> f(i) == Extend(dest[i])
    ensures Scripted(slots, Each(|dest|, f)) == slots + dest
    decreases |dest|
  {
    if dest == [] {
      ScriptedNothing(slots);
    } else {
      var n := |dest| - 1;
      EachExtends(slots, dest[..n], f);
      var script := Each(|dest|, f);
      assert script[..|script| - 1] == Each(n, f);
      assert slots + dest == slots + dest[..n] + [dest[n]];
    }
  }

  lemma OneAction(slots: seq<Slot>, a: Action)
    ensures Scripted(slots, [a]) == Effect(slots, a)
  {
    assert [a][..0] == [];
  }

  lemma ClearIsScript(active: seq<Slot>, source: seq<Slot>)
    ensures Scripted(active + source, ScriptOf(active, source, Clear)) == Left(active, source, Clear)
  {
    hide Scripted, Each;
    var f := Clearing(active);
    EachTreats(active + source, |active| + |source|, f);
    var r := Scripted(active + source, ScriptOf(active, source, Clear));
    var left := Left(active, source, Clear);
    forall i: nat | i < |left| ensures r[i] == left[i] {
      assert r[i] == Treated(f(i));
    }
  }

  lemma RetireAll(slots: seq<Slot>)
    ensures Scripted(slots, Each(|slots|, Retiring())) == Nothing(|slots|)
  {
    hide Scripted, Each;
    var retire, none := Retiring(), Nothing(|slots|);
    EachTreats(slots, |slots|, retire);
    var empty := Scripted(slots, Each(|slots|, retire));
    forall i: nat | i < |slots| ensures empty[i] == none[i] {
      assert empty[i] == Treated(retire(i));
    }
  }

  lemma RebuildIsScript(active: seq<Slot>, source: seq<Slot>, dest: seq<Slot>)
    ensures Scripted(active + source, ScriptOf(active, source, Rebuild(dest))) == Left(active, source, Rebuild(dest))
  {
    hide Scripted, Each, Nothing, Retiring;
    var slots := active + source;
    RetireAll(slots);
    EachExtends(Nothing(|slots|), dest, Extending(dest));
    ScriptedAppend(slots, Each(|slots|, Retiring()), Each(|dest|, Extending(dest)));
  }

  lemma SlotIn(active: seq<Slot>, source: seq<Slot>, i: nat, slot: Slot)
    requires i < |active| + |source|
    ensures (active + source)[i := slot] ==
            if i < |active| then active[i := slot] + source else active + source[i - |active| := slot]
  {
  }

  lemma TwoWrites(active: seq<Slot>, source: seq<Slot>, i: nat, t: Table, j: nat, u: Table)
    requires i < |active| && j < |source|
    ensures Scripted(active + source, [Write(i, t), Write(|active| + j, u)]) ==
            active[i := Some(t)] + source[j := Some(u)]
  {
    var slots, script := active + source, [Write(i, t), Write(|active| + j, u)];
    assert script[..1] == [Write(i, t)];
    OneAction(slots, Write(i, t));
  }

  lemma ChangeIsScript(active: seq<Slot>, source: seq<Slot>, i: nat, t: Table)
    requires i < |active|
    ensures Scripted(active + source, ScriptOf(active, source, Change(i, t))) == Left(active, source, Change(i, t))
  {
    OneAction(active + source, Write(i, t));
    SlotIn(active, source, i, Some(t));
  }

  lemma PromotionIsScript(active: seq<Slot>, source: seq<Slot>, i: nat, j: nat, key: Key)
    requires i < |active| && j < |source| && key in TableOf(source[j])
    ensures Scripted(active + source, ScriptOf(active, source, Promote(i, j, key))) ==
            Left(active, source, Promote(i, j, key))
  {
    var (target, rest) := Mutation.Promoted(TableOf(active[i]), TableOf(source[j]), key);
    TwoWrites(active, source, i, target, j, rest);
  }

  lemma RetirementIsScript(active: seq<Slot>, source: seq<Slot>, j: nat)
    requires j < |source|
    ensures Scripted(active + source, ScriptOf(active, source, RetireSource(j))) ==
            Left(active, source, RetireSource(j))
  {
    OneAction(active + source, Retire(|active| + j));
    SlotIn(active, source, |active| + j, None);
  }

  lemma SwitchIsScript(active: seq<Slot>, source: seq<Slot>, count: nat)
    ensures Scripted(active + source, ScriptOf(active, source, Switch(count))) == Left(active, source, Switch(count))
  {
    EachExtends(active + source, Nothing(count), Extending(Nothing(count)));
  }

  /** The key leaves its previous table, the union of the two tables is what it was, and no other slot changes. */
  ghost predicate Promotes(active: seq<Slot>, source: seq<Slot>, op: Operation, r: seq<Slot>)
    requires Applies(active, source, op) && op.Promote?
  {
    && |r| == |active| + |source|
    && (forall n :: 0 <= n < |r| && n != op.i && n != |active| + op.j ==> r[n] == (active + source)[n])
    && r[op.i].Some? && r[|active| + op.j] == Some(TableOf(source[op.j]) - {op.key})
    && TableOf(r[|active| + op.j]) + TableOf(r[op.i]) == TableOf(source[op.j]) + TableOf(active[op.i])
  }

  /** Every table is empty; active slots stay allocated, previous ones go. */
  ghost predicate Clears(active: seq<Slot>, source: seq<Slot>, r: seq<Slot>) {
    && |r| == |active| + |source| && (forall n :: 0 <= n < |r| ==> TableOf(r[n]) == map[])
    && (forall n :: 0 <= n < |active| ==> (r[n].Some? <==> active[n].Some?))
    && (forall n :: |active| <= n < |r| ==> r[n] == None)
  }

  /**
   * Writes, promotions, migration moves, slot retirement, generation switches, staged rebuilds and clear
   * are all such scripts, so a captured view keeps its entries through every one of them. Slot by slot: a change
   * touches its slot alone, a promotion moves its key between two tables and keeps their union, a retirement
   * empties one slot, a switch only adds slots, a rebuild leaves the staged ones, and clear empties every table.
   */
  lemma OperationsAreScripts(active: seq<Slot>, source: seq<Slot>, op: Operation)
    requires Applies(active, source, op)
    ensures Scripted(active + source, ScriptOf(active, source, op)) == Left(active, source, op)
    ensures op.Change? ==>
              Scripted(active + source, ScriptOf(active, source, op)) == (active + source)[op.i := Some(op.table)]
    ensures op.Promote? ==> Promotes(active, source, op, Scripted(active + source, ScriptOf(active, source, op)))
    ensures op.RetireSource? ==>
              Scripted(active + source, ScriptOf(active, source, op)) == (active + source)[|active| + op.j := None]
    ensures op.Switch? ==>
              Scripted(active + source, ScriptOf(active, source, op)) == active + source + seq(op.count, _ => None)
    ensures op.Rebuild? ==>
              Scripted(active + source, ScriptOf(active, source, op)) == seq(|active| + |source|, _ => None) + op.dest
    ensures op.Clear? ==> Clears(active, source, Scripted(active + source, ScriptOf(active, source, op)))
  {
    hide Scripted, ScriptOf;
    match op
    case Change(i, t) => ChangeIsScript(active, source, i, t);
    case Promote(i, j, key) => PromotionIsScript(active, source, i, j, key);
    case RetireSource(j) => RetirementIsScript(active, source, j);
    case Switch(count) => SwitchIsScript(active, source, count);
    case Rebuild(dest) => RebuildIsScript(active, source, dest);
    case Clear => ClearIsScript(active, source);
  }
}
