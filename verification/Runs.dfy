/** Whole runs of map operations and migration batches against a plain map. */
module Runs {
  import opened Domain
  import opened ShardedMap
  import opened Rebalance
  import Batches
  import Transactions
  import WholeMap

  datatype Action =
    | Put(key: Key, value: Value)
    | Delete(key: Key)
    | GetOrPut(key: Key, make: () -> Value)
    | Compute(key: Key, f: Value -> Option<Value>)
    | Swap(key: Key, expected: Value, value: Value)
    | DeleteIf(key: Key, expected: Value)
    | PutAll(entries: seq<(Key, Value)>)
    | DeleteAll(keys: seq<Key>)
    | Transact(ops: seq<Transactions.TxnOp>)
    | RetainIf(keep: WholeMap.Filter)
    | ClearAll
    | Start(count: nat)
    | Advance(maxShards: nat, maxEntries: nat, timeUp: nat -> bool)
    | Pause
    | Resume
    | Capture

  /** What an action means for a plain map. Migration steps and snapshots mean nothing. */
  function Meaning(m: Table, a: Action): Table {
    match a
    case Put(k, v) => m[k := v]
    case Delete(k) => m - {k}
    case GetOrPut(k, make) => if k in m then m else m[k := make()]
    case Compute(k, f) => if k in m then Bind(m, k, f(m[k])) else m
    case Swap(k, e, v) => if Lookup(m, k) == Some(e) then m[k := v] else m
    case DeleteIf(k, e) => if Lookup(m, k) == Some(e) then m - {k} else m
    case PutAll(es) => Batches.ApplyAll(m, Batches.Inserts(es))
    case DeleteAll(ks) => Batches.ApplyAll(m, Batches.Removes(ks))
    case Transact(ops) => Transactions.Fold(m, ops)
    case RetainIf(keep) => WholeMap.Kept(m, keep)
    case ClearAll => map[]
    case Start(_) => m
    case Advance(_, _, _) => m
    case Pause => m
    case Resume => m
    case Capture => m
  }

  function Replay(m: Table, script: seq<Action>): Table {
    if script == [] then m else Meaning(Replay(m, script[..|script| - 1]), script[|script| - 1])
  }

  /** Whether the script leaves the migration it finds paused, if it began paused as given. */
  function Paused(script: seq<Action>, paused: bool): bool {
    if script == [] then paused
    else
      var a := script[|script| - 1];
      if a.Pause? then true else if a.Resume? then false else Paused(script[..|script| - 1], paused)
  }

  predicate HasRoom(a: Action) {
    a.Advance? && a.maxShards > 0 && a.maxEntries > 0
  }

  /** Batches with room for work that are not issued between a pause and the next resume. */
  function Advances(script: seq<Action>, paused: bool): nat {
    if script == [] then 0
    else
      var front, a := script[..|script| - 1], script[|script| - 1];
      Advances(front, paused) + if HasRoom(a) && !Paused(front, paused) then 1 else 0
  }

  /** Just before position `i` the migration the script finds is paused: the last pause or resume is a pause. */
  ghost predicate PausedAt(script: seq<Action>, i: nat, paused: bool)
    requires i <= |script|
  {
    || (paused && forall j :: 0 <= j < i ==> !script[j].Pause? && !script[j].Resume?)
    || (exists j :: 0 <= j < i && script[j].Pause? && forall l :: j < l < i ==> !script[l].Resume?)
  }

  /** The batches with room for work among the first `n` actions that are not issued while paused. */
  ghost function Issued(script: seq<Action>, n: nat, paused: bool): set<nat>
    requires n <= |script|
  {
    set i: nat | i < n && HasRoom(script[i]) && !PausedAt(script, i, paused)
  }

  lemma IssuedMore(script: seq<Action>, n: nat, paused: bool)
    requires n < |script|
    ensures |Issued(script, n + 1, paused)| ==
            |Issued(script, n, paused)| + if HasRoom(script[n]) && !PausedAt(script, n, paused) then 1 else 0
  {
    hide PausedAt, HasRoom;
    if HasRoom(script[n]) && !PausedAt(script, n, paused) {
      assert Issued(script, n + 1, paused) == Issued(script, n, paused) + {n};
    } else {
      assert Issued(script, n + 1, paused) == Issued(script, n, paused);
    }
  }

  lemma PausedNext(script: seq<Action>, n: nat, paused: bool)
    requires n < |script|
    ensures PausedAt(script, n + 1, paused) <==>
            if script[n].Pause? then true else if script[n].Resume? then false else PausedAt(script, n, paused)
  {
    if PausedAt(script, n, paused) && !script[n].Pause? && !script[n].Resume? {
      if j :| 0 <= j < n && script[j].Pause? && forall l :: j < l < n ==> !script[l].Resume? {
        assert script[j].Pause? && forall l :: j < l < n + 1 ==> !script[l].Resume?;
      }
    }
  }

  lemma {:induction false} PausedMeans(script: seq<Action>, n: nat, paused: bool)
    requires n <= |script|
    ensures Paused(script[..n], paused) <==> PausedAt(script, n, paused)
  {
    hide PausedAt;
    if n > 0 {
      assert script[..n][..n - 1] == script[..n - 1];
      PausedMeans(script, n - 1, paused);
      PausedNext(script, n - 1, paused);
    } else {
      NotYetPaused(script, paused);
    }
  }

  lemma NotYetPaused(script: seq<Action>, paused: bool)
    ensures PausedAt(script, 0, paused) == paused
  {
  }

  /** The running count is the number of those batches. */
  lemma {:induction false} AdvancesCount(script: seq<Action>, n: nat, paused: bool)
    requires n <= |script|
    ensures Advances(script[..n], paused) == |Issued(script, n, paused)|
  {
    hide PausedAt, HasRoom, Paused, Issued;
    if n == 0 {
      NoneIssued(script, paused);
    } else {
      assert script[..n][..n - 1] == script[..n - 1];
      AdvancesCount(script, n - 1, paused);
      PausedMeans(script, n - 1, paused);
      IssuedMore(script, n - 1, paused);
    }
  }

  lemma NoneIssued(script: seq<Action>, paused: bool)
    ensures Issued(script, 0, paused) == {}
  {
  }

  /**
   * The migration of the given generation is over, or at least `n` units nearer its end than `left`, and paused
   * only if `paused`.
   */
  ghost predicate Nearer(m: StarMap, generation: nat, left: nat, n: nat, paused: bool)
    reads m, m.tracker
    requires m.Shaped()
  {
    && m.tracker.generation >= generation
    && (m.tracker.generation == generation && m.tracker.migrating ==>
          m.Remaining() + n <= left && (m.tracker.paused ==> paused))
  }

  predicate SingleKey(a: Action) {
    a.Put? || a.Delete? || a.GetOrPut? || a.Compute? || a.Swap? || a.DeleteIf?
  }

  method PerformOnKey(m: StarMap, a: Action)
    requires m.Valid() && SingleKey(a)
    modifies m`active, m`previous, m`waiting, m`totalLen, m`writeEpoch, m`logical
    ensures m.Valid() && m.logical == Meaning(old(m.logical), a) && m.waiting == old(m.waiting) - {a.key}
  {
    hide Routing.Stands, Enumerates;
    match a
    case Put(k, v) => var _ := m.Insert(k, v);
    case Delete(k) => var _ := m.Remove(k);
    case GetOrPut(k, make) => var _ := m.GetOrInsertWith(k, make);
    case Compute(k, f) => var _ := m.ComputeIfPresent(k, f);
    case Swap(k, e, v) => var _ := m.CompareAndSwap(k, e, v);
    case DeleteIf(k, e) => var _ := m.CompareAndRemove(k, e);
  }

  method PerformBulk(m: StarMap, a: Action)
    requires m.Valid() && Bulk(a)
    modifies m`active, m`previous, m`waiting, m`totalLen, m`writeEpoch, m`logical
    ensures m.Valid() && m.logical == Meaning(old(m.logical), a) && m.waiting <= old(m.waiting)
  {
    hide Routing.Stands, Enumerates;
    match a
    case PutAll(es) => var _ := Batches.BatchInsert(m, es);
    case DeleteAll(ks) => var _ := Batches.BatchRemove(m, ks);
    case Transact(ops) => Transactions.ExecuteTransaction(m, ops);
    case RetainIf(keep) => WholeMap.Retain(m, keep);
  }

  predicate Bulk(a: Action) {
    a.PutAll? || a.DeleteAll? || a.Transact? || a.RetainIf?
  }

  /** One more action keeps the migration at hand on its way. */
  ghost predicate KeepsOn(a: Action, paused: bool, paused': bool, n: nat, n': nat) {
    && paused' == (if a.Pause? then true else if a.Resume? then false else paused)
    && n' == n + if HasRoom(a) && !paused then 1 else 0
  }

  /** Clearing, migration control and snapshots. */
  method PerformControl(m: StarMap, a: Action, ghost generation: nat, ghost left: nat, ghost n: nat, ghost n': nat,
                        ghost paused: bool, ghost paused': bool)
    requires m.Valid() && !SingleKey(a) && !Bulk(a)
    requires Nearer(m, generation, left, n, paused) && KeepsOn(a, paused, paused', n, n')
    modifies m, m.tracker
    ensures m.Valid() && m.logical == Meaning(old(m.logical), a) && Nearer(m, generation, left, n', paused')
  {
    hide StarMap.Placed, StarMap.CacheCoherent;
    match a
    case ClearAll => WholeMap.Clear(m);
    case Start(count) => var _ := StartRebalanceOnline(m, count);
    case Advance(maxShards, maxEntries, timeUp) =>
      var _, _ := AdvanceRebalance(m, maxShards, maxEntries, None, _ => false, timeUp);
    case Pause => var _ := m.tracker.Pause(true);
    case Resume => var _ := m.tracker.Pause(false);
    case Capture =>
      var _, _ := WholeMap.CaptureSnapshot(m);
  }

  method Perform(m: StarMap, a: Action, ghost generation: nat, ghost left: nat, ghost n: nat, ghost n': nat,
                 ghost paused: bool, ghost paused': bool)
    requires m.Valid()
    requires Nearer(m, generation, left, n, paused) && KeepsOn(a, paused, paused', n, n')
    modifies m, m.tracker
    ensures m.Valid() && m.logical == Meaning(old(m.logical), a) && Nearer(m, generation, left, n', paused')
  {
    hide StarMap.Placed, StarMap.CacheCoherent, Meaning;
    if SingleKey(a) {
      PerformOnKey(m, a);
      SubsetSize(m.waiting, old(m.waiting));
    } else if Bulk(a) {
      PerformBulk(m, a);
      SubsetSize(m.waiting, old(m.waiting));
    } else {
      PerformControl(m, a, generation, left, n, n', paused, paused');
    }
  }

  lemma ReplayNothing(m: Table, paused: bool)
    ensures Replay(m, []) == m && Advances([], paused) == 0 && Paused([], paused) == paused
  {
  }

  lemma ReplayMore(m: Table, script: seq<Action>, i: nat, paused: bool)
    requires i < |script|
    ensures Replay(m, script[..i + 1]) == Meaning(Replay(m, script[..i]), script[i])
    ensures KeepsOn(script[i], Paused(script[..i], paused), Paused(script[..i + 1], paused),
                    Advances(script[..i], paused), Advances(script[..i + 1], paused))
  {
    assert script[..i + 1][..i] == script[..i];
  }

  /**
   * Any run leaves the map a plain map would be left with. The migration it finds ends within as many batches
   * as there were entries and slots left, counting the batches that are not issued while paused, whatever
   * happens in between: only the start of a later generation, after the end, can make the map migrate again.
   */
  method RunScript(m: StarMap, script: seq<Action>)
    requires m.Valid()
    modifies m, m.tracker
    ensures m.Valid() && m.logical == Replay(old(m.logical), script)
    ensures |Issued(script, |script|, old(m.tracker.paused))| >= old(m.Remaining()) ==>
              !m.tracker.migrating || m.tracker.generation > old(m.tracker.generation)
  {
    hide StarMap.Placed, StarMap.CacheCoherent, Replay, Advances, Paused, Meaning, KeepsOn, PausedAt, Issued;
    ghost var left, paused, generation := m.Remaining(), m.tracker.paused, m.tracker.generation;
    ReplayNothing(m.logical, paused);
    assert script[..0] == [];
    var i := 0;
    while i < |script|
      invariant 0 <= i <= |script| && m.Valid() && m.logical == Replay(old(m.logical), script[..i])
      invariant Nearer(m, generation, left, Advances(script[..i], paused), Paused(script[..i], paused))
    {
      ReplayMore(old(m.logical), script, i, paused);
      Perform(m, script[i], generation, left, Advances(script[..i], paused), Advances(script[..i + 1], paused),
              Paused(script[..i], paused), Paused(script[..i + 1], paused));
      i := i + 1;
    }
    assert script[..i] == script;
    AdvancesCount(script, i, paused);
    StillWorking(m);
  }

  /** A running migration has work left. */
  lemma StillWorking(m: StarMap)
    requires m.Valid()
    ensures m.tracker.migrating ==> m.Remaining() > 0
  {
  }
}
