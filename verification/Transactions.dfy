/** Pessimistic transactions: their lock footprint and their effect. */
module Transactions {
  import opened Domain
  import opened Routing
  import Mutation
  import opened ShardedMap

  datatype TxnOp = Read(key: Key) | Write(key: Key, value: Value) | Remove(key: Key)

  function Effect(m: Table, op: TxnOp): Table {
    match op
    case Read(_) => m
    case Write(k, v) => m[k := v]
    case Remove(k) => m - {k}
  }

  /** The operations one after the other, repeated keys included. */
  function Fold(m: Table, ops: seq<TxnOp>): Table {
    if ops == [] then m else Effect(Fold(m, ops[..|ops| - 1]), ops[|ops| - 1])
  }

  /** Position `p` is the last one that changes its key. */
  predicate LastChange(ops: seq<TxnOp>, p: nat)
    requires p < |ops|
  {
    !ops[p].Read? && forall q :: p < q < |ops| && ops[q].key == ops[p].key ==> ops[q].Read?
  }

  /** No operation changes `k`. */
  predicate Unchanged(ops: seq<TxnOp>, k: Key) {
    forall p :: 0 <= p < |ops| && ops[p].key == k ==> ops[p].Read?
  }

  lemma {:induction false} FoldKeeps(m: Table, ops: seq<TxnOp>, k: Key)
    requires Unchanged(ops, k)
    ensures Lookup(Fold(m, ops), k) == Lookup(m, k)
    decreases |ops|
  {
    if ops != [] {
      FoldKeeps(m, ops[..|ops| - 1], k);
    }
  }

  /** The last change of a key decides its binding. */
  lemma {:induction false} FoldDecides(m: Table, ops: seq<TxnOp>, p: nat)
    requires p < |ops| && LastChange(ops, p)
    ensures Lookup(Fold(m, ops), ops[p].key) == if ops[p].Write? then Some(ops[p].value) else None
    decreases |ops|
  {
    var n := |ops| - 1;
    if p < n {
      FoldDecides(m, ops[..n], p);
    }
  }

  /** A transaction gives every key it changes what its last change says, and leaves the others alone. */
  lemma FoldMeaning(m: Table, ops: seq<TxnOp>)
    ensures forall p: nat :: p < |ops| && LastChange(ops, p) ==>
              Lookup(Fold(m, ops), ops[p].key) == if ops[p].Write? then Some(ops[p].value) else None
    ensures forall k :: Unchanged(ops, k) ==> Lookup(Fold(m, ops), k) == Lookup(m, k)
  {
    hide Fold, LastChange, Unchanged;
    forall p: nat | p < |ops| && LastChange(ops, p)
      ensures Lookup(Fold(m, ops), ops[p].key) == if ops[p].Write? then Some(ops[p].value) else None
    {
      FoldDecides(m, ops, p);
    }
    forall k | Unchanged(ops, k) ensures Lookup(Fold(m, ops), k) == Lookup(m, k) {
      FoldKeeps(m, ops, k);
    }
  }

  ghost predicate Ascending(s: seq<nat>) {
    forall i, j :: 0 <= i < j < |s| ==> s[i] < s[j]
  }

  /** Puts an index into an ascending sequence, once. */
  function InsertIndex(s: seq<nat>, x: nat): seq<nat> {
    if s == [] || x < s[0] then [x] + s
    else if x == s[0] then s
    else [s[0]] + InsertIndex(s[1..], x)
  }

  /** The sorted, duplicate-free slot indices of the operations' keys. */
  function Footprint(h: Hasher, count: nat, ops: seq<TxnOp>): seq<nat>
    requires count > 0
  {
    if ops == [] then []
    else InsertIndex(Footprint(h, count, ops[..|ops| - 1]), IndexOf(h, ops[|ops| - 1].key, count))
  }

  lemma {:induction false} InsertIndexAscends(s: seq<nat>, x: nat)
    requires Ascending(s)
    ensures Ascending(InsertIndex(s, x))
    ensures forall y :: y in InsertIndex(s, x) <==> y == x || y in s
  {
    if s != [] && s[0] < x {
      InsertIndexAscends(s[1..], x);
      var rest := InsertIndex(s[1..], x);
      forall y
        ensures y in [s[0]] + rest <==> y == x || y in s
      {
        assert s == [s[0]] + s[1..];
      }
      forall j | 0 <= j < |rest| ensures s[0] < rest[j] {
        assert rest[j] in rest;
      }
    }
  }

  /** A transaction locks its indices in ascending order, and locks every index an operation needs. */
  lemma {:induction false} FootprintCovers(h: Hasher, count: nat, ops: seq<TxnOp>)
    requires count > 0
    ensures Ascending(Footprint(h, count, ops))
    ensures forall i :: i in Footprint(h, count, ops) <==>
            exists n :: 0 <= n < |ops| && IndexOf(h, ops[n].key, count) == i
    decreases |ops|
  {
    if ops != [] {
      var front, op := ops[..|ops| - 1], ops[|ops| - 1];
      FootprintCovers(h, count, front);
      InsertIndexAscends(Footprint(h, count, front), IndexOf(h, op.key, count));
      forall i
        ensures i in Footprint(h, count, ops) <==> exists n :: 0 <= n < |ops| && IndexOf(h, ops[n].key, count) == i
      {
        if i in Footprint(h, count, front) {
          var n :| 0 <= n < |front| && IndexOf(h, front[n].key, count) == i;
          assert IndexOf(h, ops[n].key, count) == i;
        }
        if n :| 0 <= n < |ops| && IndexOf(h, ops[n].key, count) == i {
          assert n < |front| ==> IndexOf(h, front[n].key, count) == i;
        }
      }
    }
  }

  /** Allocates and locks the footprint, then applies the operations in order; each one publishes its own change. */
  method ExecuteTransaction(m: StarMap, ops: seq<TxnOp>)
    requires m.Valid()
    modifies m`active, m`previous, m`waiting, m`totalLen, m`writeEpoch, m`logical
    ensures m.Valid()
    ensures m.logical == Fold(old(m.logical), ops)
    ensures forall p: nat :: p < |ops| && LastChange(ops, p) ==>
              Lookup(m.logical, ops[p].key) == if ops[p].Write? then Some(ops[p].value) else None
    ensures forall k :: Unchanged(ops, k) ==> Lookup(m.logical, k) == Lookup(old(m.logical), k)
    ensures m.waiting <= old(m.waiting)
    ensures m.writeEpoch >= old(m.writeEpoch) && (m.logical != old(m.logical) ==> m.writeEpoch > old(m.writeEpoch))
  {
    hide StarMap.Placed, StarMap.CacheCoherent, LastChange, Unchanged, Footprint;
    var indices := Footprint(m.hash, m.shardCount, ops);
    FootprintCovers(m.hash, m.shardCount, ops);
    ResolveShards(m, indices);
    var n := 0;
    while n < |ops|
      invariant 0 <= n <= |ops| && m.Valid() && m.waiting <= old(m.waiting)
      invariant m.logical == Fold(old(m.logical), ops[..n])
      invariant forall i :: i in indices ==> i < m.shardCount && m.active[i].Some?
      invariant m.writeEpoch >= old(m.writeEpoch) && (m.logical != old(m.logical) ==> m.writeEpoch > old(m.writeEpoch))
    {
      assert ops[..n + 1][..n] == ops[..n];
      assert m.ShardIndex(ops[n].key) in indices;
      ApplyOp(m, ops[n], indices);
      n := n + 1;
    }
    assert ops[..n] == ops;
    FoldMeaning(old(m.logical), ops);
  }

  method ResolveShards(m: StarMap, indices: seq<nat>)
    requires m.Valid() && forall i :: i in indices ==> i < m.shardCount
    modifies m`active
    ensures m.Valid()
    ensures forall i :: i in indices ==> m.active[i].Some?
  {
    var n := 0;
    while n < |indices|
      invariant 0 <= n <= |indices| && m.Valid()
      invariant forall i :: i in indices[..n] ==> i < m.shardCount && m.active[i].Some?
    {
      assert indices[n] in indices && indices[..n + 1] == indices[..n] + [indices[n]];
      m.GetOrInitShard(indices[n]);
      n := n + 1;
    }
    assert indices[..n] == indices;
  }

  method ApplyOp(m: StarMap, op: TxnOp, ghost indices: seq<nat>)
    requires m.Valid() && m.ShardIndex(op.key) in indices
    requires forall i :: i in indices ==> i < m.shardCount && m.active[i].Some?
    modifies m`active, m`previous, m`waiting, m`totalLen, m`writeEpoch, m`logical
    ensures m.Valid() && m.logical == Effect(old(m.logical), op) && m.waiting == old(m.waiting) - {op.key}
    ensures forall i :: i in indices ==> i < m.shardCount && m.active[i].Some?
    ensures m.writeEpoch >= old(m.writeEpoch) && (m.logical != old(m.logical) ==> m.writeEpoch > old(m.writeEpoch))
  {
    m.PromotePrevious(op.key);
    match op
    case Read(_) =>
    case Write(k, v) =>
      var _ := m.Mutate(Mutation.Insert(k, v));
    case Remove(k) =>
      if m.mode == Cow && k !in m.active[m.ShardIndex(k)].value {
        return;
      }
      var _ := m.Mutate(Mutation.Remove(k));
  }
}
