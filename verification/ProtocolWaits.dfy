/** Deadlock freedom: who waits for whom, and why waiting never closes a circle. */
module ProtocolWaits {
  import opened Domain
  import opened Routing
  import opened ProtocolState
  import opened ProtocolSteps
  import opened ProtocolInvariant
  import opened ProtocolWrites
  import opened ProtocolCommits
  import Transactions

  // -------------------------------------------------------------- the locks of a transaction

  function ActiveLocks(indices: seq<nat>): seq<Lock> {
    seq(|indices|, n requires 0 <= n < |indices| => ActiveShard(indices[n]))
  }

  /** The locks of the allocated previous shards among the indices. */
  function PreviousLocks(previous: seq<Slot>, indices: seq<nat>): seq<Lock> {
    if indices == [] then []
    else
      var n := |indices| - 1;
      PreviousLocks(previous, indices[..n]) +
      if indices[n] < |previous| && previous[indices[n]].Some? then [PreviousShard(indices[n])] else []
  }

  /** The active footprint ascending, then the allocated previous footprint ascending. */
  function LockPlan(d: Data, ops: seq<Transactions.TxnOp>): seq<Lock>
    requires |d.active| > 0
  {
    ActiveLocks(Transactions.Footprint(d.hash, |d.active|, ops)) +
    if |d.previous| == 0 then [] else PreviousLocks(d.previous, Transactions.Footprint(d.hash, |d.previous|, ops))
  }

  lemma {:induction false} PreviousLocksSorted(previous: seq<Slot>, indices: seq<nat>)
    requires Transactions.Ascending(indices)
    ensures Sorted(PreviousLocks(previous, indices))
    ensures forall l :: l in PreviousLocks(previous, indices) <==>
                        l.PreviousShard? && l.index in indices && l.index < |previous| && previous[l.index].Some?
    decreases |indices|
  {
    if indices != [] {
      var n := |indices| - 1;
      var front, last := indices[..n], indices[n];
      PreviousLocksSorted(previous, front);
      var locks := PreviousLocks(previous, front);
      forall l
        ensures l in PreviousLocks(previous, indices) <==>
                l.PreviousShard? && l.index in indices && l.index < |previous| && previous[l.index].Some?
      {
        assert indices == front + [last];
      }
      forall i | 0 <= i < |locks| ensures Below(locks[i], PreviousShard(last)) {
        assert locks[i] in locks;
        assert locks[i].index in front;
      }
    }
  }

  /**
   * A transaction's lock plan follows the lock order and covers every operation, and it holds nothing else: the
   * active shards of its keys, and the previous ones that are allocated.
   */
  lemma {:induction false} LockPlanCovers(d: Data, ops: seq<Transactions.TxnOp>, edits: seq<Edit>)
    requires |d.active| > 0 && |edits| == |ops| && (forall n :: 0 <= n < |ops| ==> edits[n].key == ops[n].key)
    requires Resolved(d, edits)
    ensures Sorted(LockPlan(d, ops)) && Covers(d, edits, LockSet(LockPlan(d, ops)), 0)
    ensures forall l :: l in LockPlan(d, ops) <==>
              || (l.ActiveShard? && exists n :: 0 <= n < |ops| && IndexOf(d.hash, ops[n].key, |d.active|) == l.index)
              || (l.PreviousShard? && l.index < |d.previous| && d.previous[l.index].Some? &&
                  exists n :: 0 <= n < |ops| && IndexOf(d.hash, ops[n].key, |d.previous|) == l.index)
  {
    PlanExact(d, ops);
    var indices := Transactions.Footprint(d.hash, |d.active|, ops);
    Transactions.FootprintCovers(d.hash, |d.active|, ops);
    var first := ActiveLocks(indices);
    var rest := if |d.previous| == 0 then []
        else PreviousLocks(d.previous, Transactions.Footprint(d.hash, |d.previous|, ops));
    if |d.previous| > 0 {
      Transactions.FootprintCovers(d.hash, |d.previous|, ops);
      PreviousLocksSorted(d.previous, Transactions.Footprint(d.hash, |d.previous|, ops));
    }
    assert LockPlan(d, ops) == first + rest;
    PlanSorted(indices, rest);
    ActivePlan(d, ops, edits);
    forall l | l in LockSet(first + rest) ensures ShardLock(d, l) {
      assert l in first || l in rest;
    }
  }

  lemma {:induction false} PlanExact(d: Data, ops: seq<Transactions.TxnOp>)
    requires |d.active| > 0
    ensures forall l :: l in LockPlan(d, ops) <==>
              || (l.ActiveShard? && exists n :: 0 <= n < |ops| && IndexOf(d.hash, ops[n].key, |d.active|) == l.index)
              || (l.PreviousShard? && l.index < |d.previous| && d.previous[l.index].Some? &&
                  exists n :: 0 <= n < |ops| && IndexOf(d.hash, ops[n].key, |d.previous|) == l.index)
  {
    hide IndexOf, ActiveLocks, PreviousLocks;
    var indices := Transactions.Footprint(d.hash, |d.active|, ops);
    Transactions.FootprintCovers(d.hash, |d.active|, ops);
    ActiveLocksAre(indices);
    if |d.previous| > 0 {
      Transactions.FootprintCovers(d.hash, |d.previous|, ops);
      PreviousLocksSorted(d.previous, Transactions.Footprint(d.hash, |d.previous|, ops));
    }
  }

  lemma ActiveLocksAre(indices: seq<nat>)
    ensures forall l :: l in ActiveLocks(indices) <==> l.ActiveShard? && l.index in indices
  {
    forall l ensures l in ActiveLocks(indices) <==> l.ActiveShard? && l.index in indices {
      if l.ActiveShard? && l.index in indices {
        var n :| 0 <= n < |indices| && indices[n] == l.index;
        assert ActiveLocks(indices)[n] == l;
      }
    }
  }

  lemma {:induction false} PlanSorted(indices: seq<nat>, rest: seq<Lock>)
    requires Transactions.Ascending(indices) && Sorted(rest) && forall l :: l in rest ==> l.PreviousShard?
    ensures Sorted(ActiveLocks(indices) + rest)
  {
    var first := ActiveLocks(indices);
    var plan := first + rest;
    forall i, j | 0 <= i < j < |plan| ensures Below(plan[i], plan[j]) {
      if i < |first| <= j {
        assert plan[j] in rest;
      }
    }
  }

  /** The active footprint locks every operation's shard, all of them allocated. */
  lemma {:induction false} ActivePlan(d: Data, ops: seq<Transactions.TxnOp>, edits: seq<Edit>)
    requires |d.active| > 0 && |edits| == |ops| && (forall n :: 0 <= n < |ops| ==> edits[n].key == ops[n].key)
    requires Resolved(d, edits)
    ensures var first := ActiveLocks(Transactions.Footprint(d.hash, |d.active|, ops));
            && (forall l :: l in first ==> ShardLock(d, l))
            && (forall n :: 0 <= n < |edits| ==> ActiveShard(ActiveIndex(d, edits[n].key)) in first)
  {
    var indices := Transactions.Footprint(d.hash, |d.active|, ops);
    var first := ActiveLocks(indices);
    Transactions.FootprintCovers(d.hash, |d.active|, ops);
    forall l | l in first ensures ShardLock(d, l) {
      assert l.index in indices;
      var n :| 0 <= n < |ops| && IndexOf(d.hash, ops[n].key, |d.active|) == l.index;
      assert ActiveIndex(d, edits[n].key) == l.index;
    }
    forall n | 0 <= n < |edits| ensures ActiveShard(ActiveIndex(d, edits[n].key)) in first {
      assert IndexOf(d.hash, ops[n].key, |d.active|) in indices;
      var i :| 0 <= i < |indices| && indices[i] == IndexOf(d.hash, ops[n].key, |d.active|);
      assert first[i] == ActiveShard(indices[i]);
    }
  }

  // ---------------------------------------------------------------------------------- waits

  datatype Wait = Wait(lock: Lock, mode: Mode)

  /**
   * Where thread `t` stands, it may be waiting for this lock. Lazy initialization first probes the directory,
   * then locks it.
   */
  ghost predicate MayWait(s: State, t: nat, w: Wait)
    requires t < |s.threads|
  {
    match s.threads[t]
    case WRoute(_, _) => w == Wait(Route, Shared)
    case WResolve(_, _) => w.lock == Directory && w.mode != Free
    case WLock(_, _, plan, got) => got < |plan| && w == Wait(plan[got], Exclusive)
    case RRoute(_) => w == Wait(Route, Shared)
    case RDirectory(_) => w == Wait(Directory, Shared)
    case RWait(_, i) => w == Wait(ActiveShard(i), Shared)
    case RFallback(_, _, j) => w == Wait(PreviousShard(j), Shared)
    case BGate => w == Wait(Gate, Exclusive)
    case BRoute => w == Wait(Route, Shared)
    case BDirectory => w == Wait(Directory, Shared)
    case BLock(a, b) =>
      if a < |s.d.active| then w == Wait(ActiveShard(a), Shared)
      else b < |s.d.previous| && w == Wait(PreviousShard(b), Shared)
    case XRoute => w == Wait(Route, Exclusive)
    case _ => false
  }

  /** What each thread is waiting for, if anything. */
  ghost predicate Waiting(s: State, waits: seq<Option<Wait>>) {
    |waits| == |s.threads| && forall t :: 0 <= t < |waits| && waits[t].Some? ==> MayWait(s, t, waits[t].value)
  }

  /** `u` keeps `t` waiting: it holds the lock, or it is a writer queued for it that goes before readers. */
  ghost predicate BlockedBy(s: State, waits: seq<Option<Wait>>, t: nat, u: nat)
    requires |waits| == |s.threads|
  {
    t < |waits| && u < |waits| && t != u && waits[t].Some? &&
    var w := waits[t].value;
    || !Compatible(Holds(s.threads[u], w.lock), w.mode)
    || (w.mode == Shared && waits[u] == Some(Wait(w.lock, Exclusive)))
  }

  /** Waits in lock order, shared before exclusive. */
  predicate Before(w: Wait, x: Wait) {
    Below(w.lock, x.lock) || (w.lock == x.lock && w.mode == Shared && x.mode == Exclusive)
  }

  /** A thread waits only for locks above all those it holds. */
  lemma {:induction false} HoldsBelow(s: State, u: nat, l: Lock, w: Wait)
    requires Inv(s) && u < |s.threads| && MayWait(s, u, w) && Holds(s.threads[u], l) != Free
    ensures Below(l, w.lock)
  {
    hide Placed, PublishedOk, CommittedOk, CacheOk, Excluded, InForce;
    var pc := s.threads[u];
    ThreadHasOk(s, u);
    if pc.WLock? {
      assert pc.plan[pc.got] in LockSet(pc.plan);
      assert ShardLock(s.d, pc.plan[pc.got]);
      if l != Route {
        var i :| 0 <= i < pc.got && pc.plan[i] == l;
      }
    }
  }

  lemma {:induction false} WaitEdge(s: State, waits: seq<Option<Wait>>, t: nat, u: nat)
    requires Inv(s) && Waiting(s, waits) && BlockedBy(s, waits, t, u) && waits[u].Some?
    ensures Before(waits[t].value, waits[u].value)
  {
    hide Inv;
    var w := waits[t].value;
    if !Compatible(Holds(s.threads[u], w.lock), w.mode) {
      HoldsBelow(s, u, w.lock, waits[u].value);
    }
  }

  lemma {:induction false} WaitChain(s: State, waits: seq<Option<Wait>>, chain: seq<nat>)
    requires Inv(s) && Waiting(s, waits) && |chain| >= 2
    requires forall i {:trigger chain[i]} :: 0 <= i < |chain| - 1 ==> BlockedBy(s, waits, chain[i], chain[i + 1])
    requires chain[|chain| - 1] < |waits| && waits[chain[|chain| - 1]].Some?
    ensures chain[0] < |waits| && waits[chain[0]].Some?
    ensures Before(waits[chain[0]].value, waits[chain[|chain| - 1]].value)
    decreases |chain|
  {
    hide Inv;
    var n := |chain| - 1;
    assert BlockedBy(s, waits, chain[n - 1], chain[n - 1 + 1]);
    WaitEdge(s, waits, chain[n - 1], chain[n]);
    if n > 1 {
      WaitChain(s, waits, chain[..n]);
    }
  }

  /** Each thread of the circle waits for the next one, and the last for the first. */
  ghost predicate Circular(s: State, waits: seq<Option<Wait>>, circle: seq<nat>)
    requires |waits| == |s.threads|
  {
    && |circle| > 0
    && (forall j {:trigger circle[j]} :: 0 <= j < |circle| - 1 ==> BlockedBy(s, waits, circle[j], circle[j + 1]))
    && BlockedBy(s, waits, circle[|circle| - 1], circle[0])
  }

  /** Deadlock freedom: no reachable state has a circular wait, queued writers included. */
  lemma NoCircularWait(states: seq<State>, i: nat, waits: seq<Option<Wait>>, circle: seq<nat>)
    requires Run(states) && i < |states| && Waiting(states[i], waits)
    ensures !Circular(states[i], waits, circle)
  {
    hide Inv, Run, BlockedBy;
    RunInv(states, i);
    if Circular(states[i], waits, circle) {
      var chain := circle + [circle[0]];
      forall j | 0 <= j < |chain| - 1 ensures BlockedBy(states[i], waits, chain[j], chain[j + 1]) {
        assert chain[j] == circle[j];
      }
      ChainOpen(states[i], waits, chain);
    }
  }

  /** A chain of waits never comes back to where it started. */
  lemma ChainOpen(s: State, waits: seq<Option<Wait>>, chain: seq<nat>)
    requires Inv(s) && Waiting(s, waits) && |chain| >= 2
    requires forall i {:trigger chain[i]} :: 0 <= i < |chain| - 1 ==> BlockedBy(s, waits, chain[i], chain[i + 1])
    ensures chain[0] != chain[|chain| - 1]
  {
    hide Inv;
    assert BlockedBy(s, waits, chain[0], chain[0 + 1]);
    if chain[0] == chain[|chain| - 1] {
      WaitChain(s, waits, chain);
    }
  }
}
