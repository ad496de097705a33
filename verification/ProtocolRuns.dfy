/** What observers see over whole runs of the lock protocol. */
module ProtocolRuns {
  import opened Domain
  import opened ProtocolState
  import opened ProtocolSteps
  import opened ProtocolInvariant
  import opened ProtocolMoves
  import opened ProtocolWrites
  import opened ProtocolCommits
  import Transactions

  lemma Stepper(states: seq<State>, i: nat) returns (t: nat)
    requires Run(states) && i + 1 < |states|
    ensures |states[i].d.active| > 0 && t < |states[i].threads| && StepOf(states[i], states[i + 1], t)
    ensures Inv(states[i]) && Alters(states[i], states[i + 1], t)
  {
    hide Inv, Moves;
    RunInv(states, i);
    assert Next(states[i], states[i + 1]);
    t :| 0 <= t < |states[i].threads| && StepOf(states[i], states[i + 1], t);
  }

  // ---------------------------------------------------------------------------- snapshots

  /**
   * No transaction or removal is half applied, and `items` lists the whole logical map, each key once, at epoch
   * `e`.
   */
  ghost predicate Instant(s: State, e: nat, items: Listing) {
    && s.d.epoch == e
    && Enumerates(items, s.d.committed)
    && s.d.published == s.d.committed
    && (forall k :: Lookup(s.d.committed, k) == Live(s.d, k))
    && (forall i :: 0 <= i < |s.d.active| ==> Settled(s, i))
  }

  /** Every lock is held, so nothing is half applied. */
  lemma CollectedInstant(s: State, t: nat)
    requires Inv(s) && t < |s.threads| && s.threads[t].BCollect?
    requires s.threads[t].a == |s.d.active| && s.threads[t].b == |s.d.previous|
    ensures Instant(s, s.threads[t].epoch, s.threads[t].items)
  {
    hide ThreadsOk, PublishedOk, CommittedOk, Placed, Enumerates;
    CollectedAll(s, t);
    forall i | 0 <= i < |s.d.active| ensures Settled(s, i) {
      forall u | 0 <= u < |s.threads| ensures !DirtyIn(s.threads[u], i) {
        if u != t {
          ShardMine(s, t, i, u);
        }
      }
    }
  }

  /** Only finishing a complete collection leads to a captured snapshot. */
  lemma CaptureStep(s: State, s': State, t: nat)
    requires |s.d.active| > 0 && t < |s.threads| && StepOf(s, s', t) && s'.threads[t].BCaptured?
    ensures Moves(s, t, s.threads[t], s'.threads[t]) && s.threads[t].BCollect?
    ensures s.threads[t].a >= |s.d.active| && s.threads[t].b >= |s.d.previous|
    ensures s'.threads[t] == BCaptured(s.threads[t].epoch, s.threads[t].items)
  {
  }

  /**
   * Snapshot atomicity: whatever transactions, writers, promotions and migrations interleave, a captured
   * snapshot is the whole logical map at one instant inside the capture, with nothing half applied.
   */
  lemma {:induction false} SnapshotAtomic(states: seq<State>, i: nat, t: nat) returns (m: nat)
    requires Run(states) && i < |states| && t < |states[i].threads| && states[i].threads[t].BCaptured?
    ensures m < i && Instant(states[m], states[i].threads[t].epoch, states[i].threads[t].items)
    ensures t < |states[m].threads| && states[m].threads[t].BCollect?
    ensures forall x :: m < x <= i ==> t < |states[x].threads| && states[x].threads[t] == states[i].threads[t]
  {
    hide StepOf, Inv, Instant;
    if i == 0 {
      assert false;
    }
    var u := Stepper(states, i - 1);
    if u == t {
      CaptureStep(states[i - 1], states[i], t);
      InvBounds(states[i - 1], t);
      CollectedInstant(states[i - 1], t);
      m := i - 1;
    } else {
      m := SnapshotAtomic(states, i - 1, t);
    }
  }

  lemma InvBounds(s: State, t: nat)
    requires Inv(s) && t < |s.threads| && s.threads[t].BCollect?
    ensures s.threads[t].a <= |s.d.active| && s.threads[t].b <= |s.d.previous|
  {
    ThreadHasOk(s, t);
  }

  // -------------------------------------------------------------------------------- cache

  /**
   * Epoch-cache agreement: while the cached epoch is the current one, the cached entries are the
   * committed map, and give every key without an unpublished change its live binding.
   */
  lemma CacheAgrees(states: seq<State>, i: nat, k: Key)
    requires Run(states) && i < |states| && states[i].d.cache.Some? && states[i].d.cache.value.0 == states[i].d.epoch
    ensures Enumerates(states[i].d.cache.value.1, states[i].d.committed)
    ensures Enumerates(states[i].d.cache.value.1, states[i].d.published)
    ensures Quiet(states[i], k) ==> Lookup(states[i].d.committed, k) == Live(states[i].d, k)
  {
    RunInv(states, i);
    EnumeratesSame(states[i].d.cache.value.1, states[i].d.committed, states[i].d.published);
  }

  /** A cache hit needs no lock and still lists the committed map of the instant it was served. */
  lemma {:induction false} CacheHitLinearizes(states: seq<State>, i: nat, t: nat) returns (m: nat)
    requires Run(states) && i < |states| && t < |states[i].threads| && states[i].threads[t].CDone?
    ensures m < i && states[m].d.epoch == states[i].threads[t].epoch
    ensures Enumerates(states[i].threads[t].items, states[m].d.committed)
    ensures t < |states[m].threads| && (states[m].threads[t].Idle? || states[m].threads[t].BRoute?)
    ensures forall x :: m < x <= i ==> t < |states[x].threads| && states[x].threads[t] == states[i].threads[t]
  {
    hide StepOf, Inv, Enumerates;
    if i == 0 {
      assert false;
    }
    var u := Stepper(states, i - 1);
    if u == t {
      HitStep(states[i - 1], states[i], t);
      m := i - 1;
    } else {
      m := CacheHitLinearizes(states, i - 1, t);
    }
  }

  lemma HitStep(s: State, s': State, t: nat)
    requires Inv(s) && t < |s.threads| && StepOf(s, s', t) && s'.threads[t].CDone?
    ensures s.threads[t].Idle? || s.threads[t].BRoute?
    ensures s.d.epoch == s'.threads[t].epoch && Enumerates(s'.threads[t].items, s.d.committed)
  {
  }

  // -------------------------------------------------------------------------------- reads

  /** A reader about to answer holds what keeps every writer of the key away. */
  lemma ReaderSettled(s: State, t: nat, k: Key)
    requires Inv(s) && t < |s.threads|
    requires var pc := s.threads[t];
             || (pc.RActive? && pc.key == k)
             || (pc.RPrevious? && pc.key == k)
             || (pc.RLook? && pc.key == k && s.d.active[ActiveIndex(s.d, k)].None?)
    ensures Settled(s, ActiveIndex(s.d, k))
  {
    hide Placed, PublishedOk, CommittedOk, CacheOk, InForce;
    var i := ActiveIndex(s.d, k);
    ThreadHasOk(s, t);
    forall u | 0 <= u < |s.threads| ensures !DirtyIn(s.threads[u], i) {
      if u != t {
        RoutePinned(s, t, u);
        if Holds(s.threads[t], ActiveShard(i)) != Free {
          ShardMine(s, t, i, u);
        } else if s.threads[u].WApply? || s.threads[u].WPromoted? || s.threads[u].WPending? {
          ThreadHasOk(s, u);
          HeldAllocated(s.d, s.threads[u], i);
        }
      }
    }
  }

  lemma ReadStep(s: State, s': State, t: nat)
    requires Inv(s) && t < |s.threads| && StepOf(s, s', t) && s'.threads[t].RDone?
    ensures var pc := s.threads[t]; (pc.RLook? || pc.RActive? || pc.RPrevious?) && pc.key == s'.threads[t].key
    ensures s'.threads[t].result == Lookup(s.d.committed, s'.threads[t].key) == Live(s.d, s'.threads[t].key)
  {
    hide PublishedOk, CommittedOk, CacheOk, Excluded, ThreadsOk;
    ReadMove(s, s', t);
    var pc := s.threads[t];
    ThreadHasOk(s, t);
    ReaderSettled(s, t, pc.key);
    ViewsAgree(s, pc.key);
  }

  lemma ReadMove(s: State, s': State, t: nat)
    requires |s.d.active| > 0 && t < |s.threads| && StepOf(s, s', t) && s'.threads[t].RDone?
    ensures Moves(s, t, s.threads[t], s'.threads[t])
    ensures var pc := s.threads[t]; (pc.RLook? || pc.RActive? || pc.RPrevious?) && pc.key == s'.threads[t].key
    ensures s.threads[t].RLook? ==> s.d.active[ActiveIndex(s.d, s.threads[t].key)].None?
  {
  }

  /**
   * No lost reads: a lookup answers with the committed and live binding of its key at one instant
   * inside the lookup, so a key that stays present is never reported absent.
   */
  lemma {:induction false} ReadLinearizes(states: seq<State>, i: nat, t: nat) returns (m: nat)
    requires Run(states) && i < |states| && t < |states[i].threads| && states[i].threads[t].RDone?
    ensures m < i && t < |states[m].threads|
    ensures var k := states[i].threads[t].key;
            && states[i].threads[t].result == Lookup(states[m].d.committed, k) == Live(states[m].d, k)
            && (states[m].threads[t] == RLook(k) || (states[m].threads[t].RActive? && states[m].threads[t].key == k)
                || (states[m].threads[t].RPrevious? && states[m].threads[t].key == k))
    ensures forall x :: m < x <= i ==> t < |states[x].threads| && states[x].threads[t] == states[i].threads[t]
  {
    hide StepOf, Inv;
    if i == 0 {
      assert false;
    }
    var u := Stepper(states, i - 1);
    if u == t {
      ReadStep(states[i - 1], states[i], t);
      m := i - 1;
    } else {
      m := ReadLinearizes(states, i - 1, t);
    }
  }

  // ----------------------------------------------------------------------- serializability

  /** What one step adds to the serial history: the applied edits of a transaction, or a whole removal. */
  datatype Event = Applied(edits: seq<Edit>) | Dropped(gone: set<Key>)

  function Outcome(v: Option<Value>, e: Event, k: Key): Option<Value> {
    match e
    case Applied(edits) => After(v, edits, |edits|, k)
    case Dropped(gone) => if k in gone then None else v
  }

  function Serially(v: Option<Value>, history: seq<Event>, k: Key): Option<Value> {
    if history == [] then v else Outcome(Serially(v, history[..|history| - 1], k), history[|history| - 1], k)
  }

  /**
   * The edits of the transaction committed, all of them unless user code stopped it, or the keys dropped, at one
   * step.
   */
  ghost function Events(s: State, s': State): seq<Event> {
    if |s.d.active| == 0 then []
    else if exists t :: 0 <= t < |s.threads| && Commit(s, s', t) then
      var t :| 0 <= t < |s.threads| && Commit(s, s', t);
      [Applied(s.threads[t].edits[..s.threads[t].done])]
    else if exists t :: 0 <= t < |s.threads| && FinishExclusive(s, s', t) then
      [Dropped(s.d.committed.Keys - s.d.published.Keys)]
    else []
  }

  ghost function History(states: seq<State>): seq<Event> {
    if |states| < 2 then [] else History(states[..|states| - 1]) + Events(states[|states| - 2], states[|states| - 1])
  }

  /** A step leaves the committed map alone unless it is the end of an operation. */
  lemma StepCommits(s: State, s': State, t: nat, k: Key)
    requires Inv(s) && t < |s.threads| && StepOf(s, s', t)
    ensures Lookup(s'.d.committed, k) == Serially(Lookup(s.d.committed, k), Events(s, s'), k)
  {
    hide Inv, Local, Allocate, Promote, Mutate, Publish, Store, Rearrange, Remove, PublishRemoval, FinishExclusive;
    InvActive(s);
    var es := Events(s, s');
    if exists u :: 0 <= u < |s.threads| && Commit(s, s', u) {
      var u :| 0 <= u < |s.threads| && Commit(s, s', u) && es == [Applied(s.threads[u].edits[..s.threads[u].done])];
      CommitWhole(s, s', u);
      var pc := s.threads[u];
      AfterFront(Lookup(s.d.committed, k), pc.edits, pc.edits[..pc.done], pc.done, k);
      assert es[..0] == [];
    } else if u :| 0 <= u < |s.threads| && FinishExclusive(s, s', u) {
      FinishExclusiveKeeps(s, s', u);
      assert es[..0] == [];
    } else {
      CommitsNothing(s, s', t);
    }
  }

  lemma CommitsNothing(s: State, s': State, t: nat)
    requires |s.d.active| > 0 && t < |s.threads| && StepOf(s, s', t) && !Commit(s, s', t) && !FinishExclusive(s, s', t)
    ensures s'.d.committed == s.d.committed
  {
    hide Moves;
  }

  /**
   * Serializability: in every run the committed map is what the committed transactions and removals
   * give when executed one after the other, each as a whole, in commit order. A transaction that user
   * code stopped counts with the operations it had applied.
   */
  lemma {:induction false} Serializable(states: seq<State>, k: Key)
    requires Run(states)
    ensures Lookup(states[|states| - 1].d.committed, k) ==
            Serially(Lookup(states[0].d.committed, k), History(states), k)
    decreases |states|
  {
    hide StepOf, Inv, Events;
    var n := |states| - 1;
    if n > 0 {
      var front := states[..n];
      assert Run(front) by {
        forall i | 0 <= i < |front| - 1 ensures Next(front[i], front[i + 1]) {
          assert Next(states[i], states[i + 1]);
        }
      }
      Serializable(front, k);
      var t := Stepper(states, n - 1);
      StepCommits(states[n - 1], states[n], t, k);
      SeriallyAppend(Lookup(states[0].d.committed, k), History(front), Events(states[n - 1], states[n]), k);
    }
  }

  lemma {:induction false} SeriallyAppend(v: Option<Value>, a: seq<Event>, b: seq<Event>, k: Key)
    ensures Serially(v, a + b, k) == Serially(Serially(v, a, k), b, k)
    decreases |b|
  {
    if b == [] {
      assert a + b == a;
    } else {
      var n := |b| - 1;
      assert (a + b)[..|a + b| - 1] == a + b[..n];
      SeriallyAppend(v, a, b[..n], k);
    }
  }

  /** What the operations of a user transaction do to the binding of their key. */
  function EditOf(op: Transactions.TxnOp): Edit {
    match op
    case Read(k) => Edit(k, v => v)
    case Write(k, w) => Edit(k, v => Some(w))
    case Remove(k) => Edit(k, v => None)
  }

  /** A committed transaction amounts to folding its operation list in order. */
  lemma {:induction false} TransactionFolds(m: Table, ops: seq<Transactions.TxnOp>, k: Key)
    ensures var edits := seq(|ops|, n requires 0 <= n < |ops| => EditOf(ops[n]));
            After(Lookup(m, k), edits, |edits|, k) == Lookup(Transactions.Fold(m, ops), k)
    decreases |ops|
  {
    var edits := seq(|ops|, n requires 0 <= n < |ops| => EditOf(ops[n]));
    if ops != [] {
      var front := ops[..|ops| - 1];
      var some := seq(|front|, n requires 0 <= n < |front| => EditOf(front[n]));
      TransactionFolds(m, front, k);
      AfterFront(Lookup(m, k), edits, some, |front|, k);
      var op := ops[|ops| - 1];
      assert edits[|ops| - 1] == EditOf(op);
    }
  }

  lemma {:induction false} AfterFront(v: Option<Value>, a: seq<Edit>, b: seq<Edit>, n: nat, k: Key)
    requires n <= |a| && n <= |b| && forall i :: 0 <= i < n ==> a[i] == b[i]
    ensures After(v, a, n, k) == After(v, b, n, k)
  {
    if n > 0 {
      AfterFront(v, a, b, n - 1, k);
    }
  }
}
