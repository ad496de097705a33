/**
 * The lock protocol as a state machine: writers and transactions, readers, snapshot builders, cache
 * readers and exclusive topology operations, interleaved step by step.
 *
 * Two ghost maps record what an observer may see. `published` is the logical map in which a change
 * shows once its epoch is published; `committed` is the one in which a transaction shows as a whole.
 */
module ProtocolState {
  import opened Domain
  import opened Routing

  datatype Mode = Free | Shared | Exclusive

  datatype Lock = Gate | Route | Directory | ActiveShard(index: nat) | PreviousShard(index: nat)

  /** One operation under a shard's write lock: the new binding is a function of the old one. */
  datatype Edit = Edit(key: Key, f: Option<Value> -> Option<Value>)

  type Listing = seq<(Key, Value)>

  datatype Thread =
    | Idle
    // A writer; `single` operations release the previous shard as soon as their key is promoted. The edits from
    // `done` up to `upto` are made and not yet published: one of a transaction, several of a bucketed batch.
    | WRoute(edits: seq<Edit>, single: bool)
    | WResolve(edits: seq<Edit>, single: bool)
    | WLock(edits: seq<Edit>, single: bool, plan: seq<Lock>, got: nat)
    | WApply(edits: seq<Edit>, single: bool, held: set<Lock>, done: nat)
    | WPromoted(edits: seq<Edit>, single: bool, held: set<Lock>, done: nat)
    | WPending(edits: seq<Edit>, single: bool, held: set<Lock>, done: nat, upto: nat)
    | WRelease(held: set<Lock>)
    // A lookup; `i` is the locked active shard, or nothing when the directory is held instead.
    | RRoute(key: Key)
    | RDirectory(key: Key)
    | RLook(key: Key)
    | RWait(key: Key, at: nat)
    | RActive(key: Key, at: nat)
    | RFallback(key: Key, i: Option<nat>, j: nat)
    | RPrevious(key: Key, i: Option<nat>, j: nat)
    | RDone(key: Key, result: Option<Value>)
    // A snapshot builder that holds the first `a` active and the first `b` previous shards.
    | BGate
    | BRoute
    | BDirectory
    | BLock(a: nat, b: nat)
    | BCollect(epoch: nat, items: Listing, a: nat, b: nat)
    | BCaptured(epoch: nat, items: Listing)
    | BStored
    // A served cache hit.
    | CDone(epoch: nat, items: Listing)
    // An operation under exclusive routing: migration batch, rebalance, retain, clear.
    | XRoute
    | XHold
    | XPending(gone: set<Key>)

  /** What the threads share; the last two maps are ghost bookkeeping. */
  datatype Data = Data(
    hash: Hasher,
    active: seq<Slot>,
    previous: seq<Slot>,
    epoch: nat,
    cache: Option<(nat, Listing)>,
    published: Table,
    committed: Table)

  datatype State = State(d: Data, threads: seq<Thread>)

  function ActiveIndex(d: Data, k: Key): nat
    requires |d.active| > 0
  {
    IndexOf(d.hash, k, |d.active|)
  }

  /** The allocated previous shard that may hold a key, if there is one. */
  function PreviousIndex(d: Data, k: Key): Option<nat> {
    if |d.previous| > 0 && d.previous[IndexOf(d.hash, k, |d.previous|)].Some?
        then Some(IndexOf(d.hash, k, |d.previous|)) else None
  }

  /** The binding both generations give a key. */
  function Live(d: Data, k: Key): Option<Value> {
    if Find(d.hash, d.active, k).Some? then Find(d.hash, d.active, k) else Find(d.hash, d.previous, k)
  }

  /** Every key at its hash index of its own generation, and in one generation only. */
  ghost predicate Placed(d: Data) {
    && |d.active| > 0
    && Routed(d.hash, d.active)
    && Routed(d.hash, d.previous)
    && forall k :: Find(d.hash, d.previous, k).Some? ==> Find(d.hash, d.active, k) == None
  }

  // -------------------------------------------------------------------- locks

  /** In which mode a thread holds a lock. */
  function Holds(t: Thread, l: Lock): Mode {
    match t
    case WResolve(_, _) => if l == Route then Shared else Free
    case WLock(_, _, plan, got) =>
      if l == Route then Shared else if got <= |plan| && l in plan[..got] then Exclusive else Free
    case WApply(_, _, held, _) => if l == Route then Shared else if l in held then Exclusive else Free
    case WPromoted(_, _, held, _) => if l == Route then Shared else if l in held then Exclusive else Free
    case WPending(_, _, held, _, _) => if l == Route then Shared else if l in held then Exclusive else Free
    case WRelease(held) => if l == Route then Shared else if l in held then Exclusive else Free
    case RDirectory(_) => if l == Route then Shared else Free
    case RLook(_) => if l == Route || l == Directory then Shared else Free
    case RWait(_, _) => if l == Route then Shared else Free
    case RActive(_, i) => if l == Route || l == ActiveShard(i) then Shared else Free
    case RFallback(_, i, _) => if l == Route || l == ReaderPin(i) then Shared else Free
    case RPrevious(_, i, j) => if l == Route || l == ReaderPin(i) || l == PreviousShard(j) then Shared else Free
    case BRoute => if l == Gate then Exclusive else Free
    case BDirectory => if l == Gate then Exclusive else if l == Route then Shared else Free
    case BLock(a, b) =>
      if l == Gate then Exclusive
      else if l == Route || l == Directory || (l.ActiveShard? && l.index < a) ||
          (l.PreviousShard? && l.index < b) then Shared
      else Free
    case BCollect(_, _, _, _) => if l == Gate then Exclusive else Shared
    case BCaptured(_, _) => if l == Gate then Exclusive else Free
    case BStored => if l == Gate then Exclusive else Free
    case XHold => if l == Route then Exclusive else Free
    case XPending(_) => if l == Route then Exclusive else Free
    case _ => Free
  }

  /** What keeps a writer from the active slot of a reader that has fallen back. */
  function ReaderPin(i: Option<nat>): Lock {
    if i.Some? then ActiveShard(i.value) else Directory
  }

  predicate Compatible(a: Mode, b: Mode) {
    a == Free || b == Free || (a == Shared && b == Shared)
  }

  /** Thread `t` may take `l` in mode `m` now. */
  ghost predicate Available(s: State, t: nat, l: Lock, m: Mode) {
    forall u :: 0 <= u < |s.threads| && u != t ==> Compatible(Holds(s.threads[u], l), m)
  }

  ghost predicate Excluded(s: State) {
    forall t, u, l :: 0 <= t < u < |s.threads| ==> Compatible(Holds(s.threads[t], l), Holds(s.threads[u], l))
  }

  function Class(l: Lock): nat {
    match l
    case Gate => 0
    case Route => 1
    case Directory => 2
    case ActiveShard(_) => 3
    case PreviousShard(_) => 4
  }

  function Position(l: Lock): nat {
    if l.ActiveShard? || l.PreviousShard? then l.index else 0
  }

  /** The lock order: gate, routing, directory, active shards ascending, previous shards ascending. */
  predicate Below(l: Lock, m: Lock) {
    Class(l) < Class(m) || (Class(l) == Class(m) && Position(l) < Position(m))
  }

  ghost predicate Sorted(plan: seq<Lock>) {
    forall i, j :: 0 <= i < j < |plan| ==> Below(plan[i], plan[j])
  }

  // ------------------------------------------------------------------- writers

  ghost predicate ShardLock(d: Data, l: Lock) {
    || (l.ActiveShard? && l.index < |d.active| && d.active[l.index].Some?)
    || (l.PreviousShard? && l.index < |d.previous| && d.previous[l.index].Some?)
  }

  /** `held` covers the shards the edits from number `from` on need, and locks allocated shards only. */
  ghost predicate Covers(d: Data, edits: seq<Edit>, held: set<Lock>, from: nat)
    requires |d.active| > 0
  {
    && (forall l :: l in held ==> ShardLock(d, l))
    && (forall n :: 0 <= n < |edits| ==> ActiveShard(ActiveIndex(d, edits[n].key)) in held)
    && (forall n :: from <= n < |edits| && PreviousIndex(d, edits[n].key).Some? ==>
                      PreviousShard(PreviousIndex(d, edits[n].key).value) in held)
  }

  function LockSet(plan: seq<Lock>): set<Lock> {
    set l | l in plan
  }

  ghost predicate Resolved(d: Data, edits: seq<Edit>)
    requires |d.active| > 0
  {
    forall n :: 0 <= n < |edits| ==> d.active[ActiveIndex(d, edits[n].key)].Some?
  }

  /** The binding the first `n` edits leave at `k`. */
  function After(v: Option<Value>, edits: seq<Edit>, n: nat, k: Key): Option<Value>
    requires n <= |edits|
  {
    if n == 0 then v
    else
      var w := After(v, edits, n - 1, k);
      if edits[n - 1].key == k then edits[n - 1].f(w) else w
  }

  // ----------------------------------------------------------------- observers

  /** The keys a guard has changed and not yet published. */
  function PendingKeys(t: Thread): set<Key>
    requires t.WPending?
  {
    set n | t.done <= n < t.upto && n < |t.edits| :: t.edits[n].key
  }

  /** A change of `k` is made but not yet published. */
  predicate PendingIn(t: Thread, k: Key) {
    || (t.WPending? && k in PendingKeys(t))
    || (t.XPending? && k in t.gone)
  }

  /** Keys of active shard `i` may differ between `published` and `committed`. */
  predicate DirtyIn(t: Thread, i: nat) {
    || ((t.WApply? || t.WPromoted? || t.WPending?) && ActiveShard(i) in t.held)
    || t.XHold? || t.XPending?
  }

  ghost predicate Quiet(s: State, k: Key) {
    forall t :: 0 <= t < |s.threads| ==> !PendingIn(s.threads[t], k)
  }

  ghost predicate Settled(s: State, i: nat) {
    forall t :: 0 <= t < |s.threads| ==> !DirtyIn(s.threads[t], i)
  }

  /** A captured listing is as of some epoch, and current while that epoch is. */
  ghost predicate CaptureOk(d: Data, e: nat, items: Listing) {
    e <= d.epoch && (e == d.epoch ==> Enumerates(items, d.published) && Enumerates(items, d.committed))
  }

  /** `items` lists the first `a` active and the first `b` previous shards, each key once. */
  ghost predicate Listed(d: Data, items: Listing, a: nat, b: nat)
    requires |d.active| > 0
  {
    && (forall x, y :: 0 <= x < y < |items| ==> items[x].0 != items[y].0)
    && (forall p :: p in items <==> InFirst(d, p, a, b))
  }

  predicate InFirst(d: Data, p: (Key, Value), a: nat, b: nat)
    requires |d.active| > 0
  {
    || (ActiveIndex(d, p.0) < a && Find(d.hash, d.active, p.0) == Some(p.1))
    || (|d.previous| > 0 && IndexOf(d.hash, p.0, |d.previous|) < b && Find(d.hash, d.previous, p.0) == Some(p.1))
  }
}
