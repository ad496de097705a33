/** The steps of the lock protocol. */
module ProtocolSteps {
  import opened Domain
  import opened Routing
  import opened ProtocolState
  import Mutation

  /** Steps that change nothing but the moving thread's position and locks. */
  ghost predicate Moves(s: State, t: nat, pc: Thread, next: Thread)
    requires |s.d.active| > 0
  {
    match pc
    case Idle =>
      || (next.WRoute? && (next.single ==> |next.edits| == 1))
      || next.RRoute? || next.BGate? || next.XRoute?
      || (next.CDone? && s.d.cache == Some((next.epoch, next.items)) && next.epoch == s.d.epoch)
    case WRoute(edits, single) => next == WResolve(edits, single) && Available(s, t, Route, Shared)
    case WResolve(edits, single) =>
      next.WLock? && next.edits == edits && next.single == single && next.got == 0
      && Resolved(s.d, edits) && Sorted(next.plan) && Covers(s.d, edits, LockSet(next.plan), 0)
    case WLock(edits, single, plan, got) =>
      if got < |plan| then next == WLock(edits, single, plan, got + 1) && Available(s, t, plan[got], Exclusive)
      else next == WApply(edits, single, LockSet(plan), 0)
    case WRelease(held) =>
      if held == {} then next == Idle else next.WRelease? && exists l :: l in held && next.held == held - {l}
    case RRoute(k) => next == RDirectory(k) && Available(s, t, Route, Shared)
    case RDirectory(k) => next == RLook(k) && Available(s, t, Directory, Shared)
    case RLook(k) =>
      if s.d.active[ActiveIndex(s.d, k)].Some? then next == RWait(k, ActiveIndex(s.d, k))
      else if PreviousIndex(s.d, k).Some? then next == RFallback(k, None, PreviousIndex(s.d, k).value)
      else next == RDone(k, None)
    case RWait(k, i) => next == RActive(k, i) && Available(s, t, ActiveShard(i), Shared)
    case RActive(k, i) =>
      i < |s.d.active| &&
      if k in TableOf(s.d.active[i]) then next == RDone(k, Some(TableOf(s.d.active[i])[k]))
      else if PreviousIndex(s.d, k).Some? then next == RFallback(k, Some(i), PreviousIndex(s.d, k).value)
      else next == RDone(k, None)
    case RFallback(k, i, j) => next == RPrevious(k, i, j) && Available(s, t, PreviousShard(j), Shared)
    case RPrevious(k, _, j) => j < |s.d.previous| && next == RDone(k, Lookup(TableOf(s.d.previous[j]), k))
    case RDone(_, _) => next == Idle
    case BGate => next == BRoute && Available(s, t, Gate, Exclusive)
    case BRoute =>
      || (next == BDirectory && Available(s, t, Route, Shared))
      || (next.CDone? && s.d.cache == Some((next.epoch, next.items)) && next.epoch == s.d.epoch)
    case BDirectory => next == BLock(0, 0) && Available(s, t, Directory, Shared)
    case BLock(a, b) =>
      if a < |s.d.active| then next == BLock(a + 1, b) &&
          (s.d.active[a].Some? ==> Available(s, t, ActiveShard(a), Shared))
      else if b < |s.d.previous| then next == BLock(a, b + 1) &&
          (s.d.previous[b].Some? ==> Available(s, t, PreviousShard(b), Shared))
      else next == BCollect(s.d.epoch, [], 0, 0)
    case BCollect(e, items, a, b) =>
      if a < |s.d.active| then
        next.BCollect? && next.epoch == e && next.a == a + 1 && next.b == b
        && items <= next.items && Enumerates(next.items[|items|..], TableOf(s.d.active[a]))
      else if b < |s.d.previous| then
        next.BCollect? && next.epoch == e && next.a == a && next.b == b + 1
        && items <= next.items && Enumerates(next.items[|items|..], TableOf(s.d.previous[b]))
      else next == BCaptured(e, items)
    // Clone mode keeps no cache.
    case BCaptured(_, _) => next == BStored
    case BStored => next == Idle
    case CDone(_, _) => next == Idle
    case XRoute => next == XHold && Available(s, t, Route, Exclusive)
    case _ => false
  }

  /** The state after thread `t` went to `pc` and left the data at `d`. */
  function Go(s: State, t: nat, d: Data, pc: Thread): State
    requires t < |s.threads|
  {
    State(d, s.threads[t := pc])
  }

  // ------------------------------------------------------- effects on the data

  function AllocateAt(d: Data, i: nat): Data
    requires i < |d.active|
  {
    d.(active := d.active[i := Some(map[])])
  }

  /** `k` moves to the active generation if it waits in the previous one. */
  function PromoteIn(d: Data, k: Key): Data
    requires |d.active| > 0
  {
    var i, j := ActiveIndex(d, k), PreviousIndex(d, k);
    if j.None? || k !in TableOf(d.previous[j.value]) then d
    else
      var (target, source) := Mutation.Promoted(TableOf(d.active[i]), TableOf(d.previous[j.value]), k);
      d.(active := d.active[i := Some(target)], previous := d.previous[j.value := Some(source)])
  }

  function BindIn(d: Data, k: Key, v: Option<Value>): Data
    requires |d.active| > 0
  {
    var i := ActiveIndex(d, k);
    d.(active := d.active[i := Some(Bind(TableOf(d.active[i]), k, v))])
  }

  /** The published map once the guard that changed `keys` is dropped. */
  function PublishIn(d: Data, keys: set<Key>): (r: Table)
    ensures forall k :: Lookup(r, k) == if k in keys then Find(d.hash, d.active, k) else Lookup(d.published, k)
  {
    map k | k in d.published.Keys + keys && (if k in keys then Find(d.hash, d.active, k).Some? else k in d.published)
          :: if k in keys then Find(d.hash, d.active, k).value else d.published[k]
  }

  /** What the committed map becomes when the holder of `held` has applied its last edit. */
  function Adopted(d: Data, held: set<Lock>): (r: Table)
    requires |d.active| > 0
    ensures forall k :: Lookup(r, k) == if ActiveShard(ActiveIndex(d, k)) in held then Lookup(d.published, k)
            else Lookup(d.committed, k)
  {
    map k | k in d.published.Keys + d.committed.Keys
            && (if ActiveShard(ActiveIndex(d, k)) in held then k in d.published else k in d.committed)
          :: if ActiveShard(ActiveIndex(d, k)) in held then d.published[k] else d.committed[k]
  }

  function ActivePart(held: set<Lock>): set<Lock> {
    set l | l in held && l.ActiveShard?
  }

  // ---------------------------------------------------------------------- steps

  ghost predicate Local(s: State, s': State, t: nat)
    requires t < |s.threads| == |s'.threads| && |s.d.active| > 0
  {
    s' == Go(s, t, s.d, s'.threads[t]) && Moves(s, t, s.threads[t], s'.threads[t])
  }

  /** A writer initializes a shard it needs under the directory's write lock. */
  ghost predicate Allocate(s: State, s': State, t: nat)
    requires t < |s.threads| && |s.d.active| > 0
  {
    var pc := s.threads[t];
    pc.WResolve? && Available(s, t, Directory, Exclusive)
    && exists n :: 0 <= n < |pc.edits| && s.d.active[ActiveIndex(s.d, pc.edits[n].key)].None?
                   && s' == Go(s, t, AllocateAt(s.d, ActiveIndex(s.d, pc.edits[n].key)), pc)
  }

  ghost predicate Promote(s: State, s': State, t: nat)
    requires t < |s.threads| && |s.d.active| > 0
  {
    var pc := s.threads[t];
    pc.WApply? && pc.done < |pc.edits|
    && s' == Go(s, t, PromoteIn(s.d, pc.edits[pc.done].key),
                WPromoted(pc.edits, pc.single, if pc.single then ActivePart(pc.held) else pc.held, pc.done))
  }

  /** A guard makes the next change: the first after a promotion, or one more of a batch, which never migrates. */
  ghost predicate Mutate(s: State, s': State, t: nat)
    requires t < |s.threads| && |s.d.active| > 0
  {
    var pc := s.threads[t];
    (pc.WPromoted? || (pc.WPending? && s.d.previous == [])) &&
    var n := if pc.WPromoted? then pc.done else pc.upto;
    n < |pc.edits| &&
    var e := pc.edits[n];
    s' == Go(s, t, BindIn(s.d, e.key, e.f(Find(s.d.hash, s.d.active, e.key))),
             WPending(pc.edits, pc.single, pc.held, pc.done, n + 1))
  }

  /** The dropped guard publishes all its changes; the epoch moves unless every binding stayed what it was. */
  ghost predicate Publish(s: State, s': State, t: nat)
    requires t < |s.threads| && |s.d.active| > 0
  {
    var pc := s.threads[t];
    pc.WPending? &&
    var keys := PendingKeys(pc);
    && (|| s'.d.epoch == s.d.epoch + 1
        || (s'.d.epoch == s.d.epoch
            && forall k :: k in keys ==> Find(s.d.hash, s.d.active, k) == Lookup(s.d.published, k)))
    && s' == Go(s, t, s.d.(published := PublishIn(s.d, keys), epoch := s'.d.epoch),
                WApply(pc.edits, pc.single, pc.held, pc.upto))
  }

  /** The writer is done, or user code stopped it before its next change: what it has applied stays. */
  ghost predicate Commit(s: State, s': State, t: nat)
    requires t < |s.threads| && |s.d.active| > 0
  {
    var pc := s.threads[t];
    (pc.WApply? || pc.WPromoted?) && pc.done <= |pc.edits| &&
        s' == Go(s, t, s.d.(committed := Adopted(s.d, pc.held)), WRelease(pc.held))
  }

  ghost predicate Store(s: State, s': State, t: nat)
    requires t < |s.threads|
  {
    var pc := s.threads[t];
    pc.BCaptured? && s' == Go(s, t, s.d.(cache := Some((pc.epoch, pc.items))), BStored)
  }

  /** A migration move, a generation switch or a staged rebuild: entries change place, nothing else. */
  ghost predicate Rearrange(s: State, s': State, t: nat)
    requires t < |s.threads|
  {
    s.threads[t].XHold? && s' == Go(s, t, s.d.(active := s'.d.active, previous := s'.d.previous), XHold)
    && Placed(s'.d) && forall k :: Live(s'.d, k) == Live(s.d, k)
  }

  /** Retain, clear and eviction remove entries before recording the write. */
  ghost predicate Remove(s: State, s': State, t: nat)
    requires t < |s.threads| == |s'.threads|
  {
    s.threads[t].XHold? && s'.threads[t].XPending?
    && s' == Go(s, t, s.d.(active := s'.d.active, previous := s'.d.previous), s'.threads[t])
    && Placed(s'.d) && forall k :: Live(s'.d, k) == if k in s'.threads[t].gone then None else Live(s.d, k)
  }

  ghost predicate PublishRemoval(s: State, s': State, t: nat)
    requires t < |s.threads|
  {
    s.threads[t].XPending?
    && s' == Go(s, t, s.d.(published := Without(s.d.published, s.threads[t].gone), epoch := s.d.epoch + 1), XHold)
  }

  ghost predicate FinishExclusive(s: State, s': State, t: nat)
    requires t < |s.threads|
  {
    s.threads[t].XHold? && s' == Go(s, t, s.d.(committed := s.d.published), Idle)
  }

  ghost predicate StepOf(s: State, s': State, t: nat)
    requires t < |s.threads| && |s.d.active| > 0
  {
    |s'.threads| == |s.threads| &&
    (|| Local(s, s', t) || Allocate(s, s', t) || Promote(s, s', t) || Mutate(s, s', t) || Publish(s, s', t)
     || Commit(s, s', t) || Store(s, s', t) || Rearrange(s, s', t) || Remove(s, s', t)
     || PublishRemoval(s, s', t) || FinishExclusive(s, s', t))
  }

  ghost predicate Next(s: State, s': State) {
    |s.d.active| > 0 && exists t :: 0 <= t < |s.threads| && StepOf(s, s', t)
  }

  ghost predicate Init(s: State) {
    && Placed(s.d)
    && s.d.cache == None
    && (forall t :: 0 <= t < |s.threads| ==> s.threads[t] == Idle)
    && s.d.published == s.d.committed
    && (forall k :: Lookup(s.d.committed, k) == Live(s.d, k))
  }

  /** A finite run of the protocol. */
  ghost predicate Run(states: seq<State>) {
    |states| > 0 && Init(states[0]) && forall i :: 0 <= i < |states| - 1 ==> Next(states[i], states[i + 1])
  }
}
