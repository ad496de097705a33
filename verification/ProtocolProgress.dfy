/** Progress: an unfinished operation never waits for nothing, and somebody can always step. */
module ProtocolProgress {
  import opened Domain
  import opened Routing
  import opened ProtocolState
  import opened ProtocolSteps
  import opened ProtocolInvariant
  import opened ProtocolWrites
  import opened ProtocolCommits
  import opened ProtocolWaits
  import Transactions

  ghost predicate CanStep(s: State, t: nat)
    requires t < |s.threads| && |s.d.active| > 0
  {
    exists s' :: StepOf(s, s', t)
  }

  /** Some other thread holds what `t` waits for. */
  ghost predicate HeldUp(s: State, t: nat, w: Wait, u: nat)
    requires t < |s.threads|
  {
    u < |s.threads| && u != t && MayWait(s, t, w) && !Compatible(Holds(s.threads[u], w.lock), w.mode)
  }

  ghost predicate StepsOrWaits(s: State, t: nat)
    requires t < |s.threads| && |s.d.active| > 0
  {
    CanStep(s, t) || exists w, u :: HeldUp(s, t, w, u)
  }

  lemma MoveOn(s: State, t: nat, next: Thread)
    requires t < |s.threads| && |s.d.active| > 0 && Moves(s, t, s.threads[t], next)
    ensures CanStep(s, t)
  {
    hide Moves;
    var s' := Go(s, t, s.d, next);
    assert Local(s, s', t);
    assert StepOf(s, s', t);
  }

  /** A lock is free for the taking or somebody holds it. */
  lemma TakeOrWait(s: State, t: nat, w: Wait)
    requires t < |s.threads| && |s.d.active| > 0 && MayWait(s, t, w)
    ensures Available(s, t, w.lock, w.mode) || exists u :: HeldUp(s, t, w, u)
  {
    if !Available(s, t, w.lock, w.mode) {
      var u :| 0 <= u < |s.threads| && u != t && !Compatible(Holds(s.threads[u], w.lock), w.mode);
      assert HeldUp(s, t, w, u);
    }
  }

  /** Every table can be listed. */
  lemma Listable(m: Table) returns (items: Listing)
    ensures Enumerates(items, m)
    decreases m.Keys
  {
    if m == map[] {
      items := [];
    } else {
      var k :| k in m;
      var rest := Listable(m - {k});
      EnumerateAppend(rest, m - {k}, [(k, m[k])], map[k := m[k]]);
      assert (m - {k}) + map[k := m[k]] == m;
      items := rest + [(k, m[k])];
    }
  }

  lemma WriterSteps(s: State, t: nat)
    requires Inv(s) && t < |s.threads|
    requires var pc := s.threads[t]; pc.WRoute? || pc.WLock? || pc.WRelease?
    ensures StepsOrWaits(s, t)
  {
    hide Inv, CanStep, Available, Compatible, Holds;
    InvActive(s);
    var pc := s.threads[t];
    match pc
    case WRoute(edits, single) =>
      TakeOrWait(s, t, Wait(Route, Shared));
      if Available(s, t, Route, Shared) {
        MoveOn(s, t, WResolve(edits, single));
      }
    case WLock(edits, single, plan, got) =>
      if got < |plan| {
        TakeOrWait(s, t, Wait(plan[got], Exclusive));
        if Available(s, t, plan[got], Exclusive) {
          MoveOn(s, t, WLock(edits, single, plan, got + 1));
        }
      } else {
        MoveOn(s, t, WApply(edits, single, LockSet(plan), 0));
      }
    case WRelease(held) =>
      if held == {} {
        MoveOn(s, t, Idle);
      } else {
        var l :| l in held;
        MoveOn(s, t, WRelease(held - {l}));
      }
  }

  lemma ResolverSteps(s: State, t: nat)
    requires Inv(s) && t < |s.threads| && s.threads[t].WResolve?
    ensures StepsOrWaits(s, t)
  {
    hide Inv, Available, Holds, Covers, Sorted;
    InvActive(s);
    var pc := s.threads[t];
    if Resolved(s.d, pc.edits) {
      var ops := seq(|pc.edits|, n requires 0 <= n < |pc.edits| => Transactions.Read(pc.edits[n].key));
      LockPlanCovers(s.d, ops, pc.edits);
      MoveOn(s, t, WLock(pc.edits, pc.single, LockPlan(s.d, ops), 0));
    } else {
      TakeOrWait(s, t, Wait(Directory, Exclusive));
      var n :| 0 <= n < |pc.edits| && s.d.active[ActiveIndex(s.d, pc.edits[n].key)].None?;
      var s' := Go(s, t, AllocateAt(s.d, ActiveIndex(s.d, pc.edits[n].key)), pc);
      assert Available(s, t, Directory, Exclusive) ==> Allocate(s, s', t);
      assert Available(s, t, Directory, Exclusive) ==> StepOf(s, s', t);
    }
  }

  lemma WorkerSteps(s: State, t: nat)
    requires Inv(s) && t < |s.threads|
    requires var pc := s.threads[t]; pc.WApply? || pc.WPromoted? || pc.WPending?
    ensures CanStep(s, t)
  {
    hide Moves, Excluded, PublishedOk, CommittedOk, CacheOk, Placed, Covers, InForce;
    var pc := s.threads[t];
    ThreadHasOk(s, t);
    if pc.WApply? && pc.done == |pc.edits| {
      var s' := Go(s, t, s.d.(committed := Adopted(s.d, pc.held)), WRelease(pc.held));
      assert Commit(s, s', t);
      assert StepOf(s, s', t);
    } else {
      var e := pc.edits[pc.done];
      var now := Find(s.d.hash, s.d.active, e.key);
      var s' :=
        if pc.WApply? then
          Go(s, t, PromoteIn(s.d, e.key),
             WPromoted(pc.edits, pc.single, if pc.single then ActivePart(pc.held) else pc.held, pc.done))
        else if pc.WPromoted? then
          Go(s, t, BindIn(s.d, e.key, e.f(now)), WPending(pc.edits, pc.single, pc.held, pc.done, pc.done + 1))
        else
          Go(s, t, s.d.(published := PublishIn(s.d, PendingKeys(pc)), epoch := s.d.epoch + 1),
             WApply(pc.edits, pc.single, pc.held, pc.upto));
      assert Promote(s, s', t) || Mutate(s, s', t) || Publish(s, s', t);
      assert StepOf(s, s', t);
    }
  }

  lemma ReaderSteps(s: State, t: nat)
    requires Inv(s) && t < |s.threads|
    requires var pc := s.threads[t];
             pc.RRoute? || pc.RDirectory? || pc.RLook? || pc.RWait? || pc.RActive? || pc.RFallback? || pc.RPrevious? ||
                 pc.RDone?
    ensures StepsOrWaits(s, t)
  {
    hide Excluded, PublishedOk, CommittedOk, CacheOk, Placed, ThreadsOk, CanStep, Available, Compatible, Holds;
    var pc := s.threads[t];
    ThreadHasOk(s, t);
    match pc
    case RRoute(k) =>
      TakeOrWait(s, t, Wait(Route, Shared));
      if Available(s, t, Route, Shared) {
        MoveOn(s, t, RDirectory(k));
      }
    case RDirectory(k) =>
      TakeOrWait(s, t, Wait(Directory, Shared));
      if Available(s, t, Directory, Shared) {
        MoveOn(s, t, RLook(k));
      }
    case RWait(k, i) =>
      TakeOrWait(s, t, Wait(ActiveShard(i), Shared));
      if Available(s, t, ActiveShard(i), Shared) {
        MoveOn(s, t, RActive(k, i));
      }
    case RFallback(k, i, j) =>
      TakeOrWait(s, t, Wait(PreviousShard(j), Shared));
      if Available(s, t, PreviousShard(j), Shared) {
        MoveOn(s, t, RPrevious(k, i, j));
      }
    case RLook(k) =>
      MoveOn(s, t, if s.d.active[ActiveIndex(s.d, k)].Some? then RWait(k, ActiveIndex(s.d, k))
                else if PreviousIndex(s.d, k).Some? then RFallback(k, None, PreviousIndex(s.d, k).value)
                    else RDone(k, None));
    case RActive(k, i) =>
      MoveOn(s, t, if k in TableOf(s.d.active[i]) then RDone(k, Some(TableOf(s.d.active[i])[k]))
                else if PreviousIndex(s.d, k).Some? then RFallback(k, Some(i), PreviousIndex(s.d, k).value)
                    else RDone(k, None));
    case RPrevious(k, i, j) => MoveOn(s, t, RDone(k, Lookup(TableOf(s.d.previous[j]), k)));
    case RDone(_, _) => MoveOn(s, t, Idle);
  }

  lemma BuilderSteps(s: State, t: nat)
    requires Inv(s) && t < |s.threads|
    requires var pc := s.threads[t];
             pc.BGate? || pc.BRoute? || pc.BDirectory? || pc.BLock? || pc.BCaptured? ||
             pc.BStored? || pc.CDone?
    ensures StepsOrWaits(s, t)
  {
    hide Inv, CanStep, Available, Compatible, Holds;
    InvActive(s);
    var pc := s.threads[t];
    match pc
    case BGate =>
      TakeOrWait(s, t, Wait(Gate, Exclusive));
      if Available(s, t, Gate, Exclusive) {
        MoveOn(s, t, BRoute);
      }
    case BRoute =>
      TakeOrWait(s, t, Wait(Route, Shared));
      if Available(s, t, Route, Shared) {
        MoveOn(s, t, BDirectory);
      }
    case BDirectory =>
      TakeOrWait(s, t, Wait(Directory, Shared));
      if Available(s, t, Directory, Shared) {
        MoveOn(s, t, BLock(0, 0));
      }
    case BLock(a, b) =>
      if a < |s.d.active| {
        TakeOrWait(s, t, Wait(ActiveShard(a), Shared));
        if Available(s, t, ActiveShard(a), Shared) {
          MoveOn(s, t, BLock(a + 1, b));
        }
      } else if b < |s.d.previous| {
        TakeOrWait(s, t, Wait(PreviousShard(b), Shared));
        if Available(s, t, PreviousShard(b), Shared) {
          MoveOn(s, t, BLock(a, b + 1));
        }
      } else {
        MoveOn(s, t, BCollect(s.d.epoch, [], 0, 0));
      }
    case BCaptured(_, _) => MoveOn(s, t, BStored);
    case BStored => MoveOn(s, t, Idle);
    case CDone(_, _) => MoveOn(s, t, Idle);
  }

  lemma CollectorSteps(s: State, t: nat)
    requires Inv(s) && t < |s.threads| && s.threads[t].BCollect?
    ensures CanStep(s, t)
  {
    hide Inv, CanStep;
    InvActive(s);
    var pc := s.threads[t];
    if pc.a < |s.d.active| {
      var part := Listable(TableOf(s.d.active[pc.a]));
      assert (pc.items + part)[|pc.items|..] == part;
      MoveOn(s, t, BCollect(pc.epoch, pc.items + part, pc.a + 1, pc.b));
    } else if pc.b < |s.d.previous| {
      var part := Listable(TableOf(s.d.previous[pc.b]));
      assert (pc.items + part)[|pc.items|..] == part;
      MoveOn(s, t, BCollect(pc.epoch, pc.items + part, pc.a, pc.b + 1));
    } else {
      MoveOn(s, t, BCaptured(pc.epoch, pc.items));
    }
  }

  lemma ExclusiveSteps(s: State, t: nat)
    requires Inv(s) && t < |s.threads| && (s.threads[t].XRoute? || s.threads[t].XHold? || s.threads[t].XPending?)
    ensures StepsOrWaits(s, t)
  {
    hide Inv, Available, Holds;
    InvActive(s);
    if s.threads[t].XRoute? {
      TakeOrWait(s, t, Wait(Route, Exclusive));
      if Available(s, t, Route, Exclusive) {
        MoveOn(s, t, XHold);
      }
    } else {
      var s' := if s.threads[t].XHold? then Go(s, t, s.d.(committed := s.d.published), Idle)
      else Go(s, t, s.d.(published := Without(s.d.published, s.threads[t].gone), epoch := s.d.epoch + 1), XHold);
      assert FinishExclusive(s, s', t) || PublishRemoval(s, s', t);
      assert StepOf(s, s', t);
    }
  }

  /** A thread in an operation can go on, or another thread holds what it waits for. */
  lemma StepOrWait(s: State, t: nat)
    requires Inv(s) && t < |s.threads| && s.threads[t] != Idle
    ensures StepsOrWaits(s, t)
  {
    hide Inv, CanStep, HeldUp;
    InvActive(s);
    var pc := s.threads[t];
    if pc.WRoute? || pc.WLock? || pc.WRelease? {
      WriterSteps(s, t);
    } else if pc.WResolve? {
      ResolverSteps(s, t);
    } else if pc.WApply? || pc.WPromoted? || pc.WPending? {
      WorkerSteps(s, t);
    } else if pc.BCollect? {
      CollectorSteps(s, t);
    } else if pc.BGate? || pc.BRoute? || pc.BDirectory? || pc.BLock? || pc.BCaptured? || pc.BStored? || pc.CDone? {
      BuilderSteps(s, t);
    } else if pc.XRoute? || pc.XHold? || pc.XPending? {
      ExclusiveSteps(s, t);
    } else {
      ReaderSteps(s, t);
    }
  }

  function FirstNumbers(n: nat): (r: set<nat>)
    ensures forall v :: 0 <= v < n ==> v in r
  {
    if n == 0 then {} else FirstNumbers(n - 1) + {n - 1}
  }

  /** Following the holders from `t` ends at a thread that can step; the threads behind wait lower. */
  lemma {:induction false} FollowHolders(s: State, t: nat, ahead: set<nat>, behind: set<nat>, waits: map<nat, Wait>)
    returns (u: nat)
    requires Inv(s) && t < |s.threads| && s.threads[t] != Idle && waits.Keys == behind
    requires forall v :: v in behind ==> v < |s.threads| && MayWait(s, v, waits[v])
    requires forall v, w :: v in behind && MayWait(s, t, w) ==> Below(waits[v].lock, w.lock)
    ensures u < |s.threads| && s.threads[u] != Idle && |s.d.active| > 0 && CanStep(s, u)
    requires forall v :: 0 <= v < |s.threads| && v !in behind ==> v in ahead
    decreases ahead
  {
    hide Inv, CanStep, MayWait;
    InvActive(s);
    StepOrWait(s, t);
    if CanStep(s, t) {
      u := t;
    } else {
      var w, v :| HeldUp(s, t, w, v);
      assert t !in behind;
      forall x | MayWait(s, v, x) ensures Below(w.lock, x.lock) {
        HoldsBelow(s, v, w.lock, x);
      }
      u := FollowHolders(s, v, ahead - {t}, behind + {t}, waits[t := w]);
    }
  }

  /** Progress: while some operation is unfinished, some unfinished operation can take a step. */
  lemma Progress(states: seq<State>, i: nat, t: nat) returns (u: nat, next: State)
    requires Run(states) && i < |states| && t < |states[i].threads| && states[i].threads[t] != Idle
    ensures u < |states[i].threads| && states[i].threads[u] != Idle
    ensures |states[i].d.active| > 0 && StepOf(states[i], next, u)
  {
    hide Inv, StepOf;
    RunInv(states, i);
    u := FollowHolders(states[i], t, FirstNumbers(|states[i].threads|), {}, map[]);
    next :| StepOf(states[i], next, u);
  }
}
