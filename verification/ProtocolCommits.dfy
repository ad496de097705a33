/** Commits, cache stores and exclusive operations keep the invariant, and so does every step. */
module ProtocolCommits {
  import opened Domain
  import opened ProtocolState
  import opened ProtocolSteps
  import opened ProtocolInvariant
  import opened ProtocolMoves
  import opened ProtocolWrites

  // ------------------------------------------------------------------------- commits

  /** A commit shows the applied edits of the writer at once, and nothing else. */
  lemma CommitWhole(s: State, s': State, t: nat)
    requires Inv(s) && t < |s.threads| == |s'.threads| && Commit(s, s', t)
    ensures forall k ::
              Lookup(s'.d.committed, k) == After(Lookup(s.d.committed, k), s.threads[t].edits, s.threads[t].done, k)
  {
    hide Placed, CacheOk, CommittedOk, PublishedOk, Excluded;
    var pc := s.threads[t];
    ThreadHasOk(s, t);
    forall k
      ensures Lookup(s'.d.committed, k) == After(Lookup(s.d.committed, k), pc.edits, pc.done, k)
    {
      if ActiveShard(ActiveIndex(s.d, k)) !in pc.held {
        AfterSame(Lookup(s.d.committed, k), pc.edits, 0, pc.done, k);
      }
    }
  }

  /** A capture that is current leaves nothing to commit. */
  lemma CommitCaptures(d: Data, d': Data, held: set<Lock>)
    requires |d.active| > 0 && d' == d.(committed := Adopted(d, held))
    ensures forall e, items :: CaptureOk(d, e, items) ==> CaptureOk(d', e, items)
  {
    forall e, items | CaptureOk(d, e, items) ensures CaptureOk(d', e, items) {
      if e == d.epoch {
        EnumeratesSame(items, d.published, d.committed);
        SameLookups(d'.committed, d.committed);
      }
    }
  }

  /** Another writer's view does not move when this one commits. */
  lemma CommitOther(d: Data, d': Data, held: set<Lock>, pc: Thread)
    requires |d.active| > 0 && d' == d.(committed := Adopted(d, held)) && ThreadOk(d, pc)
    requires !pc.XHold? && !pc.XPending?
    requires forall l :: Holds(pc, l) == Exclusive ==> l !in held
    ensures ThreadOk(d', pc)
  {
    hide Covers, CaptureOk;
    CommitCaptures(d, d', held);
    if pc.WLock? {
      CoversKept(d, d', pc.edits, LockSet(pc.plan), 0);
    } else if pc.WApply? || pc.WPromoted? || pc.WPending? {
      CoversKept(d, d', pc.edits, pc.held, Ahead(pc));
      forall k | ActiveShard(ActiveIndex(d', k)) in pc.held
        ensures Lookup(d'.committed, k) == Lookup(d.committed, k)
        ensures Lookup(d'.published, k) == After(Lookup(d'.committed, k), pc.edits, pc.done, k)
      {
        assert ActiveIndex(d', k) == ActiveIndex(d, k);
        assert Holds(pc, ActiveShard(ActiveIndex(d, k))) == Exclusive;
      }
      forall n | 0 <= n < |pc.edits| ensures Lookup(d'.committed, pc.edits[n].key) ==
          Lookup(d.committed, pc.edits[n].key) {
        CoversKey(d, pc.edits, pc.held, Ahead(pc), n);
        assert ActiveIndex(d', pc.edits[n].key) == ActiveIndex(d, pc.edits[n].key);
      }
    } else if pc.WRelease? {
      forall l | l in pc.held ensures ShardLock(d', l) {
        assert ShardLock(d, l);
      }
    }
  }

  lemma CommitThreads(s: State, s': State, t: nat)
    requires Inv(s) && t < |s.threads| == |s'.threads| && Commit(s, s', t)
    ensures |s'.d.active| > 0 && ThreadsOk(s')
  {
    hide Placed, PublishedOk, CommittedOk, CacheOk, Covers, InForce;
    var pc := s.threads[t];
    ThreadHasOk(s, t);
    assert ThreadOk(s'.d, s'.threads[t]) by {
      CommitterOk(s.d, s'.d, pc);
    }
    forall u | 0 <= u < |s.threads| && u != t ensures ThreadOk(s'.d, s'.threads[u]) {
      ThreadHasOk(s, u);
      RoutePinned(s, t, u);
      forall l | Holds(s.threads[u], l) == Exclusive ensures l !in pc.held {
        Alone(s, t, u, l);
        Alone(s, t, u, Route);
      }
      CommitOther(s.d, s'.d, pc.held, s.threads[u]);
    }
  }

  lemma CommitterOk(d: Data, d': Data, pc: Thread)
    requires |d.active| > 0 && (pc.WApply? || pc.WPromoted?) && ThreadOk(d, pc) &&
             d' == d.(committed := Adopted(d, pc.held))
    ensures ThreadOk(d', WRelease(pc.held))
  {
    forall l | l in pc.held ensures ShardLock(d', l) {
      assert ShardLock(d, l);
    }
  }

  lemma CommitViews(s: State, s': State, t: nat)
    requires Inv(s) && t < |s.threads| == |s'.threads| && Commit(s, s', t)
    ensures |s'.d.active| > 0 && PublishedOk(s') && CommittedOk(s')
  {
    hide Placed, ThreadsOk, Excluded, CacheOk;
    forall k | Quiet(s', k) ensures Lookup(s'.d.published, k) == Live(s'.d, k) {
      QuietBack(s, s', t, k);
    }
    forall k | Settled(s', ActiveIndex(s'.d, k)) ensures Lookup(s'.d.committed, k) == Lookup(s'.d.published, k) {
      var i := ActiveIndex(s.d, k);
      if ActiveShard(i) !in s.threads[t].held {
        assert !DirtyIn(s.threads[t], i);
        SettledBack(s, s', t, i);
      }
    }
  }

  lemma CommitKeeps(s: State, s': State, t: nat)
    requires Inv(s) && t < |s.threads| == |s'.threads| && Commit(s, s', t)
    ensures Inv(s')
  {
    hide Placed, CacheOk, ThreadsOk, CommittedOk, PublishedOk, Excluded;
    KeepExcluded(s, s', t);
    CommitThreads(s, s', t);
    CommitViews(s, s', t);
    CommitCaptures(s.d, s'.d, s.threads[t].held);
    CacheFramed(s.d, s'.d);
    SameDirectories(s.d, s'.d);
  }

  // --------------------------------------------------------------------------- cache

  lemma StoreOther(d: Data, d': Data, pc: Thread)
    requires |d.active| > 0 && d' == d.(cache := d'.cache) && ThreadOk(d, pc)
    ensures ThreadOk(d', pc)
  {
    hide Covers;
    if pc.WLock? {
      CoversKept(d, d', pc.edits, LockSet(pc.plan), 0);
    } else if pc.WApply? || pc.WPromoted? || pc.WPending? {
      CoversKept(d, d', pc.edits, pc.held, Ahead(pc));
      forall k ensures ActiveIndex(d', k) == ActiveIndex(d, k) {
      }
    } else if pc.WRelease? {
      forall l | l in pc.held ensures ShardLock(d', l) {
        assert ShardLock(d, l);
      }
    }
  }

  lemma StoreKeeps(s: State, s': State, t: nat)
    requires Inv(s) && t < |s.threads| == |s'.threads| && Store(s, s', t)
    ensures Inv(s')
  {
    hide Placed, Listed, Covers, InForce, FallenBack;
    KeepExcluded(s, s', t);
    SameDirectories(s.d, s'.d);
    ThreadHasOk(s, t);
    forall u | 0 <= u < |s.threads| ensures ThreadOk(s'.d, s'.threads[u]) {
      if u != t {
        ThreadHasOk(s, u);
        StoreOther(s.d, s'.d, s.threads[u]);
      }
    }
    StoreViews(s, s', t);
  }

  lemma StoreViews(s: State, s': State, t: nat)
    requires Inv(s) && t < |s.threads| == |s'.threads| && Store(s, s', t)
    ensures |s'.d.active| > 0 && PublishedOk(s') && CommittedOk(s')
  {
    hide Placed, ThreadsOk, Excluded, CacheOk;
    forall k | Quiet(s', k) ensures Lookup(s'.d.published, k) == Live(s'.d, k) {
      QuietBack(s, s', t, k);
    }
    forall k | Settled(s', ActiveIndex(s'.d, k)) ensures Lookup(s'.d.committed, k) == Lookup(s'.d.published, k) {
      SettledBack(s, s', t, ActiveIndex(s.d, k));
    }
  }

  // ------------------------------------------------------------- exclusive operations

  /** Under exclusive routing, other threads rely on nothing but their captures. */
  lemma OutsidersOk(s: State, t: nat, d': Data)
    requires Inv(s) && t < |s.threads| && (s.threads[t].XHold? || s.threads[t].XPending?) && |d'.active| > 0
    requires forall e, items :: CaptureOk(s.d, e, items) ==> CaptureOk(d', e, items)
    ensures forall u :: 0 <= u < |s.threads| && u != t ==>
            ThreadOk(d', s.threads[u]) && forall k :: !PendingIn(s.threads[u], k)
  {
    hide Placed, CacheOk, CommittedOk, PublishedOk, Excluded, CaptureOk;
    forall u | 0 <= u < |s.threads| && u != t ensures ThreadOk(d', s.threads[u]) &&
        forall k :: !PendingIn(s.threads[u], k) {
      Alone(s, t, u, Route);
      ThreadHasOk(s, u);
    }
  }

  /** Under exclusive routing, what is pending is pending by the holder. */
  lemma ExclusiveQuiet(s: State, t: nat, k: Key)
    requires t < |s.threads| && (forall u :: 0 <= u < |s.threads| && u != t ==> forall x :: !PendingIn(s.threads[u], x))
    requires !PendingIn(s.threads[t], k)
    ensures Quiet(s, k)
  {
    forall u | 0 <= u < |s.threads| ensures !PendingIn(s.threads[u], k) {
      if u != t {
        assert forall x :: !PendingIn(s.threads[u], x);
      }
    }
  }

  lemma RearrangeKeeps(s: State, s': State, t: nat)
    requires Inv(s) && t < |s.threads| == |s'.threads| && Rearrange(s, s', t)
    ensures Inv(s')
  {
    hide Placed, Listed, Covers, InForce, FallenBack;
    KeepExcluded(s, s', t);
    assert |s'.d.active| > 0 by { PlacedActive(s'.d); }
    OutsidersOk(s, t, s'.d);
    ThreadHasOk(s, t);
    forall k ensures Lookup(s'.d.published, k) == Live(s'.d, k) {
      ExclusiveQuiet(s, t, k);
    }
    assert DirtyIn(s'.threads[t], 0) && forall i :: DirtyIn(s'.threads[t], i);
  }

  lemma PlacedActive(d: Data)
    requires Placed(d)
    ensures |d.active| > 0
  {
  }

  lemma RemoveKeeps(s: State, s': State, t: nat)
    requires Inv(s) && t < |s.threads| == |s'.threads| && Remove(s, s', t)
    ensures Inv(s')
  {
    hide Placed, Listed, Covers, InForce, FallenBack;
    KeepExcluded(s, s', t);
    assert |s'.d.active| > 0 by { PlacedActive(s'.d); }
    OutsidersOk(s, t, s'.d);
    ThreadHasOk(s, t);
    forall k | Quiet(s', k) ensures Lookup(s'.d.published, k) == Live(s'.d, k) {
      assert !PendingIn(s'.threads[t], k);
      ExclusiveQuiet(s, t, k);
    }
    assert forall i :: DirtyIn(s'.threads[t], i);
  }

  lemma PublishRemovalKeeps(s: State, s': State, t: nat)
    requires Inv(s) && t < |s.threads| == |s'.threads| && PublishRemoval(s, s', t)
    ensures Inv(s')
  {
    hide Placed, Listed, Covers, InForce, FallenBack;
    KeepExcluded(s, s', t);
    SameDirectories(s.d, s'.d);
    OutsidersOk(s, t, s'.d);
    ThreadHasOk(s, t);
    forall k
      ensures Lookup(s'.d.published, k) == Live(s'.d, k)
      ensures Lookup(s'.d.published, k) == None || Lookup(s'.d.published, k) == Lookup(s'.d.committed, k)
    {
      if k !in s.threads[t].gone {
        ExclusiveQuiet(s, t, k);
      }
    }
    assert forall i :: DirtyIn(s'.threads[t], i);
  }

  /** An exclusive operation as a whole removes keys or changes nothing. */
  lemma FinishExclusiveKeeps(s: State, s': State, t: nat)
    requires Inv(s) && t < |s.threads| == |s'.threads| && FinishExclusive(s, s', t)
    ensures Inv(s')
    ensures forall k :: Lookup(s'.d.committed, k) == if k in s.d.published then Lookup(s.d.committed, k) else None
  {
    hide Placed, Listed, Covers, InForce, FallenBack;
    KeepExcluded(s, s', t);
    SameDirectories(s.d, s'.d);
    OutsidersOk(s, t, s'.d);
    ThreadHasOk(s, t);
    forall k ensures Lookup(s'.d.published, k) == Live(s'.d, k) {
      ExclusiveQuiet(s, t, k);
    }
  }

  // ------------------------------------------------------------------------- every step

  lemma StepKeeps(s: State, s': State, t: nat)
    requires Inv(s) && t < |s.threads| && StepOf(s, s', t)
    ensures Inv(s')
  {
    hide Inv, Local, Allocate, Promote, Mutate, Publish, Commit, Store, Rearrange, Remove, PublishRemoval,
        FinishExclusive;
    assert |s.d.active| > 0 by { InvActive(s); }
    if Local(s, s', t) {
      LocalKeeps(s, s', t);
    } else if Allocate(s, s', t) {
      AllocateKeeps(s, s', t);
    } else if Promote(s, s', t) {
      PromoteKeeps(s, s', t);
    } else if Mutate(s, s', t) {
      MutateKeeps(s, s', t);
    } else if Publish(s, s', t) {
      PublishKeeps(s, s', t);
    } else if Commit(s, s', t) {
      CommitKeeps(s, s', t);
    } else if Store(s, s', t) {
      StoreKeeps(s, s', t);
    } else if Rearrange(s, s', t) {
      RearrangeKeeps(s, s', t);
    } else if Remove(s, s', t) {
      RemoveKeeps(s, s', t);
    } else if PublishRemoval(s, s', t) {
      PublishRemovalKeeps(s, s', t);
    } else {
      FinishExclusiveKeeps(s, s', t);
    }
  }

  lemma InvActive(s: State)
    requires Inv(s)
    ensures |s.d.active| > 0
  {
  }

  /** The invariant holds in every state of every run. */
  lemma {:induction false} RunInv(states: seq<State>, i: nat)
    requires Run(states) && i < |states|
    ensures Inv(states[i])
  {
    hide Inv, StepOf;
    if i == 0 {
      InitInv(states[0]);
    } else {
      RunInv(states, i - 1);
      assert Next(states[i - 1], states[i - 1 + 1]);
      var t :| 0 <= t < |states[i - 1].threads| && StepOf(states[i - 1], states[i], t);
      StepKeeps(states[i - 1], states[i], t);
    }
  }
}
