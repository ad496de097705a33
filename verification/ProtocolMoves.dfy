/** Steps that only move a thread keep the invariant. */
module ProtocolMoves {
  import opened Domain
  import opened Routing
  import opened ProtocolState
  import opened ProtocolSteps
  import opened ProtocolInvariant

  // ---------------------------------------------------------------- what pinning gives

  lemma EnumeratesSame(items: Listing, a: Table, b: Table)
    requires Enumerates(items, a) && Enumerates(items, b)
    ensures a == b
  {
    forall k ensures Lookup(a, k) == Lookup(b, k) {
      if k in a {
        assert (k, a[k]) in items;
      }
      if k in b {
        assert (k, b[k]) in items;
      }
    }
    SameLookups(a, b);
  }

  /** While a thread pins routing, no exclusive operation runs. */
  lemma RoutePinned(s: State, t: nat, u: nat)
    requires Excluded(s) && t < |s.threads| && u < |s.threads| && t != u
    requires Holds(s.threads[t], Route) == Shared
    ensures !s.threads[u].XHold? && !s.threads[u].XPending?
  {
    Alone(s, t, u, Route);
  }

  /** While a writer holds an active shard, no other writer has changed a key of it. */
  lemma ShardMine(s: State, t: nat, i: nat, u: nat)
    requires Excluded(s) && t < |s.threads| && u < |s.threads| && t != u
    requires Holds(s.threads[t], Route) == Shared && Holds(s.threads[t], ActiveShard(i)) != Free
    ensures !DirtyIn(s.threads[u], i)
  {
    RoutePinned(s, t, u);
    Alone(s, t, u, ActiveShard(i));
  }

  /** Pending changes are made under the key's active shard lock. */
  lemma PendingLocked(s: State, u: nat, k: Key)
    requires |s.d.active| > 0 && ThreadsOk(s) && u < |s.threads| && PendingIn(s.threads[u], k)
    ensures DirtyIn(s.threads[u], ActiveIndex(s.d, k))
  {
    var pc := s.threads[u];
    assert ThreadOk(s.d, pc);
    if pc.WPending? {
      assert Covers(s.d, pc.edits, pc.held, pc.upto);
      var n :| pc.done <= n < pc.upto && n < |pc.edits| && pc.edits[n].key == k;
    }
  }

  /** A key whose active shard nobody else has dirtied shows the same in every view. */
  lemma ViewsAgree(s: State, k: Key)
    requires Inv(s) && Settled(s, ActiveIndex(s.d, k))
    ensures Lookup(s.d.committed, k) == Lookup(s.d.published, k) == Live(s.d, k)
  {
    assert Quiet(s, k) by {
      forall u | 0 <= u < |s.threads| ensures !PendingIn(s.threads[u], k) {
        if PendingIn(s.threads[u], k) {
          PendingLocked(s, u, k);
        }
      }
    }
  }

  /** A builder that holds every lock sees one coherent map. */
  lemma BuilderSees(s: State, t: nat, k: Key)
    requires Inv(s) && t < |s.threads| && s.threads[t].BCollect?
    ensures Lookup(s.d.committed, k) == Lookup(s.d.published, k) == Live(s.d, k)
  {
    var i := ActiveIndex(s.d, k);
    forall u | 0 <= u < |s.threads| ensures !DirtyIn(s.threads[u], i) {
      if u != t {
        ShardMine(s, t, i, u);
      }
    }
    ViewsAgree(s, k);
  }

  // ------------------------------------------------------------------------ locks taken

  lemma WriterTakesFairly(s: State, t: nat, next: Thread)
    requires Inv(s) && t < |s.threads| && Moves(s, t, s.threads[t], next)
    requires var pc := s.threads[t]; pc.WRoute? || pc.WResolve? || pc.WLock? || pc.WRelease?
    ensures TakesFairly(s, t, next)
  {
    hide Placed, PublishedOk, CommittedOk, CacheOk, Covers;
    var pc := s.threads[t];
    assert ThreadOk(s.d, pc);
    forall l
      ensures Holds(next, l) == Free || Holds(next, l) == Holds(pc, l) || Available(s, t, l, Holds(next, l))
    {
      if pc.WLock? && pc.got < |pc.plan| {
        assert pc.plan[..pc.got + 1] == pc.plan[..pc.got] + [pc.plan[pc.got]];
      } else if pc.WLock? {
        assert pc.plan[..pc.got] == pc.plan;
      }
    }
  }

  lemma ReaderTakesFairly(s: State, t: nat, next: Thread)
    requires Inv(s) && t < |s.threads| && Moves(s, t, s.threads[t], next)
    requires var pc := s.threads[t];
             pc.RRoute? || pc.RDirectory? || pc.RLook? || pc.RWait? || pc.RActive? || pc.RFallback? || pc.RPrevious?
    ensures TakesFairly(s, t, next)
  {
    hide Placed, PublishedOk, CommittedOk, CacheOk, ThreadsOk;
  }

  /** Nobody holds the lock of a shard that does not exist. */
  lemma UnallocatedFree(s: State, t: nat, l: Lock)
    requires Inv(s) && t < |s.threads| && l != Gate && l != Route && !ShardLock(s.d, l)
    ensures Available(s, t, l, Shared)
  {
    forall u | 0 <= u < |s.threads| && u != t ensures Compatible(Holds(s.threads[u], l), Shared) {
      if Holds(s.threads[u], l) == Exclusive {
        HeldShards(s, u, l);
        assert false;
      }
    }
  }

  lemma LockerTakesFairly(s: State, t: nat, next: Thread)
    requires Inv(s) && t < |s.threads| && Moves(s, t, s.threads[t], next) && s.threads[t].BLock?
    ensures TakesFairly(s, t, next)
  {
    hide Placed, PublishedOk, CommittedOk, CacheOk, Excluded;
    var pc := s.threads[t];
    assert ThreadOk(s.d, pc);
    forall l
      ensures Holds(next, l) == Free || Holds(next, l) == Holds(pc, l) || Available(s, t, l, Holds(next, l))
    {
      if l != Gate && l != Route && !ShardLock(s.d, l) {
        UnallocatedFree(s, t, l);
      }
    }
  }

  lemma BuilderTakesFairly(s: State, t: nat, next: Thread)
    requires Inv(s) && t < |s.threads| && Moves(s, t, s.threads[t], next)
    requires var pc := s.threads[t]; pc.BGate? || pc.BRoute? || pc.BDirectory? || pc.BCollect?
    ensures TakesFairly(s, t, next)
  {
    hide Placed, PublishedOk, CommittedOk, CacheOk, Excluded, ThreadsOk;
  }

  lemma MoveTakesFairly(s: State, t: nat, next: Thread)
    requires Inv(s) && t < |s.threads| && Moves(s, t, s.threads[t], next)
    ensures TakesFairly(s, t, next)
  {
    hide Placed, PublishedOk, CommittedOk, CacheOk, Excluded, ThreadsOk;
    var pc := s.threads[t];
    if pc.WRoute? || pc.WResolve? || pc.WLock? || pc.WRelease? {
      WriterTakesFairly(s, t, next);
    } else if pc.RRoute? || pc.RDirectory? || pc.RLook? || pc.RWait? || pc.RActive? || pc.RFallback? || pc.RPrevious? {
      ReaderTakesFairly(s, t, next);
    } else if pc.BLock? {
      LockerTakesFairly(s, t, next);
    } else if pc.BGate? || pc.BRoute? || pc.BDirectory? || pc.BCollect? {
      BuilderTakesFairly(s, t, next);
    }
  }

  // ---------------------------------------------------------------------- thread facts

  lemma WriterMoveOk(s: State, t: nat, next: Thread)
    requires Inv(s) && t < |s.threads| && Moves(s, t, s.threads[t], next)
    requires var pc := s.threads[t]; pc.WRoute? || pc.WResolve? || pc.WLock? || pc.WRelease?
    ensures ThreadOk(s.d, next)
  {
    hide Placed, CacheOk;
    var pc := s.threads[t];
    assert ThreadOk(s.d, pc);
    if pc.WLock? && pc.got == |pc.plan| {
      assert pc.plan[..pc.got] == pc.plan;
      forall k | ActiveShard(ActiveIndex(s.d, k)) in LockSet(pc.plan)
        ensures Lookup(s.d.published, k) == Lookup(s.d.committed, k)
      {
        var i := ActiveIndex(s.d, k);
        forall u | 0 <= u < |s.threads| ensures !DirtyIn(s.threads[u], i) {
          if u != t {
            ShardMine(s, t, i, u);
          }
        }
        assert Settled(s, i);
      }
    }
  }

  lemma ReaderMoveOk(s: State, t: nat, next: Thread)
    requires Inv(s) && t < |s.threads| && Moves(s, t, s.threads[t], next)
    requires var pc := s.threads[t];
             pc.RRoute? || pc.RDirectory? || pc.RLook? || pc.RWait? || pc.RActive? || pc.RFallback? || pc.RPrevious?
    ensures ThreadOk(s.d, next)
  {
    hide Placed, CacheOk, Excluded, PublishedOk, CommittedOk;
    assert ThreadOk(s.d, s.threads[t]);
  }

  /** Collecting the next active shard. */
  lemma ListActive(d: Data, items: Listing, a: nat, b: nat, more: Listing)
    requires Placed(d) && a < |d.active| && b == 0 && Listed(d, items, a, b)
    requires items <= more && Enumerates(more[|items|..], TableOf(d.active[a]))
    ensures Listed(d, more, a + 1, b)
  {
    var part := more[|items|..];
    assert more == items + part;
    forall p
      ensures p in more <==> InFirst(d, p, a + 1, b)
      ensures !(p in items && p in part)
    {
      assert p in more <==> p in items || p in part;
      assert p in part <==> Lookup(TableOf(d.active[a]), p.0) == Some(p.1);
      assert p.0 in TableOf(d.active[a]) ==> ActiveIndex(d, p.0) == a;
    }
    ListedApart(d, items, part, TableOf(d.active[a]), a, b);
  }

  lemma ListPrevious(d: Data, items: Listing, a: nat, b: nat, more: Listing)
    requires Placed(d) && a == |d.active| && b < |d.previous| && Listed(d, items, a, b)
    requires items <= more && Enumerates(more[|items|..], TableOf(d.previous[b]))
    ensures Listed(d, more, a, b + 1)
  {
    var part := more[|items|..];
    assert more == items + part;
    forall p
      ensures p in more <==> InFirst(d, p, a, b + 1)
    {
      assert p in more <==> p in items || p in part;
      assert p in part <==> Lookup(TableOf(d.previous[b]), p.0) == Some(p.1);
      assert p.0 in TableOf(d.previous[b]) ==> IndexOf(d.hash, p.0, |d.previous|) == b;
    }
    ListedApart(d, items, part, TableOf(d.previous[b]), a, b);
  }

  /** Two listings without common keys, one after the other, repeat no key. */
  lemma ListedApart(d: Data, items: Listing, part: Listing, t: Table, a: nat, b: nat)
    requires |d.active| > 0 && Listed(d, items, a, b) && Enumerates(part, t)
    requires forall k :: k in t ==> !KeyInFirst(d, k, a, b)
    ensures forall x, y :: 0 <= x < y < |items + part| ==> (items + part)[x].0 != (items + part)[y].0
  {
    var all := items + part;
    forall x, y | 0 <= x < y < |all| ensures all[x].0 != all[y].0 {
      if x < |items| <= y {
        assert all[x] in items && all[y] in part;
        assert InFirst(d, all[x], a, b);
      }
    }
  }

  /** Some binding of the key has been listed. */
  ghost predicate KeyInFirst(d: Data, k: Key, a: nat, b: nat)
    requires |d.active| > 0
  {
    || (ActiveIndex(d, k) < a && Find(d.hash, d.active, k).Some?)
    || (|d.previous| > 0 && IndexOf(d.hash, k, |d.previous|) < b && Find(d.hash, d.previous, k).Some?)
  }

  lemma BuilderMoveOk(s: State, t: nat, next: Thread)
    requires Inv(s) && t < |s.threads| && Moves(s, t, s.threads[t], next)
    requires var pc := s.threads[t]; pc.BGate? || pc.BRoute? || pc.BDirectory? || pc.BLock? || pc.BCollect?
    ensures ThreadOk(s.d, next)
  {
    var pc := s.threads[t];
    assert ThreadOk(s.d, pc);
    if pc.BCollect? {
      if pc.a < |s.d.active| {
        ListActive(s.d, pc.items, pc.a, pc.b, next.items);
      } else if pc.b < |s.d.previous| {
        ListPrevious(s.d, pc.items, pc.a, pc.b, next.items);
      } else {
        CollectedAll(s, t);
      }
    }
  }

  /** A complete collection lists the published and the committed map. */
  lemma CollectedAll(s: State, t: nat)
    requires Inv(s) && t < |s.threads| && s.threads[t].BCollect?
    requires s.threads[t].a == |s.d.active| && s.threads[t].b == |s.d.previous|
    ensures s.threads[t].epoch == s.d.epoch
    ensures Enumerates(s.threads[t].items, s.d.published) && s.d.published == s.d.committed
    ensures forall k :: Lookup(s.d.committed, k) == Live(s.d, k)
  {
    hide ThreadsOk, PublishedOk, CommittedOk, Excluded;
    var pc := s.threads[t];
    assert ThreadOk(s.d, pc) by { CollectOk(s, t); }
    forall k ensures Lookup(s.d.committed, k) == Lookup(s.d.published, k) == Live(s.d, k) {
      BuilderSees(s, t, k);
    }
    SameLookups(s.d.published, s.d.committed);
    forall p
      ensures p in pc.items <==> p.0 in s.d.published && s.d.published[p.0] == p.1
    {
      assert p in pc.items <==> InFirst(s.d, p, pc.a, pc.b);
      assert Lookup(s.d.published, p.0) == Live(s.d, p.0);
    }
  }

  lemma CollectOk(s: State, t: nat)
    requires Inv(s) && t < |s.threads|
    ensures ThreadOk(s.d, s.threads[t])
  {
  }

  /** Taking routing exclusively waits for every writer to finish. */
  lemma ExclusiveMoveOk(s: State, t: nat)
    requires Inv(s) && t < |s.threads| && s.threads[t].XRoute? && Available(s, t, Route, Exclusive)
    ensures Shrunk(s.d)
  {
    hide ThreadsOk, Placed, PublishedOk, Excluded;
    forall k ensures Lookup(s.d.published, k) == Lookup(s.d.committed, k) {
      assert Settled(s, ActiveIndex(s.d, k)) by {
        forall u | 0 <= u < |s.threads| ensures !DirtyIn(s.threads[u], ActiveIndex(s.d, k)) {
          assert u != t ==> Compatible(Holds(s.threads[u], Route), Exclusive);
        }
      }
    }
  }

  lemma MoveOk(s: State, t: nat, next: Thread)
    requires Inv(s) && t < |s.threads| && Moves(s, t, s.threads[t], next)
    ensures ThreadOk(s.d, next)
  {
    hide Excluded, PublishedOk, CommittedOk, Placed;
    var pc := s.threads[t];
    if pc.WRoute? || pc.WResolve? || pc.WLock? || pc.WRelease? {
      WriterMoveOk(s, t, next);
    } else if pc.RRoute? || pc.RDirectory? || pc.RLook? || pc.RWait? || pc.RActive? || pc.RFallback? || pc.RPrevious? {
      ReaderMoveOk(s, t, next);
    } else if pc.BGate? || pc.BRoute? || pc.BDirectory? || pc.BLock? || pc.BCollect? {
      BuilderMoveOk(s, t, next);
    } else if pc.XRoute? {
      ExclusiveMoveOk(s, t);
    }
  }

  // ------------------------------------------------------------------------------ views

  lemma QuietBack(s: State, s': State, t: nat, k: Key)
    requires Alters(s, s', t) && Quiet(s', k) && !PendingIn(s.threads[t], k)
    ensures Quiet(s, k)
  {
    forall u | 0 <= u < |s.threads| ensures !PendingIn(s.threads[u], k) {
      assert !PendingIn(s'.threads[u], k);
    }
  }

  lemma SettledBack(s: State, s': State, t: nat, i: nat)
    requires Alters(s, s', t) && Settled(s', i) && !DirtyIn(s.threads[t], i)
    ensures Settled(s, i)
  {
    forall u | 0 <= u < |s.threads| ensures !DirtyIn(s.threads[u], i) {
      assert !DirtyIn(s'.threads[u], i);
    }
  }

  lemma LocalKeeps(s: State, s': State, t: nat)
    requires Inv(s) && t < |s.threads| == |s'.threads| && Local(s, s', t)
    ensures Inv(s')
  {
    hide Placed, CacheOk, ThreadOk, Moves;
    MoveTakesFairly(s, t, s'.threads[t]);
    KeepExcluded(s, s', t);
    MoveOk(s, t, s'.threads[t]);
    assert ThreadsOk(s');
    CleanMover(s, t, s'.threads[t]);
    forall k | Quiet(s', k) ensures Lookup(s'.d.published, k) == Live(s'.d, k) {
      QuietBack(s, s', t, k);
    }
    forall k | Settled(s', ActiveIndex(s'.d, k)) ensures Lookup(s'.d.committed, k) == Lookup(s'.d.published, k) {
      SettledBack(s, s', t, ActiveIndex(s.d, k));
    }
  }

  lemma CleanMover(s: State, t: nat, next: Thread)
    requires |s.d.active| > 0 && t < |s.threads| && Moves(s, t, s.threads[t], next)
    ensures forall k :: !PendingIn(s.threads[t], k)
    ensures forall i :: !DirtyIn(s.threads[t], i)
  {
  }
}
