/** Whole runs of completed metadata hooks: what the index knows of a key at the end. */
module EvictionHooks {
  import opened Domain
  import opened EvictionIndex

  datatype Hook =
    | Insert(key: Key, weight: nat, replaced: bool)
    | Read(key: Key, hit: bool)
    | Remove(key: Key)

  /** A hook that uses a tracked key without making it new. */
  predicate Uses(h: Hook, k: Key) {
    (h.Read? && h.key == k && h.hit) || (h.Insert? && h.key == k && h.replaced)
  }

  /** A hook that makes a key new, or forgets it. */
  predicate Renews(h: Hook, k: Key) {
    (h.Insert? && h.key == k && !h.replaced) || (h.Remove? && h.key == k)
  }

  /** The hooks between `p` and `n` that use the key made new at `p`. */
  function UsesSince(script: seq<Hook>, p: nat, n: nat, k: Key): set<int>
    requires n <= |script|
  {
    set q | p < q < n && Uses(script[q], k)
  }

  /** Position `p` made its key new, and it was neither made new nor forgotten from then to `n`. */
  predicate NewSince(script: seq<Hook>, p: nat, n: nat)
    requires p < n <= |script|
  {
    script[p].Insert? && !script[p].replaced && forall q :: p < q < n ==> !Renews(script[q], script[p].key)
  }

  /** A count that stops at the largest frequency. */
  function Capped(n: nat): nat {
    if n < MAX_FREQUENCY then n else MAX_FREQUENCY
  }

  /** What the index knows of the key made new at `p`, after `n` hooks. */
  ghost predicate Known(script: seq<Hook>, p: nat, n: nat, tracked: Index, start: nat)
    requires p < n <= |script|
  {
    var k := script[p].key;
    && k in tracked
    && tracked[k].frequency == Capped(1 + |UsesSince(script, p, n, k)|)
    && tracked[k].inserted >= start
  }

  ghost predicate AllKnown(script: seq<Hook>, n: nat, tracked: Index, start: nat)
    requires n <= |script|
  {
    forall p: nat :: p < n && NewSince(script, p, n) ==> Known(script, p, n, tracked, start)
  }

  lemma UsesMore(script: seq<Hook>, p: nat, n: nat, k: Key)
    requires p < n < |script|
    ensures |UsesSince(script, p, n + 1, k)| == |UsesSince(script, p, n, k)| + if Uses(script[n], k) then 1 else 0
  {
    var a, b := UsesSince(script, p, n, k), UsesSince(script, p, n + 1, k);
    if Uses(script[n], k) {
      assert b == a + {n as int};
    } else {
      assert b == a;
    }
  }

  lemma NothingSince(script: seq<Hook>, n: nat, k: Key)
    requires n < |script|
    ensures UsesSince(script, n, n + 1, k) == {}
  {
  }

  /** What one hook does to the record of a key. */
  ghost predicate Effect(h: Hook, before: Index, after: Index, start: nat) {
    && (forall k :: k != h.key ==> Lookup(after, k) == Lookup(before, k))
    && (h.Insert? && !h.replaced ==> h.key in after && after[h.key].frequency == 1 && after[h.key].inserted >= start)
    && (Uses(h, h.key) && h.key in before ==>
          && h.key in after && after[h.key].inserted == before[h.key].inserted
          && after[h.key].frequency == (if before[h.key].frequency < MAX_FREQUENCY then before[h.key].frequency + 1
                                        else before[h.key].frequency))
    && (h.Read? && !h.hit ==> after == before)
  }

  lemma KnownMore(script: seq<Hook>, p: nat, n: nat, before: Index, after: Index, start: nat)
    requires n < |script| && AllKnown(script, n, before, start) && Effect(script[n], before, after, start)
    requires p < n + 1 && NewSince(script, p, n + 1)
    ensures Known(script, p, n + 1, after, start)
  {
    var k, h := script[p].key, script[n];
    if p == n {
      NothingSince(script, n, k);
    } else {
      assert NewSince(script, p, n);
      assert Known(script, p, n, before, start);
      assert !Renews(h, k);
      UsesMore(script, p, n, k);
      assert h.key != k ==> Lookup(after, k) == Lookup(before, k);
    }
  }

  method PerformHook(s: LifecycleState, h: Hook, ghost start: nat)
    requires s.Valid() && start <= s.sequence
    modifies s`stripes, s`entries, s`sequence, s`tracked
    ensures s.Valid() && start <= s.sequence && Effect(h, old(s.tracked), s.tracked, start)
  {
    hide LifecycleState.Valid, LifecycleState.Genuine, Inserted, Touched;
    match h
    case Insert(k, weight, replaced) => s.RecordInsert(k, weight, replaced);
    case Read(k, hit) => s.RecordRead(k, hit);
    case Remove(k) => s.RecordRemove(k);
  }

  /**
   * In any run of completed hooks, a key that was inserted new and neither made new nor removed since is
   * tracked, with a frequency of one plus the hits and replacements since, up to saturation.
   */
  method RunHooks(s: LifecycleState, script: seq<Hook>)
    requires s.Valid()
    modifies s`stripes, s`entries, s`sequence, s`tracked
    ensures s.Valid()
    ensures forall p: nat :: p < |script| && NewSince(script, p, |script|) ==>
              && script[p].key in s.tracked
              && s.tracked[script[p].key].frequency == Capped(1 + |UsesSince(script, p, |script|, script[p].key)|)
              && s.tracked[script[p].key].inserted >= old(s.sequence)
  {
    hide LifecycleState.Valid, Effect, Known, NewSince;
    ghost var start := s.sequence;
    var n := 0;
    while n < |script|
      invariant 0 <= n <= |script| && s.Valid() && start <= s.sequence
      invariant AllKnown(script, n, s.tracked, start)
    {
      ghost var before := s.tracked;
      PerformHook(s, script[n], start);
      ghost var next := n + 1;
      forall p: nat | p < next && NewSince(script, p, next) ensures Known(script, p, next, s.tracked, start) {
        KnownMore(script, p, n, before, s.tracked, start);
      }
      n := n + 1;
    }
    forall p: nat | p < |script| && NewSince(script, p, |script|)
      ensures && script[p].key in s.tracked
              && s.tracked[script[p].key].frequency == Capped(1 + |UsesSince(script, p, |script|, script[p].key)|)
              && s.tracked[script[p].key].inserted >= start
    {
      KnownMeans(script, p, |script|, s.tracked, start);
    }
  }

  lemma KnownMeans(script: seq<Hook>, p: nat, n: nat, tracked: Index, start: nat)
    requires p < n <= |script| && Known(script, p, n, tracked, start)
    ensures var k := script[p].key;
            k in tracked && tracked[k].frequency == Capped(1 + |UsesSince(script, p, n, k)|) &&
                tracked[k].inserted >= start
  {
  }
}
