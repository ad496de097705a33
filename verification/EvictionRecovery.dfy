/**
 * Metadata recovery over whole runs: data changes, metadata hooks that run or are skipped, late failure
 * marks, whole-map removals, and every kind of maintenance pass (exclusive, shard-local and
 * routing-free), interleaved step by step.
 */
module EvictionRecovery {
  import opened Domain

  /** Weights by key: of the live entries, or of the tracked records. */
  type Weights = map<Key, nat>

  /** Where a thread stands. `sample` is the work number a pass has read and may acknowledge. */
  datatype Phase =
    | Idle
    // An operation on one key, under shared routing and the key's shard guard, with its ticket taken.
    | Started(key: Key)
    | Committed(key: Key)
    // A maintenance pass under exclusive routing, with its ticket taken.
    | Entered(sample: Option<nat>)
    | Scanned(sample: Option<nat>, scan: Weights)
    | Noted(sample: Option<nat>, scan: Weights, seen: nat)
    | Repaired(sample: Option<nat>)
    | Evicting(sample: Option<nat>, key: Key)
    // A maintenance pass under shared routing, which evicts under the key's shard guard.
    | Local(sample: Option<nat>)
    | LocalEvicting(sample: Option<nat>, key: Key)
    // A pass that looks at counters only, without routing and without a ticket.
    | Sampled(sample: Option<nat>)
    // Retain or clear under exclusive routing, with a ticket; `removed` keys still miss their hooks.
    | Bulk(removed: set<Key>)
    // A pass that is over and still has to acknowledge what it sampled.
    | Leaving(sample: Option<nat>)

  /** `broken` records, for each key whose hook was skipped since the last repair, the failure's number. */
  datatype State = State(
    live: Weights,
    tracked: Weights,
    dirty: nat,
    repaired: nat,
    work: nat,
    maintained: nat,
    broken: map<Key, nat>,
    threads: seq<Phase>)

  /** Keys whose data a thread has changed and whose hook it has not yet run. */
  function Outstanding(p: Phase): set<Key> {
    match p
    case Committed(k) => {k}
    case Evicting(_, k) => {k}
    case LocalEvicting(_, k) => {k}
    case Bulk(removed) => removed
    case _ => {}
  }

  /** The key whose shard guard a thread holds, under shared routing. */
  function Guards(p: Phase): Option<Key> {
    if p.Started? || p.Committed? || p.LocalEvicting? then Some(p.key) else None
  }

  predicate Shares(p: Phase) {
    p.Started? || p.Committed? || p.Local? || p.LocalEvicting?
  }

  predicate Excludes(p: Phase) {
    p.Entered? || p.Scanned? || p.Noted? || p.Repaired? || p.Evicting? || p.Bulk?
  }

  /** Exclusive routing excludes everybody else; a shard guard excludes other work on the key. */
  predicate Compatible(p: Phase, q: Phase) {
    && (Excludes(p) ==> !Excludes(q) && !Shares(q))
    && (Excludes(q) ==> !Excludes(p) && !Shares(p))
    && (Guards(p).Some? ==> Guards(p) != Guards(q))
  }

  /** The work number a pass has sampled. */
  function SampleOf(p: Phase): Option<nat> {
    match p
    case Idle => None
    case Started(_) => None
    case Committed(_) => None
    case Bulk(_) => None
    case _ => p.sample
  }

  // --------------------------------------------------------------------------------- steps

  function To(s: State, t: nat, p: Phase): State
    requires t < |s.threads|
  {
    s.(threads := s.threads[t := p])
  }

  /** Everybody else leaves a thread the guards of `p`. */
  ghost predicate Free(s: State, t: nat, p: Phase) {
    forall u :: 0 <= u < |s.threads| && u != t ==> Compatible(p, s.threads[u])
  }

  /** Takes shared routing, the key's shard guard and a mutation ticket. */
  ghost predicate Begin(s: State, s': State, t: nat)
    requires t < |s.threads| == |s'.threads|
  {
    var p := s'.threads[t];
    s.threads[t].Idle? && p.Started? && Free(s, t, p) && s' == To(s, t, p).(work := s.work + 1)
  }

  /** The data changes: at most the binding of the operation's key. */
  ghost predicate Commit(s: State, s': State, t: nat)
    requires t < |s.threads|
  {
    s.threads[t].Started? && s' == To(s, t, Committed(s.threads[t].key)).(live := s'.live)
    && forall k :: k != s.threads[t].key ==> Lookup(s'.live, k) == Lookup(s.live, k)
  }

  /** The hook runs and the ticket is finished. */
  ghost predicate Hook(s: State, s': State, t: nat)
    requires t < |s.threads|
  {
    s.threads[t].Committed? && s' == To(s, t, Idle).(tracked := s'.tracked)
    && Lookup(s'.tracked, s.threads[t].key) == Lookup(s.live, s.threads[t].key)
    && forall k :: k != s.threads[t].key ==> Lookup(s'.tracked, k) == Lookup(s.tracked, k)
  }

  /** User code stops a thread that holds a ticket: its drop marks the index dirty. */
  ghost predicate Fail(s: State, s': State, t: nat)
    requires t < |s.threads|
  {
    var p := s.threads[t];
    (Shares(p) || Excludes(p)) && s' == To(s, t, Idle).(
      dirty := s.dirty + 1, broken := s.broken + map k | k in Outstanding(p) :: s.dirty + 1)
  }

  /** An unwinding operation marks the index dirty after releasing its guards. */
  ghost predicate LateMark(s: State, s': State, t: nat)
    requires t < |s.threads|
  {
    s.threads[t].Idle? && s' == s.(dirty := s.dirty + 1, work := s.work + 1)
  }

  /** Work is announced ahead of a change of topology or of a waiting pass. */
  ghost predicate Announce(s: State, s': State, t: nat)
    requires t < |s.threads|
  {
    s.threads[t].Idle? && s' == s.(work := s.work + 1)
  }

  ghost predicate OperationStep(s: State, s': State, t: nat)
    requires t < |s.threads| == |s'.threads|
  {
    Begin(s, s', t) || Commit(s, s', t) || Hook(s, s', t) || Fail(s, s', t) || LateMark(s, s', t) || Announce(s, s', t)
  }

  // The exclusive pass.

  ghost predicate Enter(s: State, s': State, t: nat)
    requires t < |s.threads|
  {
    s.threads[t].Idle? && Free(s, t, Entered(None)) && s' == To(s, t, Entered(None)).(work := s.work + 1)
  }

  /** The work number is sampled before the repair or after it, but before the first eviction. */
  ghost predicate Observe(s: State, s': State, t: nat)
    requires t < |s.threads|
  {
    || (s.threads[t] == Entered(None) && s' == To(s, t, Entered(Some(s.work))))
    || (s.threads[t] == Repaired(None) && s' == To(s, t, Repaired(Some(s.work))))
  }

  /**
   * A dirty index is rebuilt from a scan of the live entries, perhaps under one more ticket; a clean one is
   * taken as it is.
   */
  ghost predicate Scan(s: State, s': State, t: nat)
    requires t < |s.threads|
  {
    var p := s.threads[t];
    p.Entered? && s.work <= s'.work <= s.work + 1
    && s' == To(s, t, if s.dirty != s.repaired then Scanned(p.sample, s.live) else Repaired(p.sample)).(work := s'.work)
  }

  ghost predicate Note(s: State, s': State, t: nat)
    requires t < |s.threads|
  {
    var p := s.threads[t];
    p.Scanned? && s' == To(s, t, Noted(p.sample, p.scan, s.dirty))
  }

  ghost predicate Publish(s: State, s': State, t: nat)
    requires t < |s.threads|
  {
    var p := s.threads[t];
    p.Noted? && s' == To(s, t, Repaired(p.sample)).(tracked := p.scan, repaired := p.seen, broken := map[])
  }

  /** A pass evicts after sampling; the data goes first. */
  ghost predicate Evict(s: State, s': State, t: nat)
    requires t < |s.threads| == |s'.threads|
  {
    var p, q := s.threads[t], s'.threads[t];
    p.Repaired? && p.sample.Some? && q.Evicting? && q.sample == p.sample && q.key in s.live
    && s' == To(s, t, q).(live := s.live - {q.key})
  }

  ghost predicate RecordEviction(s: State, s': State, t: nat)
    requires t < |s.threads|
  {
    var p := s.threads[t];
    p.Evicting? && s' == To(s, t, Repaired(p.sample)).(tracked := s.tracked - {p.key})
  }

  ghost predicate Leave(s: State, s': State, t: nat)
    requires t < |s.threads|
  {
    var p := s.threads[t];
    p.Repaired? && p.sample.Some? && s' == To(s, t, Leaving(p.sample))
  }

  ghost predicate PassStep(s: State, s': State, t: nat)
    requires t < |s.threads| == |s'.threads|
  {
    || Enter(s, s', t) || Observe(s, s', t) || Scan(s, s', t) || Note(s, s', t) || Publish(s, s', t)
    || Evict(s, s', t) || RecordEviction(s, s', t) || Leave(s, s', t)
  }

  // The shard-local pass.

  ghost predicate LocalEnter(s: State, s': State, t: nat)
    requires t < |s.threads|
  {
    s.threads[t].Idle? && s.dirty == s.repaired && Free(s, t, Local(None))
    && s' == To(s, t, Local(None)).(work := s.work + 1)
  }

  ghost predicate LocalObserve(s: State, s': State, t: nat)
    requires t < |s.threads|
  {
    s.threads[t] == Local(None) && s' == To(s, t, Local(Some(s.work)))
  }

  /** Takes the key's shard guard and removes the entry, beside operations on other keys. */
  ghost predicate LocalEvict(s: State, s': State, t: nat)
    requires t < |s.threads| == |s'.threads|
  {
    var p, q := s.threads[t], s'.threads[t];
    p.Local? && p.sample.Some? && q.LocalEvicting? && q.sample == p.sample && q.key in s.live && Free(s, t, q)
    && s' == To(s, t, q).(live := s.live - {q.key})
  }

  ghost predicate LocalRecord(s: State, s': State, t: nat)
    requires t < |s.threads|
  {
    var p := s.threads[t];
    p.LocalEvicting? && s' == To(s, t, Local(p.sample)).(tracked := s.tracked - {p.key})
  }

  /** The pass acknowledges, or leaves the rest to an exclusive one. */
  ghost predicate LocalLeave(s: State, s': State, t: nat)
    requires t < |s.threads|
  {
    var p := s.threads[t];
    p.Local? && p.sample.Some? && (s' == To(s, t, Leaving(p.sample)) || s' == To(s, t, Idle))
  }

  // The routing-free pass, and the end of every pass.

  ghost predicate Sample(s: State, s': State, t: nat)
    requires t < |s.threads|
  {
    s.threads[t].Idle? && s' == To(s, t, Sampled(Some(s.work)))
  }

  /** A clean index within its limits needs nothing but the acknowledgement. */
  ghost predicate Check(s: State, s': State, t: nat)
    requires t < |s.threads|
  {
    var p := s.threads[t];
    p.Sampled? && (s' == To(s, t, Idle) || (s.dirty == s.repaired && s' == To(s, t, Leaving(p.sample))))
  }

  ghost predicate Acknowledge(s: State, s': State, t: nat)
    requires t < |s.threads|
  {
    var p := s.threads[t];
    p.Leaving? && p.sample.Some?
    && s' == To(s, t, Idle).(maintained := if p.sample.value > s.maintained then p.sample.value else s.maintained)
  }

  ghost predicate LocalStep(s: State, s': State, t: nat)
    requires t < |s.threads| == |s'.threads|
  {
    || LocalEnter(s, s', t) || LocalObserve(s, s', t) || LocalEvict(s, s', t) || LocalRecord(s, s', t) ||
       LocalLeave(s, s', t)
    || Sample(s, s', t) || Check(s, s', t) || Acknowledge(s, s', t)
  }

  // Retain and clear.

  ghost predicate BulkEnter(s: State, s': State, t: nat)
    requires t < |s.threads|
  {
    s.threads[t].Idle? && Free(s, t, Bulk({})) && s' == To(s, t, Bulk({})).(work := s.work + 1)
  }

  /** Entries of one shard go under one ticket: one by one in retain, all at once in clear. */
  ghost predicate BulkRemove(s: State, s': State, t: nat)
    requires t < |s.threads| == |s'.threads|
  {
    var q := s'.threads[t];
    s.threads[t] == Bulk({}) && q.Bulk? && q.removed <= s.live.Keys && s.work <= s'.work <= s.work + 1
    && s' == To(s, t, q).(live := s.live - q.removed, work := s'.work)
  }

  ghost predicate BulkHook(s: State, s': State, t: nat, k: Key)
    requires t < |s.threads|
  {
    var p := s.threads[t];
    p.Bulk? && k in p.removed && s' == To(s, t, Bulk(p.removed - {k})).(tracked := s.tracked - {k})
  }

  ghost predicate BulkLeave(s: State, s': State, t: nat)
    requires t < |s.threads|
  {
    s.threads[t] == Bulk({}) && s' == To(s, t, Idle)
  }

  ghost predicate BulkStep(s: State, s': State, t: nat)
    requires t < |s.threads| == |s'.threads|
  {
    BulkEnter(s, s', t) || BulkRemove(s, s', t) || (exists k :: BulkHook(s, s', t, k)) || BulkLeave(s, s', t)
  }

  ghost predicate StepOf(s: State, s': State, t: nat)
    requires t < |s.threads| == |s'.threads|
  {
    OperationStep(s, s', t) || PassStep(s, s', t) || LocalStep(s, s', t) || BulkStep(s, s', t)
  }

  ghost predicate Next(s: State, s': State) {
    |s'.threads| == |s.threads| && exists t :: 0 <= t < |s.threads| && StepOf(s, s', t)
  }

  ghost predicate Init(s: State) {
    && s.live == s.tracked && s.dirty == s.repaired && s.work == s.maintained && s.broken == map[]
    && forall t :: 0 <= t < |s.threads| ==> s.threads[t] == Idle
  }

  ghost predicate Run(states: seq<State>) {
    |states| > 0 && Init(states[0]) && forall i :: 0 <= i < |states| - 1 ==> Next(states[i], states[i + 1])
  }

  // ----------------------------------------------------------------------------- invariant

  /** No hook of `k` is outstanding. */
  ghost predicate Quiet(s: State, k: Key) {
    forall t :: 0 <= t < |s.threads| ==> k !in Outstanding(s.threads[t])
  }

  ghost predicate Guarded(s: State) {
    forall t, u :: 0 <= t < |s.threads| && 0 <= u < |s.threads| && t != u ==> Compatible(s.threads[t], s.threads[u])
  }

  ghost predicate PhaseOk(s: State, p: Phase) {
    && (SampleOf(p).Some? ==> SampleOf(p).value <= s.work)
    && match p
       case Scanned(_, scan) => scan == s.live
       case Noted(_, scan, seen) =>
         scan == s.live && s.repaired <= seen <= s.dirty && forall k :: k in s.broken ==> s.broken[k] <= seen
       case Evicting(_, k) => k !in s.live
       case LocalEvicting(_, k) => k !in s.live
       case Bulk(removed) => removed !! s.live.Keys
       case _ => true
  }

  ghost predicate PhasesOk(s: State) {
    forall t :: 0 <= t < |s.threads| ==> PhaseOk(s, s.threads[t])
  }

  ghost predicate Numbered(s: State) {
    s.repaired <= s.dirty && s.maintained <= s.work && forall k :: k in s.broken ==> s.repaired < s.broken[k] <= s.dirty
  }

  /** Only keys with a skipped or outstanding hook may disagree. */
  ghost predicate Agreeing(s: State) {
    forall k :: k !in s.broken && Quiet(s, k) ==> Lookup(s.tracked, k) == Lookup(s.live, k)
  }

  ghost predicate Inv(s: State) {
    Guarded(s) && PhasesOk(s) && Numbered(s) && Agreeing(s)
  }

  lemma InitInv(s: State)
    requires Init(s)
    ensures Inv(s)
  {
  }

  ghost predicate Alters(s: State, s': State, t: nat) {
    t < |s.threads| == |s'.threads| && forall u :: 0 <= u < |s.threads| && u != t ==> s'.threads[u] == s.threads[u]
  }

  lemma OperationAlters(s: State, s': State, t: nat)
    requires t < |s.threads| == |s'.threads| && OperationStep(s, s', t)
    ensures Alters(s, s', t) && s'.dirty >= s.dirty && s'.repaired == s.repaired && s'.maintained == s.maintained
  {
  }

  lemma PassAlters(s: State, s': State, t: nat)
    requires t < |s.threads| == |s'.threads| && PassStep(s, s', t)
    ensures Alters(s, s', t) && s'.dirty == s.dirty && s'.maintained == s.maintained
    ensures s'.repaired == s.repaired || Publish(s, s', t)
  {
  }

  lemma LocalAlters(s: State, s': State, t: nat)
    requires t < |s.threads| == |s'.threads| && LocalStep(s, s', t)
    ensures Alters(s, s', t) && s'.dirty == s.dirty && s'.repaired == s.repaired
  {
  }

  lemma BulkAlters(s: State, s': State, t: nat)
    requires t < |s.threads| == |s'.threads| && BulkStep(s, s', t)
    ensures Alters(s, s', t) && s'.dirty == s.dirty && s'.repaired == s.repaired && s'.maintained == s.maintained
  {
  }

  /** A step moves one thread; failures only accumulate, and only a published repair clears them. */
  lemma StepAlters(s: State, s': State, t: nat)
    requires t < |s.threads| == |s'.threads| && StepOf(s, s', t)
    ensures Alters(s, s', t) && s'.dirty >= s.dirty
    ensures s'.repaired == s.repaired || Publish(s, s', t)
  {
    hide OperationStep, PassStep, LocalStep, BulkStep;
    if OperationStep(s, s', t) {
      OperationAlters(s, s', t);
    } else if PassStep(s, s', t) {
      PassAlters(s, s', t);
    } else if LocalStep(s, s', t) {
      LocalAlters(s, s', t);
    } else {
      BulkAlters(s, s', t);
    }
  }

  // What a step of each kind does to guards, numbers, the mover's own facts and agreement.

  /** A moving thread takes only guards that others leave to it. */
  ghost predicate Fits(s: State, s': State, t: nat, u: nat)
    requires t < |s.threads| == |s'.threads| && u < |s.threads|
  {
    Compatible(s'.threads[t], s.threads[u]) && Compatible(s.threads[u], s'.threads[t])
  }

  lemma OperationFits(s: State, s': State, t: nat, u: nat)
    requires Guarded(s) && t < |s.threads| == |s'.threads| && OperationStep(s, s', t) && u < |s.threads| && u != t
    ensures Fits(s, s', t, u)
  {
    assert Compatible(s.threads[t], s.threads[u]);
  }

  lemma PassFits(s: State, s': State, t: nat, u: nat)
    requires Guarded(s) && t < |s.threads| == |s'.threads| && PassStep(s, s', t) && u < |s.threads| && u != t
    ensures Fits(s, s', t, u)
  {
    assert Compatible(s.threads[t], s.threads[u]);
  }

  lemma LocalFits(s: State, s': State, t: nat, u: nat)
    requires Guarded(s) && t < |s.threads| == |s'.threads| && LocalStep(s, s', t) && u < |s.threads| && u != t
    ensures Fits(s, s', t, u)
  {
    assert Compatible(s.threads[t], s.threads[u]);
  }

  lemma BulkFits(s: State, s': State, t: nat, u: nat)
    requires Guarded(s) && t < |s.threads| == |s'.threads| && BulkStep(s, s', t) && u < |s.threads| && u != t
    ensures Fits(s, s', t, u)
  {
    assert Compatible(s.threads[t], s.threads[u]);
  }

  lemma StepGuarded(s: State, s': State, t: nat)
    requires Guarded(s) && t < |s.threads| == |s'.threads| && StepOf(s, s', t)
    ensures Guarded(s')
  {
    hide OperationStep, PassStep, LocalStep, BulkStep, Compatible;
    StepAlters(s, s', t);
    forall u | 0 <= u < |s.threads| && u != t ensures Fits(s, s', t, u) {
      if OperationStep(s, s', t) {
        OperationFits(s, s', t, u);
      } else if PassStep(s, s', t) {
        PassFits(s, s', t, u);
      } else if LocalStep(s, s', t) {
        LocalFits(s, s', t, u);
      } else {
        BulkFits(s, s', t, u);
      }
    }
    forall u, v | 0 <= u < |s.threads| && 0 <= v < |s.threads| && u != v
      ensures Compatible(s'.threads[u], s'.threads[v])
    {
      assert u == t ==> Fits(s, s', t, v);
      assert v == t ==> Fits(s, s', t, u);
      assert Compatible(s.threads[u], s.threads[v]);
    }
  }

  /** The numbers stay ordered, and the mover's facts are right for its new position. */
  ghost predicate OwnKept(s': State, t: nat) {
    t < |s'.threads| && Numbered(s') && PhaseOk(s', s'.threads[t])
  }

  lemma OperationOwn(s: State, s': State, t: nat)
    requires Numbered(s) && t < |s.threads| == |s'.threads| && PhaseOk(s, s.threads[t]) && OperationStep(s, s', t)
    ensures OwnKept(s', t)
  {
  }

  lemma PassOwn(s: State, s': State, t: nat)
    requires Numbered(s) && t < |s.threads| == |s'.threads| && PhaseOk(s, s.threads[t]) && PassStep(s, s', t)
    ensures OwnKept(s', t)
  {
  }

  lemma LocalOwn(s: State, s': State, t: nat)
    requires Numbered(s) && t < |s.threads| == |s'.threads| && PhaseOk(s, s.threads[t]) && LocalStep(s, s', t)
    ensures OwnKept(s', t)
  {
  }

  lemma BulkOwn(s: State, s': State, t: nat)
    requires Numbered(s) && t < |s.threads| == |s'.threads| && PhaseOk(s, s.threads[t]) && BulkStep(s, s', t)
    ensures OwnKept(s', t)
  {
  }

  lemma StepOwn(s: State, s': State, t: nat)
    requires PhasesOk(s) && Numbered(s) && t < |s.threads| == |s'.threads| && StepOf(s, s', t)
    ensures OwnKept(s', t)
  {
    hide OperationStep, PassStep, LocalStep, BulkStep, PhaseOk, Numbered;
    assert PhaseOk(s, s.threads[t]);
    if OperationStep(s, s', t) {
      OperationOwn(s, s', t);
    } else if PassStep(s, s', t) {
      PassOwn(s, s', t);
    } else if LocalStep(s, s', t) {
      LocalOwn(s, s', t);
    } else {
      BulkOwn(s, s', t);
    }
  }

  /** What another thread knows survives a step, because it holds the guards that protect it. */
  lemma OperationOther(s: State, s': State, t: nat, q: Phase)
    requires Numbered(s) && t < |s.threads| == |s'.threads| && PhaseOk(s, q) && Compatible(s.threads[t], q)
    requires Compatible(s'.threads[t], q) && OperationStep(s, s', t)
    ensures PhaseOk(s', q)
  {
    if q.LocalEvicting? {
      assert Commit(s, s', t) ==> Lookup(s'.live, q.key) == Lookup(s.live, q.key);
    }
  }

  lemma PassOther(s: State, s': State, t: nat, q: Phase)
    requires Numbered(s) && t < |s.threads| == |s'.threads| && PhaseOk(s, q) && Compatible(s.threads[t], q)
    requires Compatible(s'.threads[t], q) && PassStep(s, s', t)
    ensures PhaseOk(s', q)
  {
  }

  lemma LocalOther(s: State, s': State, t: nat, q: Phase)
    requires Numbered(s) && t < |s.threads| == |s'.threads| && PhaseOk(s, q) && Compatible(s.threads[t], q)
    requires Compatible(s'.threads[t], q) && LocalStep(s, s', t)
    ensures PhaseOk(s', q)
  {
  }

  lemma BulkOther(s: State, s': State, t: nat, q: Phase)
    requires Numbered(s) && t < |s.threads| == |s'.threads| && PhaseOk(s, q) && Compatible(s.threads[t], q)
    requires Compatible(s'.threads[t], q) && BulkStep(s, s', t)
    ensures PhaseOk(s', q)
  {
  }

  lemma StepOther(s: State, s': State, t: nat, u: nat)
    requires Guarded(s) && Guarded(s') && PhasesOk(s) && Numbered(s) && Alters(s, s', t) && StepOf(s, s', t)
    requires u < |s.threads| && u != t
    ensures PhaseOk(s', s'.threads[u])
  {
    hide OperationStep, PassStep, LocalStep, BulkStep, PhaseOk, Numbered, Compatible;
    var q := s.threads[u];
    assert PhaseOk(s, q) && s'.threads[u] == q;
    assert Compatible(s.threads[t], q) && Compatible(s'.threads[t], s'.threads[u]);
    if OperationStep(s, s', t) {
      OperationOther(s, s', t, q);
    } else if PassStep(s, s', t) {
      PassOther(s, s', t, q);
    } else if LocalStep(s, s', t) {
      LocalOther(s, s', t, q);
    } else {
      BulkOther(s, s', t, q);
    }
  }

  /** A step leaves the agreement of a key alone, or settles it. */
  ghost predicate Settles(s: State, s': State, t: nat, k: Key)
    requires t < |s.threads| == |s'.threads|
  {
    (k !in Outstanding(s.threads[t]) && k !in s.broken ==> Lookup(s.tracked, k) == Lookup(s.live, k)) ==>
      Lookup(s'.tracked, k) == Lookup(s'.live, k)
  }

  lemma OperationSettles(s: State, s': State, t: nat, k: Key)
    requires t < |s.threads| == |s'.threads| && OperationStep(s, s', t) && PhaseOk(s, s.threads[t])
    requires k !in s'.broken && k !in Outstanding(s'.threads[t])
    ensures Settles(s, s', t, k)
  {
  }

  lemma PassSettles(s: State, s': State, t: nat, k: Key)
    requires t < |s.threads| == |s'.threads| && PassStep(s, s', t) && PhaseOk(s, s.threads[t])
    requires k !in s'.broken && k !in Outstanding(s'.threads[t])
    ensures Settles(s, s', t, k)
  {
  }

  lemma LocalSettles(s: State, s': State, t: nat, k: Key)
    requires t < |s.threads| == |s'.threads| && LocalStep(s, s', t) && PhaseOk(s, s.threads[t])
    requires k !in s'.broken && k !in Outstanding(s'.threads[t])
    ensures Settles(s, s', t, k)
  {
  }

  lemma BulkSettles(s: State, s': State, t: nat, k: Key)
    requires t < |s.threads| == |s'.threads| && BulkStep(s, s', t) && PhaseOk(s, s.threads[t])
    requires k !in s'.broken && k !in Outstanding(s'.threads[t])
    ensures Settles(s, s', t, k)
  {
  }

  lemma StepAgreeing(s: State, s': State, t: nat, k: Key)
    requires PhasesOk(s) && Agreeing(s) && Alters(s, s', t) && StepOf(s, s', t) && k !in s'.broken && Quiet(s', k)
    ensures Lookup(s'.tracked, k) == Lookup(s'.live, k)
  {
    hide OperationStep, PassStep, LocalStep, BulkStep, PhaseOk, Outstanding, Lookup;
    assert PhaseOk(s, s.threads[t]);
    assert k !in Outstanding(s'.threads[t]);
    if k !in Outstanding(s.threads[t]) {
      forall u | 0 <= u < |s.threads| ensures k !in Outstanding(s.threads[u]) {
        assert k !in Outstanding(s'.threads[u]);
      }
      assert Quiet(s, k);
    }
    if OperationStep(s, s', t) {
      OperationSettles(s, s', t, k);
    } else if PassStep(s, s', t) {
      PassSettles(s, s', t, k);
    } else if LocalStep(s, s', t) {
      LocalSettles(s, s', t, k);
    } else {
      BulkSettles(s, s', t, k);
    }
  }

  /** Every step of every thread keeps the invariant. */
  lemma StepKeeps(s: State, s': State, t: nat)
    requires Inv(s) && t < |s.threads| == |s'.threads| && StepOf(s, s', t)
    ensures Inv(s')
  {
    hide StepOf, Guarded, Numbered, PhaseOk, Quiet;
    StepAlters(s, s', t);
    StepGuarded(s, s', t);
    StepOwn(s, s', t);
    forall u | 0 <= u < |s.threads| && u != t ensures PhaseOk(s', s'.threads[u]) {
      StepOther(s, s', t, u);
    }
    forall k | k !in s'.broken && Quiet(s', k) ensures Lookup(s'.tracked, k) == Lookup(s'.live, k) {
      StepAgreeing(s, s', t, k);
    }
  }

  lemma Stepper(states: seq<State>, i: nat) returns (t: nat)
    requires Run(states) && i + 1 < |states|
    ensures t < |states[i].threads| == |states[i + 1].threads| && StepOf(states[i], states[i + 1], t)
  {
    hide StepOf;
    assert Next(states[i], states[i + 1]);
    t :| 0 <= t < |states[i].threads| && StepOf(states[i], states[i + 1], t);
  }

  lemma {:induction false} RunInv(states: seq<State>, i: nat)
    requires Run(states) && i < |states|
    ensures Inv(states[i])
  {
    hide Inv, StepOf;
    if i == 0 {
      InitInv(states[0]);
    } else {
      RunInv(states, i - 1);
      var t := Stepper(states, i - 1);
      StepKeeps(states[i - 1], states[i], t);
    }
  }

  // ------------------------------------------------------------------------------ theorems

  /** Whenever the index is not dirty, it tracks every key without an outstanding hook exactly as it is. */
  lemma CleanMeansAgreed(states: seq<State>, i: nat, k: Key)
    requires Run(states) && i < |states| && states[i].dirty == states[i].repaired && Quiet(states[i], k)
    ensures Lookup(states[i].tracked, k) == Lookup(states[i].live, k)
  {
    RunInv(states, i);
  }

  /** Repairs never run ahead of failures, nor acknowledgements ahead of work. */
  lemma EpochsOrdered(states: seq<State>, i: nat)
    requires Run(states) && i < |states|
    ensures states[i].repaired <= states[i].dirty && states[i].maintained <= states[i].work
  {
    RunInv(states, i);
  }

  /** A repair was published by a pass that had seen failure number `f`. */
  ghost predicate RepairSeeing(s: State, s': State, t: nat, f: nat) {
    t < |s.threads| && Publish(s, s', t) && s.threads[t].Noted? && s.threads[t].seen >= f
  }

  /** A failure keeps the index dirty until a repair that observed it: nothing else clears it. */
  lemma {:induction false} DirtyUntilSeen(states: seq<State>, i: nat, j: nat, f: nat) returns (m: nat, t: nat)
    requires Run(states) && i <= j < |states| && states[i].repaired < f <= states[i].dirty
    ensures states[j].dirty >= f
    ensures states[j].dirty == states[j].repaired ==> i <= m < j && RepairSeeing(states[m], states[m + 1], t, f)
    ensures states[j].repaired >= f ==> i <= m < j && RepairSeeing(states[m], states[m + 1], t, f)
    decreases j
  {
    hide StepOf;
    m, t := 0, 0;
    if i < j {
      m, t := DirtyUntilSeen(states, i, j - 1, f);
      var u := Stepper(states, j - 1);
      StepAlters(states[j - 1], states[j], u);
      if states[j - 1].repaired < f <= states[j].repaired {
        m, t := j - 1, u;
      }
    }
  }

  /** A thread holds a sample of work number `w` or later, and may still acknowledge it. */
  predicate MayAcknowledge(p: Phase, w: nat) {
    SampleOf(p).Some? && SampleOf(p).value >= w
  }

  /** One of the three kinds of pass reads the work number. */
  ghost predicate Samples(s: State, s': State, t: nat)
    requires t < |s.threads|
  {
    Observe(s, s', t) || LocalObserve(s, s', t) || Sample(s, s', t)
  }

  /** A pass sampled work number `w` or later at step `m`. */
  ghost predicate ObservedAt(states: seq<State>, m: nat, t: nat, w: nat) {
    m + 1 < |states| && t < |states[m].threads| && Samples(states[m], states[m + 1], t) && states[m].work >= w
  }

  ghost predicate ObservedBetween(states: seq<State>, i: nat, j: nat, w: nat) {
    exists m: nat, t: nat :: i <= m < j && ObservedAt(states, m, t, w)
  }

  lemma ObservedLonger(states: seq<State>, i: nat, j: nat, w: nat)
    requires ObservedBetween(states, i, j, w)
    ensures ObservedBetween(states, i, j + 1, w)
  {
    hide ObservedAt;
  }

  lemma ObservedNow(states: seq<State>, i: nat, j: nat, t: nat, w: nat)
    requires i <= j && ObservedAt(states, j, t, w)
    ensures ObservedBetween(states, i, j + 1, w)
  {
    hide ObservedAt;
  }

  /** Only a sample is acknowledged, and only sampling makes one. */
  lemma StepAcknowledges(s: State, s': State, t: nat, w: nat)
    requires t < |s.threads| == |s'.threads| && StepOf(s, s', t)
    ensures s.maintained < w <= s'.maintained ==> MayAcknowledge(s.threads[t], w)
    ensures MayAcknowledge(s'.threads[t], w) && !MayAcknowledge(s.threads[t], w) ==> Samples(s, s', t) && s.work >= w
  {
    hide OperationStep, PassStep, LocalStep, BulkStep, Samples, MayAcknowledge;
    if OperationStep(s, s', t) {
      OperationAlters(s, s', t);
      OperationAcknowledges(s, s', t, w);
    } else if PassStep(s, s', t) {
      PassAlters(s, s', t);
      PassAcknowledges(s, s', t, w);
    } else if LocalStep(s, s', t) {
      LocalAcknowledges(s, s', t, w);
    } else {
      BulkAlters(s, s', t);
      BulkAcknowledges(s, s', t, w);
    }
  }

  lemma OperationAcknowledges(s: State, s': State, t: nat, w: nat)
    requires t < |s.threads| == |s'.threads| && OperationStep(s, s', t)
    ensures !MayAcknowledge(s'.threads[t], w)
  {
  }

  lemma BulkAcknowledges(s: State, s': State, t: nat, w: nat)
    requires t < |s.threads| == |s'.threads| && BulkStep(s, s', t)
    ensures !MayAcknowledge(s'.threads[t], w)
  {
  }

  lemma PassAcknowledges(s: State, s': State, t: nat, w: nat)
    requires t < |s.threads| == |s'.threads| && PassStep(s, s', t)
    ensures MayAcknowledge(s'.threads[t], w) && !MayAcknowledge(s.threads[t], w) ==> Samples(s, s', t) && s.work >= w
  {
  }

  lemma LocalAcknowledges(s: State, s': State, t: nat, w: nat)
    requires t < |s.threads| == |s'.threads| && LocalStep(s, s', t)
    ensures s.maintained < w <= s'.maintained ==> MayAcknowledge(s.threads[t], w)
    ensures MayAcknowledge(s'.threads[t], w) && !MayAcknowledge(s.threads[t], w) ==> Samples(s, s', t) && s.work >= w
  {
  }

  /**
   * Newer work is never acknowledged by an older pass, whether it evicts, works shard by shard or only
   * looks at counters: work is acknowledged only through a pass that sampled it after it was announced.
   */
  lemma {:induction false} PendingUntilObserved(states: seq<State>, i: nat, j: nat, w: nat, u: nat)
    requires Run(states) && i <= j < |states| && states[i].work < w && u < |states[j].threads|
    ensures states[j].maintained >= w || MayAcknowledge(states[j].threads[u], w) ==> ObservedBetween(states, i, j, w)
    decreases j
  {
    hide StepOf, ObservedBetween, Samples, MayAcknowledge;
    if i == j {
      RunInv(states, i);
      WorkBound(states[i], u, w);
    } else {
      var t := Stepper(states, j - 1);
      StepAlters(states[j - 1], states[j], t);
      PendingUntilObserved(states, i, j - 1, w, t);
      PendingUntilObserved(states, i, j - 1, w, u);
      StepAcknowledges(states[j - 1], states[j], t, w);
      if ObservedBetween(states, i, j - 1, w) {
        ObservedLonger(states, i, j - 1, w);
      } else if Samples(states[j - 1], states[j], t) && states[j - 1].work >= w {
        assert ObservedAt(states, j - 1, t, w);
        ObservedNow(states, i, j - 1, t, w);
      }
    }
  }

  lemma WorkBound(s: State, u: nat, w: nat)
    requires Inv(s) && u < |s.threads| && s.work < w
    ensures s.maintained < w && !MayAcknowledge(s.threads[u], w)
  {
    assert PhaseOk(s, s.threads[u]);
  }
}
