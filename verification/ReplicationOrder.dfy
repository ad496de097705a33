/**
 * Ordering of replicated writes across clients, as a state machine: one order mutex, handed from the
 * writer to its coordinator and released only after the complete fanout. The coordinator judges the replies
 * as they come.
 */
module ReplicationOrder {
  import opened Domain
  import opened Replication

  /** The remote calls of one operation: made, running, ended well or badly before the deadline, and the verdict. */
  datatype Calls = Calls(
    called: set<nat>,
    live: set<nat>,
    succeeded: set<nat>,
    failed: set<nat>,
    late: bool,
    verdict: Option<Verdict>)

  /** Where one replicated operation stands. */
  datatype Phase =
    | Queued                 // waiting for the order mutex
    | Abandoned              // timed out or cancelled before applying
    | Ordered                // holds the mutex, not yet applied
    | Applied                // applied locally, coordinator not started
    | Unsent                 // applied, but preparing the remote copies failed
    | Fanout(calls: Calls)
    | Finished(calls: Calls)

  /**
   * `primary` logs local applications, `logs[r]` the calls to replica `r`, and `answers` the verdicts callers
   * received.
   */
  datatype State = State(
    quorum: nat,
    phases: seq<Phase>,
    holder: int,
    primary: seq<nat>,
    logs: seq<seq<nat>>,
    answers: map<nat, Verdict>)

  const NO_ONE: int := -1

  predicate InOrder(p: Phase) {
    p.Ordered? || p.Applied? || p.Fanout?
  }

  predicate Sent(p: Phase) {
    p.Fanout? || p.Finished?
  }

  // ------------------------------------------------------------------------------ steps

  function To(s: State, op: nat, p: Phase): State
    requires op < |s.phases|
  {
    s.(phases := s.phases[op := p])
  }

  ghost predicate Acquire(s: State, s': State, op: nat)
    requires op < |s.phases|
  {
    s.phases[op].Queued? && s.holder == NO_ONE && s' == To(s, op, Ordered).(holder := op)
  }

  /** The caller times out or goes away while queued, or while waiting for local locks. */
  ghost predicate GiveUp(s: State, s': State, op: nat)
    requires op < |s.phases|
  {
    || (s.phases[op].Queued? && s' == To(s, op, Abandoned))
    || (s.phases[op].Ordered? && s' == To(s, op, Abandoned).(holder := NO_ONE))
  }

  ghost predicate Apply(s: State, s': State, op: nat)
    requires op < |s.phases|
  {
    s.phases[op].Ordered? && s' == To(s, op, Applied).(primary := s.primary + [op])
  }

  ghost predicate StartFanout(s: State, s': State, op: nat)
    requires op < |s.phases|
  {
    s.phases[op].Applied?
    && s' == To(s, op, Fanout(Calls({}, {}, {}, {}, false, if 1 >= s.quorum then Some(Accepted) else None)))
  }

  /** Preparing the remote copies failed: no call starts. */
  ghost predicate FailFanout(s: State, s': State, op: nat)
    requires op < |s.phases|
  {
    s.phases[op].Applied? && s' == To(s, op, Unsent).(holder := NO_ONE)
  }

  ghost predicate Call(s: State, s': State, op: nat, r: nat)
    requires op < |s.phases| && r < |s.logs|
  {
    var p := s.phases[op];
    p.Fanout? && !p.calls.late && r !in p.calls.called
    && s' == To(s, op, Fanout(p.calls.(called := p.calls.called + {r}, live := p.calls.live + {r}))).(
               logs := s.logs[r := s.logs[r] + [op]])
  }

  /** What replies so far decide: accepted when the quorum is reached, failed when it is out of reach. */
  function Decided(replicas: nat, replies: nat, successes: nat, quorum: nat): Option<Verdict> {
    if 1 + successes >= quorum then Some(Accepted)
    else if replies > 0 && 1 + successes + (replicas - replies) < quorum then Some(QuorumFailed)
    else None
  }

  /** A call ends before the deadline; the coordinator sends its verdict once, as soon as it is certain. */
  function Ended(c: Calls, r: nat, ok: bool, replicas: nat, quorum: nat): Calls {
    var succeeded := if ok then c.succeeded + {r} else c.succeeded;
    var failed := if ok then c.failed else c.failed + {r};
    Calls(c.called, c.live - {r}, succeeded, failed, c.late,
          if c.verdict.Some? then c.verdict else Decided(replicas, |succeeded| + |failed|, |succeeded|, quorum))
  }

  ghost predicate Return(s: State, s': State, op: nat, r: nat, ok: bool)
    requires op < |s.phases|
  {
    var p := s.phases[op];
    p.Fanout? && !p.calls.late && r in p.calls.live
    && s' == To(s, op, Fanout(Ended(p.calls, r, ok, |s.logs|, s.quorum)))
  }

  /** The deadline passes while calls are outstanding: no further call starts, and running ones are being dropped. */
  ghost predicate Shutdown(s: State, s': State, op: nat)
    requires op < |s.phases|
  {
    var p := s.phases[op];
    p.Fanout? && !p.calls.late && |p.calls.succeeded| + |p.calls.failed| < |s.logs|
    && s' == To(s, op, Fanout(p.calls.(late := true,
                                       verdict := if p.calls.verdict.Some? then p.calls.verdict else Some(TimedOut))))
  }

  ghost predicate Abort(s: State, s': State, op: nat, r: nat)
    requires op < |s.phases|
  {
    var p := s.phases[op];
    p.Fanout? && p.calls.late && r in p.calls.live && s' == To(s, op, Fanout(p.calls.(live := p.calls.live - {r})))
  }

  /** All calls ended, or cancellation cleanup is complete: the order mutex is released. */
  ghost predicate Release(s: State, s': State, op: nat)
    requires op < |s.phases|
  {
    var p := s.phases[op];
    p.Fanout? && p.calls.live == {} && (p.calls.late || |p.calls.succeeded| + |p.calls.failed| == |s.logs|)
    && s' == To(s, op, Finished(p.calls.(
                                  verdict := if p.calls.verdict.Some? then p.calls.verdict else Some(QuorumFailed)))).(
               holder := NO_ONE)
  }

  /** A caller that is still there receives the verdict, perhaps while calls are running, or learns that none comes. */
  ghost predicate Answer(s: State, s': State, op: nat)
    requires op < |s.phases|
  {
    var p := s.phases[op];
    op !in s.answers &&
    (|| (Sent(p) && p.calls.verdict.Some? && s' == s.(answers := s.answers[op := p.calls.verdict.value]))
     || (p.Unsent? && s' == s.(answers := s.answers[op := QuorumFailed])))
  }

  ghost predicate StepOf(s: State, s': State, op: nat)
    requires op < |s.phases|
  {
    || Acquire(s, s', op) || GiveUp(s, s', op) || Apply(s, s', op) || StartFanout(s, s', op) || FailFanout(s, s', op)
    || (exists r :: 0 <= r < |s.logs| && Call(s, s', op, r))
    || (exists r: nat, ok :: Return(s, s', op, r, ok))
    || (exists r: nat :: Abort(s, s', op, r))
    || Shutdown(s, s', op) || Release(s, s', op) || Answer(s, s', op)
  }

  ghost predicate Next(s: State, s': State) {
    exists op :: 0 <= op < |s.phases| && StepOf(s, s', op)
  }

  ghost predicate Init(s: State) {
    && s.holder == NO_ONE && s.primary == [] && s.answers == map[]
    && (forall op :: 0 <= op < |s.phases| ==> s.phases[op] == Queued)
    && (forall r :: 0 <= r < |s.logs| ==> s.logs[r] == [])
  }

  ghost predicate Run(states: seq<State>) {
    |states| > 0 && Init(states[0]) && forall i :: 0 <= i < |states| - 1 ==> Next(states[i], states[i + 1])
  }

  // -------------------------------------------------------------------------- invariant

  /** The members of `keep`, in the order of `s`. */
  function Restrict(s: seq<nat>, keep: set<nat>): seq<nat> {
    if s == [] then []
    else Restrict(s[..|s| - 1], keep) + if s[|s| - 1] in keep then [s[|s| - 1]] else []
  }

  lemma {:induction false} RestrictElsewhere(s: seq<nat>, keep: set<nat>, op: nat)
    requires op !in s
    ensures Restrict(s, keep + {op}) == Restrict(s, keep)
    decreases |s|
  {
    if s != [] {
      RestrictElsewhere(s[..|s| - 1], keep, op);
    }
  }

  /** The operations in a replica's log. */
  function Members(log: seq<nat>): set<nat> {
    set op | op in log
  }

  /** Only the mutex holder is between taking the order and finishing its fanout. */
  ghost predicate Serialized(s: State) {
    forall op :: 0 <= op < |s.phases| ==> (InOrder(s.phases[op]) <==> s.holder == op)
  }

  /** An operation is in the primary log once it was applied; while its fanout runs it is the last one there. */
  ghost predicate Logged(s: State) {
    && (forall op :: 0 <= op < |s.phases| ==>
          (op in s.primary <==> s.phases[op].Applied? || s.phases[op].Unsent? || Sent(s.phases[op])))
    && (forall op :: op in s.primary ==> op < |s.phases|)
    && (forall op :: 0 <= op < |s.phases| && (s.phases[op].Applied? || s.phases[op].Fanout?) ==>
                       |s.primary| > 0 && s.primary[|s.primary| - 1] == op && op !in s.primary[..|s.primary| - 1])
  }

  ghost predicate CallsLogged(s: State) {
    && (forall op, r :: 0 <= op < |s.phases| && Sent(s.phases[op]) && 0 <= r < |s.logs| ==>
          (r in s.phases[op].calls.called <==> op in s.logs[r]))
    && (forall op, r :: 0 <= op < |s.phases| && s.phases[op].Applied? && 0 <= r < |s.logs| ==> op !in s.logs[r])
    && (forall op, r :: 0 <= r < |s.logs| && op in s.logs[r] ==> op in s.primary)
  }

  /** Every replica's call log lists its calls in the primary's order. */
  ghost predicate InPrimaryOrder(s: State) {
    forall r :: 0 <= r < |s.logs| ==> s.logs[r] == Restrict(s.primary, Members(s.logs[r]))
  }

  ghost predicate Inv(s: State) {
    Serialized(s) && Logged(s) && CallsLogged(s) && InPrimaryOrder(s)
  }

  lemma InitInv(s: State)
    requires Init(s)
    ensures Inv(s)
  {
  }

  lemma ApplyKeeps(s: State, s': State, op: nat)
    requires Inv(s) && op < |s.phases| && Apply(s, s', op)
    ensures Inv(s')
  {
    assert s'.primary[..|s.primary|] == s.primary;
    forall r | 0 <= r < |s'.logs| ensures s'.logs[r] == Restrict(s'.primary, Members(s'.logs[r])) {
      assert op !in s.logs[r];
    }
  }

  lemma CallKeeps(s: State, s': State, op: nat, r: nat)
    requires Inv(s) && op < |s.phases| && r < |s.logs| && Call(s, s', op, r)
    ensures Inv(s')
  {
    var n := |s.primary| - 1;
    var front, before := s.primary[..n], Members(s.logs[r]);
    assert op !in before;
    assert Members(s'.logs[r]) == before + {op};
    RestrictElsewhere(front, before, op);
    assert Restrict(s.primary, before + {op}) == Restrict(front, before) + [op];
    assert s.logs[r] == Restrict(s.primary, before) == Restrict(front, before);
    forall q | 0 <= q < |s'.logs| ensures s'.logs[q] == Restrict(s'.primary, Members(s'.logs[q])) {
      assert q != r ==> s'.logs[q] == s.logs[q];
    }
  }

  lemma StepKeeps(s: State, s': State, op: nat)
    requires Inv(s) && op < |s.phases| && StepOf(s, s', op)
    ensures Inv(s')
  {
    hide Inv, Call;
    if Apply(s, s', op) {
      ApplyKeeps(s, s', op);
    } else if r :| 0 <= r < |s.logs| && Call(s, s', op, r) {
      CallKeeps(s, s', op, r);
    } else {
      QuietStepKeeps(s, s', op);
    }
  }

  /** A step that neither applies nor calls leaves the logs alone. */
  lemma QuietStepKeeps(s: State, s': State, op: nat)
    requires Inv(s) && op < |s.phases| && StepOf(s, s', op) && !Apply(s, s', op)
    requires forall r :: 0 <= r < |s.logs| ==> !Call(s, s', op, r)
    ensures Inv(s')
  {
    hide Restrict, Members, Logged, CallsLogged;
    QuietMoves(s, s', op);
    assert Serialized(s');
    assert Logged(s') && CallsLogged(s') by { QuietStepLogged(s, s', op); }
  }

  /** How a step that neither applies nor calls may change the phase of its operation. */
  predicate QuietMove(p: Phase, q: Phase) {
    || p == q
    || (p.Queued? && (q.Ordered? || q.Abandoned?))
    || (p.Ordered? && q.Abandoned?)
    || (p.Applied? && (q.Unsent? || (q.Fanout? && q.calls.called == {})))
    || (p.Fanout? && Sent(q) && q.calls.called == p.calls.called)
  }

  lemma QuietMoves(s: State, s': State, op: nat)
    requires op < |s.phases| && StepOf(s, s', op) && !Apply(s, s', op)
    requires forall r :: 0 <= r < |s.logs| ==> !Call(s, s', op, r)
    ensures s'.primary == s.primary && s'.logs == s.logs
    ensures |s'.phases| == |s.phases| && QuietMove(s.phases[op], s'.phases[op])
    ensures forall o :: 0 <= o < |s.phases| && o != op ==> s'.phases[o] == s.phases[o]
  {
  }

  lemma QuietStepLogged(s: State, s': State, op: nat)
    requires Inv(s) && op < |s.phases| && StepOf(s, s', op) && !Apply(s, s', op)
    requires forall r :: 0 <= r < |s.logs| ==> !Call(s, s', op, r)
    ensures Logged(s') && CallsLogged(s')
  {
    hide InPrimaryOrder, Serialized, StepOf;
    QuietMoves(s, s', op);
  }

  lemma {:induction false} RunInv(states: seq<State>, i: nat)
    requires Run(states) && i < |states|
    ensures Inv(states[i])
  {
    hide Inv, StepOf;
    if i == 0 {
      InitInv(states[0]);
    } else {
      RunInv(states, i - 1);
      assert Next(states[i - 1], states[i - 1 + 1]);
      var op :| 0 <= op < |states[i - 1].phases| && StepOf(states[i - 1], states[i], op);
      StepKeeps(states[i - 1], states[i], op);
    }
  }

  // --------------------------------------------------------------------------- theorems

  /** An order-preserving choice of positions of `b` that spells out `a`. */
  ghost predicate Subsequence(a: seq<nat>, b: seq<nat>, at: seq<nat>) {
    && |at| == |a|
    && (forall i :: 0 <= i < |at| ==> at[i] < |b| && b[at[i]] == a[i])
    && (forall i, j :: 0 <= i < j < |at| ==> at[i] < at[j])
  }

  lemma {:induction false} SubsequenceMore(a: seq<nat>, s: seq<nat>, at: seq<nat>)
    requires s != [] && Subsequence(a, s[..|s| - 1], at)
    ensures Subsequence(a + [s[|s| - 1]], s, at + [|s| - 1])
  {
  }

  lemma {:induction false} SubsequenceLonger(a: seq<nat>, s: seq<nat>, at: seq<nat>)
    requires s != [] && Subsequence(a, s[..|s| - 1], at)
    ensures Subsequence(a, s, at)
  {
  }

  lemma {:induction false} RestrictIsSubsequence(s: seq<nat>, keep: set<nat>) returns (at: seq<nat>)
    ensures Subsequence(Restrict(s, keep), s, at)
    decreases |s|
  {
    at := [];
    if s != [] {
      var n := |s| - 1;
      var before := RestrictIsSubsequence(s[..n], keep);
      at := before;
      if s[n] in keep {
        at := before + [n];
        SubsequenceMore(Restrict(s[..n], keep), s, before);
      } else {
        SubsequenceLonger(Restrict(s[..n], keep), s, before);
      }
    }
  }

  /**
   * Replica ordering: with any interleaving of writers, timeouts, cancelled callers and early
   * acknowledgements, the calls each replica receives are a subsequence of the primary's applications.
   */
  lemma ReplicasFollowPrimary(states: seq<State>, i: nat, r: nat) returns (at: seq<nat>)
    requires Run(states) && i < |states| && r < |states[i].logs|
    ensures Subsequence(states[i].logs[r], states[i].primary, at)
  {
    RunInv(states, i);
    at := RestrictIsSubsequence(states[i].primary, Members(states[i].logs[r]));
  }

  /** When a remote call starts, no call of any other operation is live, and its operation is the latest applied. */
  lemma CallsNeverOverlap(states: seq<State>, i: nat, op: nat, r: nat, other: nat)
    requires Run(states) && i + 1 < |states| && op < |states[i].phases| && r < |states[i].logs|
    requires Call(states[i], states[i + 1], op, r) && other < |states[i].phases| && other != op
    ensures !states[i].phases[other].Fanout?
    ensures |states[i].primary| > 0 && states[i].primary[|states[i].primary| - 1] == op
  {
    RunInv(states, i);
  }

  /** A queued deadline or cancellation before application leaves no trace on the primary or any replica. */
  lemma AbandonedLeaveNoTrace(states: seq<State>, i: nat, op: nat, r: nat)
    requires Run(states) && i < |states| && op < |states[i].phases| && states[i].phases[op].Abandoned? &&
             r < |states[i].logs|
    ensures op !in states[i].primary && op !in states[i].logs[r]
  {
    RunInv(states, i);
  }

  // --------------------------------------------------------------------------- verdicts

  /** The replicas by number. */
  function Numbers(n: nat): (r: set<nat>)
    ensures |r| == n && forall x: nat :: x in r <==> x < n
  {
    if n == 0 then {} else Numbers(n - 1) + {n - 1}
  }

  /** Each call is running, ended well, ended badly or dropped, and belongs to a replica. */
  ghost predicate Accounted(c: Calls, replicas: nat) {
    && c.called <= Numbers(replicas)
    && c.live <= c.called && c.succeeded <= c.called && c.failed <= c.called
    && c.live !! c.succeeded && c.live !! c.failed && c.succeeded !! c.failed
  }

  lemma RepliesFit(c: Calls, replicas: nat)
    requires Accounted(c, replicas)
    ensures |c.succeeded| + |c.failed| <= replicas
  {
    var ended := c.succeeded + c.failed;
    assert |ended| == |c.succeeded| + |c.failed|;
    assert Numbers(replicas) == ended + (Numbers(replicas) - ended);
    assert |Numbers(replicas)| == |ended| + |Numbers(replicas) - ended|;
  }

  /** The verdict is the one the replies before the deadline justify. */
  ghost predicate Justified(p: Phase, replicas: nat, quorum: nat)
    requires Sent(p)
  {
    var c := p.calls;
    var replies, successes := |c.succeeded| + |c.failed|, |c.succeeded|;
    && Accounted(c, replicas)
    && (c.late ==> replies < replicas)
    && (p.Fanout? && !c.late ==> c.verdict == Decided(replicas, replies, successes, quorum))
    && (p.Finished? || c.late ==> c.verdict == Some(Judgement(replicas, replies, successes, quorum)))
  }

  ghost predicate Judged(s: State) {
    && (forall op :: 0 <= op < |s.phases| && Sent(s.phases[op]) ==> Justified(s.phases[op], |s.logs|, s.quorum))
    && (forall op: nat :: op in s.answers ==> op < |s.phases| && Answered(s.phases[op], s.answers[op]))
  }

  /** What a caller was told is the verdict, or that the fanout never started. */
  predicate Answered(p: Phase, v: Verdict) {
    (Sent(p) && p.calls.verdict == Some(v)) || (p.Unsent? && v == QuorumFailed)
  }

  lemma EndedJustified(c: Calls, r: nat, ok: bool, replicas: nat, quorum: nat)
    requires Justified(Fanout(c), replicas, quorum) && !c.late && r in c.live
    ensures Justified(Fanout(Ended(c, r, ok, replicas, quorum)), replicas, quorum)
    ensures c.verdict.Some? ==> Ended(c, r, ok, replicas, quorum).verdict == c.verdict
  {
    var d := Ended(c, r, ok, replicas, quorum);
    assert Accounted(d, replicas);
    RepliesFit(d, replicas);
    assert r !in c.succeeded && r !in c.failed;
    assert |c.succeeded + {r}| == |c.succeeded| + 1 && |c.failed + {r}| == |c.failed| + 1;
  }

  /** A step of `op` leaves a verdict that was sent as it is, justifies a new one, and answers with nothing else. */
  ghost predicate Follows(s: State, s': State, op: nat)
    requires op < |s.phases|
  {
    && |s'.phases| == |s.phases| && |s'.logs| == |s.logs| && s'.quorum == s.quorum
    && (forall o :: 0 <= o < |s.phases| && o != op ==> s'.phases[o] == s.phases[o])
    && (Sent(s'.phases[op]) ==> Justified(s'.phases[op], |s.logs|, s.quorum))
    && (forall v :: Answered(s.phases[op], v) ==> Answered(s'.phases[op], v))
    && (s'.answers == s.answers || (op !in s.answers && op in s'.answers &&
                                    s'.answers == s.answers[op := s'.answers[op]]
                                    && Answered(s'.phases[op], s'.answers[op])))
  }

  lemma EarlyFollows(s: State, s': State, op: nat)
    requires op < |s.phases| && !Sent(s.phases[op]) && StepOf(s, s', op)
    ensures Follows(s, s', op)
  {
    hide Numbers;
    assert s.phases[op].Applied? && Sent(s'.phases[op]) ==> StartFanout(s, s', op);
  }

  lemma CallFollows(s: State, s': State, op: nat, r: nat)
    requires op < |s.phases| && r < |s.logs| && Call(s, s', op, r) && Justified(s.phases[op], |s.logs|, s.quorum)
    ensures Follows(s, s', op)
  {
    hide Decided, Judgement;
    assert r in Numbers(|s.logs|);
    assert r !in s.phases[op].calls.called;
  }

  lemma ReturnFollows(s: State, s': State, op: nat, r: nat, ok: bool)
    requires op < |s.phases| && Return(s, s', op, r, ok) && Justified(s.phases[op], |s.logs|, s.quorum)
    ensures Follows(s, s', op)
  {
    EndedJustified(s.phases[op].calls, r, ok, |s.logs|, s.quorum);
    hide Justified, Ended;
  }

  lemma AbortFollows(s: State, s': State, op: nat, r: nat)
    requires op < |s.phases| && Abort(s, s', op, r) && Justified(s.phases[op], |s.logs|, s.quorum)
    ensures Follows(s, s', op)
  {
    hide Decided, Judgement;
  }

  lemma EndFollows(s: State, s': State, op: nat)
    requires op < |s.phases| && Sent(s.phases[op]) && (Shutdown(s, s', op) || Release(s, s', op))
    requires Justified(s.phases[op], |s.logs|, s.quorum)
    ensures Follows(s, s', op)
  {
    RepliesFit(s.phases[op].calls, |s.logs|);
    assert Accounted(s'.phases[op].calls, |s.logs|);
  }

  lemma AnswerFollows(s: State, s': State, op: nat)
    requires op < |s.phases| && Sent(s.phases[op]) && Answer(s, s', op) && Justified(s.phases[op], |s.logs|, s.quorum)
    ensures Follows(s, s', op)
  {
    hide Justified;
  }

  lemma StepFollows(s: State, s': State, op: nat)
    requires op < |s.phases| && StepOf(s, s', op)
    requires Sent(s.phases[op]) ==> Justified(s.phases[op], |s.logs|, s.quorum)
    ensures Follows(s, s', op)
  {
    hide Follows, Justified, Call, Return, Abort;
    if !Sent(s.phases[op]) {
      EarlyFollows(s, s', op);
    } else if r :| 0 <= r < |s.logs| && Call(s, s', op, r) {
      CallFollows(s, s', op, r);
    } else if r: nat, ok :| Return(s, s', op, r, ok) {
      ReturnFollows(s, s', op, r, ok);
    } else if r: nat :| Abort(s, s', op, r) {
      AbortFollows(s, s', op, r);
    } else if Answer(s, s', op) {
      AnswerFollows(s, s', op);
    } else {
      EndFollows(s, s', op);
    }
  }

  lemma StepJudges(s: State, s': State, op: nat)
    requires Judged(s) && op < |s.phases| && StepOf(s, s', op)
    ensures Judged(s')
  {
    hide StepOf, Justified, Answered;
    StepFollows(s, s', op);
    forall o: nat | o in s'.answers ensures o < |s'.phases| && Answered(s'.phases[o], s'.answers[o]) {
      if o in s.answers {
        assert Answered(s.phases[o], s.answers[o]);
      }
    }
  }

  lemma {:induction false} RunJudged(states: seq<State>, i: nat)
    requires Run(states) && i < |states|
    ensures Judged(states[i])
  {
    hide StepOf, Judged;
    if i == 0 {
      assert Judged(states[0]) by { InitJudged(states[0]); }
    } else {
      RunJudged(states, i - 1);
      assert Next(states[i - 1], states[i - 1 + 1]);
      var op :| 0 <= op < |states[i - 1].phases| && StepOf(states[i - 1], states[i], op);
      StepJudges(states[i - 1], states[i], op);
    }
  }

  lemma InitJudged(s: State)
    requires Init(s)
    ensures Judged(s)
  {
  }

  /**
   * In every run a finished operation's verdict is the judgement on the replies that came before its deadline,
   * and an operation's caller is told that verdict and no other, early or not.
   */
  lemma AnswersAreJudgements(states: seq<State>, i: nat, op: nat)
    requires Run(states) && i < |states| && op < |states[i].phases|
    ensures states[i].phases[op].Finished? ==>
              var c := states[i].phases[op].calls;
              c.verdict == Some(Judgement(|states[i].logs|, |c.succeeded| + |c.failed|, |c.succeeded|,
                                          states[i].quorum))
    ensures op in states[i].answers && Sent(states[i].phases[op]) ==>
              states[i].phases[op].calls.verdict == Some(states[i].answers[op])
    ensures op in states[i].answers && !Sent(states[i].phases[op]) ==>
              states[i].phases[op].Unsent? && states[i].answers[op] == QuorumFailed
  {
    RunJudged(states, i);
    if op in states[i].answers {
      assert Answered(states[i].phases[op], states[i].answers[op]);
    }
  }

  /**
   * A caller told that its write was accepted has it applied on the primary and successfully called on distinct
   * replicas, a quorum together, and it keeps its place in the primary's order on each of them.
   */
  lemma AcceptedIsReplicated(states: seq<State>, i: nat, op: nat) returns (replicas: set<nat>)
    requires Run(states) && i < |states| && op in states[i].answers && states[i].answers[op] == Accepted
    ensures op in states[i].primary && 1 + |replicas| >= states[i].quorum
    ensures forall r: nat :: r in replicas ==> r < |states[i].logs| && op in states[i].logs[r]
  {
    RunInv(states, i);
    RunJudged(states, i);
    var s := states[i];
    assert op < |s.phases| && Answered(s.phases[op], Accepted);
    assert Justified(s.phases[op], |s.logs|, s.quorum);
    replicas := s.phases[op].calls.succeeded;
    forall r: nat | r in replicas ensures r < |s.logs| && op in s.logs[r] {
      assert r in Numbers(|s.logs|);
    }
  }
}
