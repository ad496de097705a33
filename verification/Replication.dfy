/** Primary-first replication: quorum configuration and the verdict on a write. */
module Replication {

  datatype QuorumConfig = QuorumConfig(replicaCount: nat, writeQuorum: nat, readQuorum: nat, timeout: nat)

  function Strict(count: nat): QuorumConfig {
    QuorumConfig(count, count, count, 5)
  }

  function Majority(count: nat): QuorumConfig {
    QuorumConfig(count, count / 2 + 1, count / 2 + 1, 5)
  }

  predicate IsValid(c: QuorumConfig) {
    && c.replicaCount > 0
    && c.timeout != 0
    && c.writeQuorum > c.replicaCount / 2
    && c.readQuorum > 0
    && c.writeQuorum <= c.replicaCount
    && c.readQuorum <= c.replicaCount
  }

  /** Any two write quorums of a valid configuration share a member. */
  lemma WriteQuorumsMeet(c: QuorumConfig, members: set<nat>, a: set<nat>, b: set<nat>)
    requires IsValid(c) && |members| == c.replicaCount && a <= members && b <= members
    requires |a| >= c.writeQuorum && |b| >= c.writeQuorum
    ensures a * b != {}
  {
    assert |a + b| + |a * b| == |a| + |b|;
    assert members == (a + b) + (members - (a + b));
    assert |members| == |a + b| + |members - (a + b)|;
  }

  /** The built-in configurations are valid for every nonempty topology, and for no other. */
  lemma BuiltinsValid(count: nat)
    ensures IsValid(Strict(count)) <==> count > 0
    ensures IsValid(Majority(count)) <==> count > 0
    ensures forall c :: IsValid(c) && c.replicaCount == count ==>
            && Majority(count).writeQuorum <= c.writeQuorum <= Strict(count).writeQuorum
            && c.readQuorum <= Strict(count).readQuorum
    ensures Majority(count).readQuorum == Majority(count).writeQuorum
    ensures Majority(count).readQuorum + Majority(count).writeQuorum > count
  {
  }

  datatype Rejection = BadQuorums | CountMismatch | DuplicateReplica

  /** Checks a topology of remote handles; the first violated rule is reported. */
  method ValidateTopology(replicas: seq<nat>, config: QuorumConfig) returns (rejected: bool, why: Rejection)
    ensures !rejected <==>
            IsValid(config) && |replicas| + 1 == config.replicaCount &&
            forall i, j :: 0 <= i < j < |replicas| ==> replicas[i] != replicas[j]
    ensures !rejected ==>
              && config.timeout != 0 && 0 < config.readQuorum <= config.replicaCount
              && config.replicaCount / 2 < config.writeQuorum <= config.replicaCount
    ensures rejected ==>
              (why == BadQuorums <==>
                 || config.replicaCount == 0 || config.timeout == 0
                 || config.readQuorum == 0 || config.readQuorum > config.replicaCount
                 || config.writeQuorum <= config.replicaCount / 2 || config.writeQuorum > config.replicaCount)
    ensures rejected ==> (why == CountMismatch <==> IsValid(config) && |replicas| + 1 != config.replicaCount)
  {
    if !IsValid(config) {
      return true, BadQuorums;
    }
    if |replicas| + 1 != config.replicaCount {
      return true, CountMismatch;
    }
    var i := 0;
    while i < |replicas|
      invariant 0 <= i <= |replicas|
      invariant forall a, b :: 0 <= a < b < i ==> replicas[a] != replicas[b]
    {
      if replicas[i] in replicas[..i] {
        return true, DuplicateReplica;
      }
      i := i + 1;
    }
    return false, DuplicateReplica;
  }

  // ----------------------------------------------------------------------- the verdict

  /** What the coordinator sees next: one more task ended, or the deadline passed. */
  datatype Event = Success | Failure | Deadline

  datatype Verdict = Accepted | QuorumFailed | TimedOut

  /** Successful replies among the first `n` events. */
  function Successes(events: nat -> Event, n: nat): nat {
    if n == 0 then 0 else Successes(events, n - 1) + if events(n - 1) == Success then 1 else 0
  }

  /** How many tasks end before the deadline. */
  function Replies(events: nat -> Event, replicas: nat): (d: nat)
    ensures d <= replicas
    ensures forall n :: 0 <= n < d ==> events(n) != Deadline
    ensures d < replicas ==> events(d) == Deadline
  {
    if replicas == 0 then 0
    else
      var d := Replies(events, replicas - 1);
      if d < replicas - 1 || events(replicas - 1) == Deadline then d else replicas
  }

  lemma {:induction false} SuccessesGrow(events: nat -> Event, m: nat, n: nat)
    requires m <= n
    ensures Successes(events, m) <= Successes(events, n) <= Successes(events, m) + (n - m)
    decreases n
  {
    if m < n {
      SuccessesGrow(events, m, n - 1);
    }
  }

  /** Once a quorum is out of reach, no continuation of the replies reaches it. */
  lemma FailureIsFinal(events: nat -> Event, other: nat -> Event, at: nat, replicas: nat, quorum: nat)
    requires at <= replicas && 1 + Successes(events, at) + (replicas - at) < quorum
    requires forall n :: 0 <= n < at ==> other(n) == events(n)
    ensures 1 + Successes(other, replicas) < quorum
  {
    SamePrefix(events, other, at);
    SuccessesGrow(other, at, replicas);
  }

  lemma {:induction false} SamePrefix(events: nat -> Event, other: nat -> Event, n: nat)
    requires forall i :: 0 <= i < n ==> other(i) == events(i)
    ensures Successes(events, n) == Successes(other, n)
  {
    if n > 0 {
      SamePrefix(events, other, n - 1);
    }
  }

  /** The verdict as a function of how many replies came before the deadline and how many succeeded. */
  function Judgement(replicas: nat, replies: nat, successes: nat, quorum: nat): Verdict {
    if 1 + successes >= quorum then Accepted
    else if replies > 0 && 1 + successes + (replicas - replies) < quorum then QuorumFailed
    else if replies < replicas then TimedOut
    else QuorumFailed
  }

  /** What is left of a verdict channel that can be used once. */
  datatype Sender = Sender(open: bool, sent: seq<Verdict>)

  function Acknowledge(s: Sender, v: Verdict): Sender {
    if s.open then Sender(false, s.sent + [v]) else s
  }

  /** What is known when `n` events have been handled; the verdict, if any, went out after `at` of them. */
  ghost predicate Known(s: Sender, events: nat -> Event, replicas: nat, quorum: nat, n: nat, at: nat) {
    && at <= n <= replicas
    && |s.sent| == (if s.open then 0 else 1)
    && (s.open ==> 1 + Successes(events, n) < quorum && (n > 0 ==> quorum <= 1 + Successes(events, n) + (replicas - n)))
    && (!s.open ==> s.sent[0] == Accepted || s.sent[0] == QuorumFailed)
    && (!s.open && s.sent[0] == Accepted ==>
        1 + Successes(events, at) >= quorum && (at > 0 ==> 1 + Successes(events, at - 1) < quorum))
    && (!s.open && s.sent[0] == QuorumFailed ==> at > 0 && 1 + Successes(events, at) + (replicas - at) < quorum)
    && (!s.open && s.sent[0] == QuorumFailed && at > 1 ==>
        quorum <= 1 + Successes(events, at - 1) + (replicas - (at - 1)))
  }

  /**
   * The coordinator's loop. Exactly one verdict is sent, as soon as it is certain: acceptance when primary
   * and successes reach the quorum, failure when they no longer can, timeout while undecided.
   */
  method ReplicateToQuorum(replicas: nat, quorum: nat, events: nat -> Event)
    returns (sent: seq<Verdict>, ghost at: nat, ghost fallback: bool)
    ensures |sent| == 1 && sent[0] ==
            Judgement(replicas, Replies(events, replicas), Successes(events, Replies(events, replicas)), quorum)
    ensures at <= Replies(events, replicas)
    ensures sent[0] == Accepted ==>
              1 + Successes(events, at) >= quorum && (at > 0 ==> 1 + Successes(events, at - 1) < quorum)
    ensures sent[0] == QuorumFailed ==>
              && 1 + Successes(events, at) + (replicas - at) < quorum
              && (at > 1 ==> quorum <= 1 + Successes(events, at - 1) + (replicas - (at - 1)))
    ensures sent[0] == TimedOut ==> at < replicas && events(at) == Deadline && 1 + Successes(events, at) < quorum
    ensures sent[0] == TimedOut && quorum <= replicas + 1 ==> quorum <= 1 + Successes(events, at) + (replicas - at)
    ensures fallback <==> replicas == 0 && quorum > 1
  {
    var sender := Sender(true, []);
    var acknowledged := 1;
    at, fallback := 0, false;
    if acknowledged >= quorum {
      sender := Acknowledge(sender, Accepted);
    }
    var ended := 0;
    while ended < replicas
      invariant 0 <= ended <= replicas && acknowledged == 1 + Successes(events, ended)
      invariant forall n :: 0 <= n < ended ==> events(n) != Deadline
      invariant Known(sender, events, replicas, quorum, ended, at)
    {
      var event := events(ended);
      if event == Deadline {
        if sender.open {
          at := ended;
        }
        sender := Acknowledge(sender, TimedOut);
        break;
      }
      if event == Success {
        acknowledged := acknowledged + 1;
      }
      ended := ended + 1;
      SuccessesGrow(events, at, ended);
      if sender.open {
        at := ended;
      }
      if acknowledged >= quorum {
        sender := Acknowledge(sender, Accepted);
      } else if acknowledged + (replicas - ended) < quorum {
        sender := Acknowledge(sender, QuorumFailed);
      }
    }
    ReplyCount(events, replicas, ended);
    SuccessesGrow(events, at, ended);
    if sender.open {
      fallback := true;
      sender := Acknowledge(sender, QuorumFailed);
    }
    sent := sender.sent;
  }

  lemma {:induction false} ReplyCount(events: nat -> Event, replicas: nat, n: nat)
    requires n <= replicas && (forall i :: 0 <= i < n ==> events(i) != Deadline) &&
             (n < replicas ==> events(n) == Deadline)
    ensures Replies(events, replicas) == n
  {
    if replicas > 0 {
      ReplyCount(events, replicas - 1, if n == replicas then n - 1 else n);
    }
  }

  /** A validated topology never reaches the fallback, and its verdicts say exactly what they mean. */
  lemma ValidatedVerdict(config: QuorumConfig, replicas: nat, replies: nat, successes: nat)
    requires IsValid(config) && replicas + 1 == config.replicaCount && successes <= replies <= replicas
    ensures !(replicas == 0 && config.writeQuorum > 1)
    ensures var v := Judgement(replicas, replies, successes, config.writeQuorum);
            && (v == Accepted <==> 1 + successes >= config.writeQuorum)
            && (v == QuorumFailed <==> 1 + successes + (replicas - replies) < config.writeQuorum)
            && (v == TimedOut <==> 1 + successes < config.writeQuorum <= 1 + successes + (replicas - replies))
  {
  }

  function Arrivals(events: nat -> Event, n: nat): seq<Event> {
    if n == 0 then [] else Arrivals(events, n - 1) + [events(n - 1)]
  }

  /** Replies that arrive in another order give the same verdict. */
  lemma OrderIndependent(replicas: nat, quorum: nat, a: nat -> Event, b: nat -> Event)
    requires (forall n :: 0 <= n < replicas ==> a(n) != Deadline && b(n) != Deadline)
    requires multiset(Arrivals(a, replicas)) == multiset(Arrivals(b, replicas))
    ensures Judgement(replicas, Replies(a, replicas), Successes(a, Replies(a, replicas)), quorum) ==
            Judgement(replicas, Replies(b, replicas), Successes(b, Replies(b, replicas)), quorum)
  {
    CountSuccesses(a, replicas);
    CountSuccesses(b, replicas);
    ReplyCount(a, replicas, replicas);
    ReplyCount(b, replicas, replicas);
  }

  lemma {:induction false} CountSuccesses(events: nat -> Event, n: nat)
    ensures Successes(events, n) == multiset(Arrivals(events, n))[Success]
  {
    if n > 0 {
      CountSuccesses(events, n - 1);
    }
  }

  // ----------------------------------------------------------------- who acknowledged

  /** The members that acknowledged after `n` events: the primary, and every replica whose task succeeded. */
  function Acknowledging(events: nat -> Event, replica: nat -> nat, primary: nat, n: nat): set<nat> {
    if n == 0 then {primary}
    else Acknowledging(events, replica, primary, n - 1) + if events(n - 1) == Success then {replica(n - 1)} else {}
  }

  /** Each of the first `n` events is the end of another replica's task. */
  ghost predicate DistinctTasks(replica: nat -> nat, primary: nat, members: set<nat>, n: nat) {
    && primary in members
    && (forall i: nat :: i < n ==> replica(i) in members && replica(i) != primary)
    && (forall i: nat, j: nat :: i < j < n ==> replica(i) != replica(j))
  }

  /** Who acknowledged: the primary, and the replicas behind the successful events. */
  lemma {:induction false} AcknowledgingAre(events: nat -> Event, replica: nat -> nat, primary: nat, n: nat, x: nat)
    ensures x in Acknowledging(events, replica, primary, n) <==>
            x == primary || exists i: nat :: i < n && events(i) == Success && replica(i) == x
  {
    if n > 0 {
      AcknowledgingAre(events, replica, primary, n - 1, x);
    }
  }

  lemma {:induction false} AcknowledgingMembers(events: nat -> Event, replica: nat -> nat, primary: nat,
                                                members: set<nat>,
                                                n: nat, tasks: nat)
    requires DistinctTasks(replica, primary, members, tasks) && n <= tasks
    ensures Acknowledging(events, replica, primary, n) <= members
    ensures forall i: nat :: n <= i < tasks ==> replica(i) !in Acknowledging(events, replica, primary, n)
    ensures |Acknowledging(events, replica, primary, n)| == 1 + Successes(events, n)
  {
    if n > 0 {
      AcknowledgingMembers(events, replica, primary, members, n - 1, tasks);
      assert replica(n - 1) !in Acknowledging(events, replica, primary, n - 1);
    }
  }

  /**
   * An accepted write is held by a write quorum of distinct members, primary included, and so by a member
   * of every other write quorum.
   */
  lemma AcceptedByQuorum(config: QuorumConfig, events: nat -> Event, replica: nat -> nat, primary: nat,
                         members: set<nat>,
                         at: nat, other: set<nat>)
    requires IsValid(config) && |members| == config.replicaCount && DistinctTasks(replica, primary, members, at)
    requires 1 + Successes(events, at) >= config.writeQuorum
    requires other <= members && |other| >= config.writeQuorum
    ensures var acks := Acknowledging(events, replica, primary, at);
            && acks <= members && |acks| >= config.writeQuorum && acks * other != {}
            && (forall x :: x in acks <==>
                  x == primary || exists i: nat :: i < at && events(i) == Success && replica(i) == x)
  {
    forall x
      ensures x in Acknowledging(events, replica, primary, at) <==>
              x == primary || exists i: nat :: i < at && events(i) == Success && replica(i) == x
    {
      AcknowledgingAre(events, replica, primary, at, x);
    }
    AcknowledgingMembers(events, replica, primary, members, at, at);
    WriteQuorumsMeet(config, members, Acknowledging(events, replica, primary, at), other);
  }
}
