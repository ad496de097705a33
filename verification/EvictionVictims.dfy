/** Which records an eviction pass picks, and why those are the right ones. */
module EvictionVictims {
  import opened Domain
  import opened EvictionIndex
  import opened EvictionOrder

  /** Destination shard of a key. */
  type Router = Key -> nat

  /** At most `count` entries in all, `perShard` in each destination shard and `budget` of weight. */
  datatype Limits = Limits(count: Option<nat>, perShard: Option<nat>, budget: Option<nat>)

  function Sum(list: seq<Entry>): nat {
    if list == [] then 0 else Sum(list[..|list| - 1]) + list[|list| - 1].weight
  }

  /** The records of one destination shard. */
  function Part(at: Router, list: seq<Entry>, i: nat): seq<Entry> {
    if list == [] then []
    else
      var last := list[|list| - 1];
      Part(at, list[..|list| - 1], i) + if at(last.key) == i then [last] else []
  }

  predicate OverCount(limits: Limits, all: seq<Entry>, v: seq<Entry>) {
    limits.count.Some? && |all| - |v| > limits.count.value
  }

  predicate OverWeight(limits: Limits, all: seq<Entry>, v: seq<Entry>) {
    limits.budget.Some? && Sum(all) - Sum(v) > limits.budget.value
  }

  predicate OverShard(limits: Limits, at: Router, all: seq<Entry>, v: seq<Entry>, i: nat) {
    limits.perShard.Some? && |Part(at, all, i)| - |Part(at, v, i)| > limits.perShard.value
  }

  /** Some limit that evicting `e` helps with is exceeded once `v` is gone. */
  predicate Exceeds(limits: Limits, at: Router, all: seq<Entry>, v: seq<Entry>, e: Entry) {
    OverCount(limits, all, v) || OverShard(limits, at, all, v, at(e.key)) || OverWeight(limits, all, v)
  }

  /** The victims among the first `n` candidates of a map whose records are `all`. */
  function Chosen(limits: Limits, at: Router, all: seq<Entry>, c: seq<Entry>, n: nat): seq<Entry>
    requires n <= |c|
  {
    if n == 0 then []
    else
      var v := Chosen(limits, at, all, c, n - 1);
      if Exceeds(limits, at, all, v, c[n - 1]) then v + [c[n - 1]] else v
  }

  /** The victims of a full pass. */
  function Victims(limits: Limits, at: Router, all: seq<Entry>): seq<Entry> {
    Chosen(limits, at, all, all, |all|)
  }

  /** After removing `v`, every limit holds. */
  ghost predicate Within(limits: Limits, at: Router, all: seq<Entry>, v: seq<Entry>) {
    !OverCount(limits, all, v) && !OverWeight(limits, all, v) && forall i :: !OverShard(limits, at, all, v, i)
  }

  lemma Grow(at: Router, v: seq<Entry>, e: Entry, i: nat)
    ensures Sum(v + [e]) == Sum(v) + e.weight
    ensures Part(at, v + [e], i) == Part(at, v, i) + if at(e.key) == i then [e] else []
  {
    assert (v + [e])[..|v|] == v;
  }

  // --------------------------------------------------------------------- the limits are met

  lemma {:induction false} OverCountTakesAll(limits: Limits, at: Router, all: seq<Entry>, c: seq<Entry>, n: nat)
    requires n <= |c| && OverCount(limits, all, Chosen(limits, at, all, c, n))
    ensures Chosen(limits, at, all, c, n) == c[..n]
  {
    if n > 0 {
      OverCountTakesAll(limits, at, all, c, n - 1);
      assert c[..n] == c[..n - 1] + [c[n - 1]];
    }
  }

  lemma {:induction false} OverWeightTakesAll(limits: Limits, at: Router, all: seq<Entry>, c: seq<Entry>, n: nat)
    requires n <= |c| && OverWeight(limits, all, Chosen(limits, at, all, c, n))
    ensures Chosen(limits, at, all, c, n) == c[..n]
  {
    if n > 0 {
      Grow(at, Chosen(limits, at, all, c, n - 1), c[n - 1], 0);
      OverWeightTakesAll(limits, at, all, c, n - 1);
      assert c[..n] == c[..n - 1] + [c[n - 1]];
    }
  }

  lemma {:induction false} OverShardTakesAll(limits: Limits, at: Router, all: seq<Entry>, c: seq<Entry>, n: nat, i: nat)
    requires n <= |c| && OverShard(limits, at, all, Chosen(limits, at, all, c, n), i)
    ensures Part(at, Chosen(limits, at, all, c, n), i) == Part(at, c[..n], i)
  {
    hide Part;
    if n == 0 {
      assert c[..0] == [];
    } else {
      var v := Chosen(limits, at, all, c, n - 1);
      Grow(at, v, c[n - 1], i);
      OverShardTakesAll(limits, at, all, c, n - 1, i);
      assert c[..n] == c[..n - 1] + [c[n - 1]];
      Grow(at, c[..n - 1], c[n - 1], i);
    }
  }

  /** Exactness: a full pass ends with every limit satisfied. */
  lemma {:induction false} VictimsSuffice(limits: Limits, at: Router, all: seq<Entry>)
    ensures Within(limits, at, all, Victims(limits, at, all))
  {
    var v := Victims(limits, at, all);
    assert all[..|all|] == all;
    assert !OverCount(limits, all, v) by {
      if OverCount(limits, all, v) {
        OverCountTakesAll(limits, at, all, all, |all|);
      }
    }
    assert !OverWeight(limits, all, v) by {
      if OverWeight(limits, all, v) {
        OverWeightTakesAll(limits, at, all, all, |all|);
      }
    }
    forall i ensures !OverShard(limits, at, all, v, i) {
      if OverShard(limits, at, all, v, i) {
        OverShardTakesAll(limits, at, all, all, |all|, i);
      }
    }
  }

  // ------------------------------------------------------------- and no record goes in vain

  lemma {:induction false} PrefixChosen(limits: Limits, at: Router, all: seq<Entry>, c: seq<Entry>, n: nat)
    returns (m: nat)
    requires n <= |c| && limits.perShard.None?
    ensures m <= n && Chosen(limits, at, all, c, n) == c[..m]
    ensures m < n ==> !OverCount(limits, all, c[..m]) && !OverWeight(limits, all, c[..m])
    ensures forall p :: 0 <= p < m ==> OverCount(limits, all, c[..p]) || OverWeight(limits, all, c[..p])
  {
    hide OverCount, OverWeight;
    m := 0;
    if n > 0 {
      m := PrefixChosen(limits, at, all, c, n - 1);
      if m == n - 1 && Exceeds(limits, at, all, c[..m], c[n - 1]) {
        assert c[..n] == c[..n - 1] + [c[n - 1]];
        m := n;
      }
    }
  }

  /** Without a per-shard limit the victims are the shortest prefix of the eviction order that meets the limits. */
  lemma {:induction false} VictimsAreShortestPrefix(limits: Limits, at: Router, all: seq<Entry>) returns (m: nat)
    requires limits.perShard.None?
    ensures m <= |all| && Victims(limits, at, all) == all[..m] && Within(limits, at, all, all[..m])
    ensures forall p :: 0 <= p < m ==> !Within(limits, at, all, all[..p])
  {
    m := PrefixChosen(limits, at, all, all, |all|);
    VictimsSuffice(limits, at, all);
  }

  /** How many records of a shard have to go. */
  function Surplus(limit: nat, at: Router, all: seq<Entry>, i: nat): nat {
    var size := |Part(at, all, i)|;
    if size > limit then size - limit else 0
  }

  function Lower(a: nat, b: nat): nat {
    if a < b then a else b
  }

  lemma {:induction false} SurplusChosen(limits: Limits, at: Router, all: seq<Entry>, c: seq<Entry>, n: nat, i: nat)
    requires n <= |c| && limits.count.None? && limits.budget.None? && limits.perShard.Some?
    ensures var part := Part(at, c[..n], i);
            Part(at, Chosen(limits, at, all, c, n), i) ==
                part[..Lower(Surplus(limits.perShard.value, at, all, i), |part|)]
  {
    hide Part, Exceeds, Surplus, Lower;
    if n == 0 {
      NoPart(at, i);
      NoneLower(Surplus(limits.perShard.value, at, all, i));
      assert c[..0] == [];
    } else {
      SurplusChosen(limits, at, all, c, n - 1, i);
      var v, e := Chosen(limits, at, all, c, n - 1), c[n - 1];
      assert c[..n] == c[..n - 1] + [e];
      Grow(at, v, e, i);
      Grow(at, c[..n - 1], e, i);
      if at(e.key) == i {
        var part, surplus := Part(at, c[..n - 1], i), Surplus(limits.perShard.value, at, all, i);
        ShardExceeds(limits, at, all, v, e);
        TakeOneMore(part, e, surplus);
        assert |Part(at, v, i)| == Lower(surplus, |part|);
        assert Part(at, c[..n], i) == part + [e];
      } else {
        assert Part(at, c[..n], i) == Part(at, c[..n - 1], i);
        assert Part(at, v + [e], i) == Part(at, v, i);
      }
    }
  }

  /** With only a per-shard limit, a record goes while its shard has not yet lost its surplus. */
  lemma ShardExceeds(limits: Limits, at: Router, all: seq<Entry>, v: seq<Entry>, e: Entry)
    requires limits.count.None? && limits.budget.None? && limits.perShard.Some?
    ensures Exceeds(limits, at, all, v, e) <==>
            |Part(at, v, at(e.key))| < Surplus(limits.perShard.value, at, all, at(e.key))
  {
    hide Part;
  }

  lemma NoneLower(surplus: nat)
    ensures Lower(surplus, 0) == 0
  {
  }

  lemma NoPart(at: Router, i: nat)
    ensures Part(at, [], i) == []
  {
  }

  lemma TakeOneMore(part: seq<Entry>, e: Entry, surplus: nat)
    ensures Lower(surplus, |part|) <= |part| && Lower(surplus, |part| + 1) <= |part| + 1
    ensures Lower(surplus, |part|) < surplus <==> |part| < surplus
    ensures (part + [e])[..Lower(surplus, |part| + 1)] ==
            if |part| < surplus then part[..Lower(surplus, |part|)] + [e] else part[..Lower(surplus, |part|)]
  {
  }

  /** With only a per-shard limit the victims are each destination shard's lowest-ranked surplus. */
  lemma {:induction false} VictimsAreSurplus(limits: Limits, at: Router, all: seq<Entry>, i: nat)
    requires limits.count.None? && limits.budget.None? && limits.perShard.Some?
    ensures Surplus(limits.perShard.value, at, all, i) <= |Part(at, all, i)|
    ensures Part(at, Victims(limits, at, all), i) == Part(at, all, i)[..Surplus(limits.perShard.value, at, all, i)]
  {
    SurplusChosen(limits, at, all, all, |all|, i);
    assert all[..|all|] == all;
  }

  /** When one entry is one too many, looking at the minimum alone gives the victim of the full pass. */
  lemma {:induction false} MinimumSuffices(limits: Limits, at: Router, all: seq<Entry>)
    requires limits.perShard.None? && limits.budget.None? && limits.count.Some? && |all| == limits.count.value + 1
    ensures Chosen(limits, at, all, [all[0]], 1) == Victims(limits, at, all) == [all[0]]
    ensures Needed(limits, at, all, [all[0]], 1) == Needed(limits, at, all, all, |all|) == 1
  {
    var m := PrefixChosen(limits, at, all, all, |all|);
    assert OverCount(limits, all, []);
    assert Chosen(limits, at, all, [all[0]], 0) == [];
    assert all[..0] == [] && |all[..1]| == 1;
    assert m == 1;
    assert Chosen(limits, at, all, all, 0) == [] && Chosen(limits, at, all, all, 1) == [all[0]];
    CutShort(limits, at, all, all, 0, |all|);
    CutShort(limits, at, all, all, 1, |all|);
    CutShort(limits, at, all, [all[0]], 0, 1);
  }

  // ----------------------------------------------------------------- every victim's turn

  /** The candidates before `n` that were chosen. */
  lemma {:induction false} ChosenAre(limits: Limits, at: Router, all: seq<Entry>, n: nat, e: Entry)
    requires n <= |all|
    ensures e in Chosen(limits, at, all, all, n) ==> e in all[..n]
  {
    if n > 0 {
      ChosenAre(limits, at, all, n - 1, e);
      assert all[..n] == all[..n - 1] + [all[n - 1]];
    }
  }

  /** The victims among the first candidates are those chosen among them. */
  lemma {:induction false} ChosenBefore(limits: Limits, at: Router, all: seq<Entry>, n: nat)
    requires n <= |all| && Distinct(all)
    ensures var v := Chosen(limits, at, all, all, n);
            && v <= Victims(limits, at, all)
            && (forall x :: x in v <==> x in Victims(limits, at, all) && x in all[..n])
  {
    hide Chosen, Needed, Distinct;
    var v := Chosen(limits, at, all, all, n);
    CutShort(limits, at, all, all, n, |all|);
    ChosenLater(limits, at, all, n, |all|);
    forall x ensures x in v <==> x in Victims(limits, at, all) && x in all[..n] {
      ChosenAre(limits, at, all, n, x);
    }
  }

  lemma {:induction false} ChosenNext(limits: Limits, at: Router, all: seq<Entry>, n: nat)
    requires n < |all| && Distinct(all)
    ensures all[n] in Chosen(limits, at, all, all, n + 1) <==>
            Exceeds(limits, at, all, Chosen(limits, at, all, all, n), all[n])
  {
    hide Exceeds;
    ChosenAre(limits, at, all, n, all[n]);
    assert all[n] !in all[..n];
  }

  /**
   * Under any mix of limits, a record is a victim exactly when, at its turn and with the victims before it gone,
   * there are too many records, too much weight, or too many records in its own destination shard.
   */
  lemma {:induction false} VictimsTurn(limits: Limits, at: Router, all: seq<Entry>, n: nat)
    requires n < |all| && Distinct(all)
    ensures var v, e := Chosen(limits, at, all, all, n), all[n];
            && (forall x :: x in v <==> x in Victims(limits, at, all) && x in all[..n])
            && (e in Victims(limits, at, all) <==>
                || (limits.count.Some? && |all| - |v| > limits.count.value)
                || (limits.budget.Some? && Sum(all) - Sum(v) > limits.budget.value)
                || (limits.perShard.Some? &&
                    |Part(at, all, at(e.key))| - |Part(at, v, at(e.key))| > limits.perShard.value))
  {
    hide Chosen, Distinct, Part, Sum;
    ChosenBefore(limits, at, all, n);
    ChosenBefore(limits, at, all, n + 1);
    ChosenNext(limits, at, all, n);
    assert all[n] in all[..n + 1];
  }

  /** What is chosen later is not among the first candidates. */
  lemma {:induction false} ChosenLater(limits: Limits, at: Router, all: seq<Entry>, n: nat, end: nat)
    requires n <= end <= |all| && Distinct(all)
    ensures forall x :: x in Chosen(limits, at, all, all, end) && x in all[..n] ==> x in Chosen(limits, at, all, all, n)
    decreases end
  {
    if n < end {
      ChosenLater(limits, at, all, n, end - 1);
      assert all[end - 1] !in all[..n];
    }
  }

  // ----------------------------------------------------------------- passes cut short

  /** How many of the first `n` candidates have to be looked at to find the victims among them. */
  function Needed(limits: Limits, at: Router, all: seq<Entry>, c: seq<Entry>, n: nat): (r: nat)
    requires n <= |c|
    ensures r <= n
  {
    if n == 0 then 0
    else if Exceeds(limits, at, all, Chosen(limits, at, all, c, n - 1), c[n - 1]) then n
    else Needed(limits, at, all, c, n - 1)
  }

  /** A pass cut short after `n` candidates has the first of its victims, and all of them exactly from `Needed` on. */
  lemma {:induction false} CutShort(limits: Limits, at: Router, all: seq<Entry>, c: seq<Entry>, n: nat, end: nat)
    requires n <= end <= |c|
    ensures Chosen(limits, at, all, c, n) <= Chosen(limits, at, all, c, end)
    ensures Chosen(limits, at, all, c, n) == Chosen(limits, at, all, c, end) <==> Needed(limits, at, all, c, end) <= n
    decreases end
  {
    if n < end {
      CutShort(limits, at, all, c, n, end - 1);
    }
  }

  lemma {:induction false} NothingNeeded(limits: Limits, at: Router, all: seq<Entry>, c: seq<Entry>, n: nat)
    requires n <= |c|
    ensures Needed(limits, at, all, c, n) == 0 <==> Chosen(limits, at, all, c, n) == []
  {
    CutShort(limits, at, all, c, 0, n);
  }

  /** Every victim was needed: some limit was exceeded when its turn came. */
  lemma {:induction false} NextVictim(limits: Limits, at: Router, all: seq<Entry>, c: seq<Entry>, v: seq<Entry>,
                                      end: nat)
    returns (n: nat)
    requires end <= |c| && v < Chosen(limits, at, all, c, end)
    ensures n < end && Exceeds(limits, at, all, v, c[n])
    decreases end
  {
    if v == Chosen(limits, at, all, c, end - 1) {
      n := end - 1;
    } else {
      n := NextVictim(limits, at, all, c, v, end - 1);
    }
  }

  /** Of all first parts of the victims, the whole is the only one that meets the limits. */
  lemma {:induction false} OnlyAllVictimsSuffice(limits: Limits, at: Router, all: seq<Entry>, v: seq<Entry>)
    requires v <= Victims(limits, at, all)
    ensures Within(limits, at, all, v) <==> v == Victims(limits, at, all)
  {
    if v == Victims(limits, at, all) {
      VictimsSuffice(limits, at, all);
    } else {
      var n := NextVictim(limits, at, all, all, v, |all|);
      assert Exceeds(limits, at, all, v, all[n]);
    }
  }

  /**
   * `marked(n)` says that another thread marks a failure before the pass's look number `n`: look 0 selects the
   * candidates, look `n + 1` validates candidate `n`. All victims go exactly when every look up to the last
   * victim's is undisturbed.
   */
  ghost predicate InTime(marked: nat -> bool, needed: nat) {
    needed > 0 ==> forall n: nat :: n <= needed ==> !marked(n)
  }

  // ---------------------------------------------------------------------- shard by shard

  /** The records of the keys of one destination shard. */
  ghost function AtShard(m: Index, at: Router, i: nat): Index {
    map k | k in m && at(k) == i :: m[k]
  }

  lemma {:induction false} PartMembers(at: Router, list: seq<Entry>, i: nat)
    ensures forall e :: e in Part(at, list, i) <==> e in list && at(e.key) == i
    decreases |list|
  {
    if list != [] {
      PartMembers(at, list[..|list| - 1], i);
      assert list == list[..|list| - 1] + [list[|list| - 1]];
    }
  }

  lemma {:induction false} PartRanked(p: Policy, at: Router, list: seq<Entry>, i: nat)
    requires Ranked(p, list)
    ensures Ranked(p, Part(at, list, i))
    decreases |list|
  {
    if list != [] {
      var n := |list| - 1;
      PartRanked(p, at, list[..n], i);
      PartMembers(at, list[..n], i);
      var part := Part(at, list[..n], i);
      forall x | 0 <= x < |part| ensures Less(p, part[x], list[n]) {
        assert part[x] in part;
        var y :| 0 <= y < n && list[y] == part[x];
      }
    }
  }

  /** A shard's part of the global eviction order is the eviction order of the shard's own records. */
  lemma {:induction false} PartIsShardOrder(p: Policy, at: Router, list: seq<Entry>, m: Index, i: nat)
    requires Order(p, list, m)
    ensures Order(p, Part(at, list, i), AtShard(m, at, i))
  {
    PartMembers(at, list, i);
    PartRanked(p, at, list, i);
    RankedDistinct(p, Part(at, list, i), AtShard(m, at, i));
  }

  // ---------------------------------------------------------------------- sizes and weights

  /** A listing weighs and counts what the index does. */
  lemma {:induction false} ListWeighs(list: seq<Entry>, m: Index)
    requires Lists(list, m) && forall k :: k in m ==> m[k].key == k
    ensures Sum(list) == WeightOf(m) && |list| == |m|
    decreases |list|
  {
    ListedNothing(list, m);
    if list != [] {
      var n := |list| - 1;
      var last := list[n];
      assert last in list;
      ListsFront(list, m);
      ListWeighs(list[..n], m - {last.key});
      WeightWithout(m, last.key);
      CountWithout(m, last.key);
    }
  }

  lemma {:induction false} ListedNothing(list: seq<Entry>, m: Index)
    requires Lists(list, m) && forall k :: k in m ==> m[k].key == k
    ensures list == [] <==> m == map[]
  {
    if m != map[] {
      var k :| k in m;
      assert m[k] in list;
    }
    if list != [] {
      assert list[0] in list;
    }
  }

  lemma {:induction false} ListsFront(list: seq<Entry>, m: Index)
    requires Lists(list, m) && list != []
    ensures Lists(list[..|list| - 1], m - {list[|list| - 1].key})
  {
    var n := |list| - 1;
    var last, front := list[n], list[..n];
    forall e ensures e in front <==> Lookup(m - {last.key}, e.key) == Some(e) {
      if e in front {
        var i :| 0 <= i < n && front[i] == e;
        assert list[i] == e && e in list;
      }
      if Lookup(m - {last.key}, e.key) == Some(e) {
        assert e in list && e != last;
      }
    }
  }
}
