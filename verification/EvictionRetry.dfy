/** A shard-local pass that a failure interrupts, and the exclusive pass after the repair: together the same victims. */
module EvictionRetry {
  import opened Domain
  import opened EvictionIndex
  import opened EvictionOrder
  import opened EvictionVictims
  import opened EvictionPasses
  import opened EvictionLocal

  /** The records that a rebuilt index has for the keys of a list. */
  function Renewed(list: seq<Entry>, m: Index): seq<Entry>
    requires forall e :: e in list ==> e.key in m
  {
    seq(|list|, n requires 0 <= n < |list| => m[list[n].key])
  }

  /** A rebuild keeps a list in its policy order. */
  lemma {:induction false} RenewedRanked(p: Policy, before: Index, after: Index, start: nat, list: seq<Entry>)
    requires Stamped(before, start) && AllCarried(before, after, start) && Ranked(p, list) && Distinct(list)
    requires forall e :: e in list ==> Lookup(before, e.key) == Some(e) && e.key in after
    ensures Ranked(p, Renewed(list, after))
  {
    hide Stamped, AllCarried, Less;
    var r := Renewed(list, after);
    forall i, j | 0 <= i < j < |r| ensures Less(p, r[i], r[j]) {
      assert list[i] in list && list[j] in list;
      RebuildKeepsOrder(p, before, after, start, list[i].key, list[j].key);
    }
  }

  /** What is left of an index after some records were taken, as the rebuilt index shows it. */
  ghost predicate Remains(before: Index, taken: seq<Entry>, after: Index, start: nat) {
    && AllCarried(before, after, start)
    && (forall k :: k in after <==> k in before && k !in KeysOf(taken))
  }

  /** A key is taken exactly when it is taken from its shard. */
  lemma {:induction false} KeysByShard(at: Router, v: seq<Entry>, k: Key)
    ensures k in KeysOf(v) <==> k in KeysOf(Part(at, v, at(k)))
  {
    PartMembers(at, v, at(k));
    if k in KeysOf(v) {
      var e :| e in v && e.key == k;
      assert e in Part(at, v, at(k));
    }
  }

  /** The records of a partly trimmed shard that are left, in their order. */
  lemma {:induction false} LeftInShard(at: Router, all: seq<Entry>, v: seq<Entry>, i: nat, e: Entry)
    requires Distinct(all) && Part(at, v, i) <= Part(at, all, i) && e in all && at(e.key) == i
    ensures e in Part(at, all, i)
    ensures e.key in KeysOf(v) <==> e in Part(at, all, i)[..|Part(at, v, i)|]
    ensures e in Part(at, all, i)[..|Part(at, v, i)|] <==> e !in Part(at, all, i)[|Part(at, v, i)|..]
  {
    var part, a := Part(at, all, i), |Part(at, v, i)|;
    assert part[..a] == Part(at, v, i);
    PartMembers(at, all, i);
    PartDistinct(at, all, i);
    KeysByShard(at, v, e.key);
    assert part == part[..a] + part[a..];
    if e.key in KeysOf(part[..a]) {
      var x :| x in part[..a] && x.key == e.key;
      assert x in part;
      SameKey(all, x, e);
    }
    SplitApart(part, a, e);
  }

  lemma {:induction false} SplitApart(list: seq<Entry>, a: nat, e: Entry)
    requires Distinct(list) && a <= |list|
    ensures e !in list[..a] || e !in list[a..]
  {
    if e in list[..a] {
      var n :| 0 <= n < a && list[n] == e;
      forall j | a <= j < |list| ensures list[j] != e {
        assert list[n].key != list[j].key;
      }
    }
  }

  /** The shard's order after the rebuild is the rest of its order before. */
  lemma {:induction false} ShardRest(p: Policy, at: Router, before: Index, all: seq<Entry>, v: seq<Entry>, after: Index,
                                     all': seq<Entry>, start: nat, i: nat)
    requires Order(p, all, before) && Order(p, all', after) && Stamped(before, start) &&
             Remains(before, v, after, start)
    requires Part(at, v, i) <= Part(at, all, i) && forall k :: k in before ==> before[k].key == k
    ensures var rest := Part(at, all, i)[|Part(at, v, i)|..];
            (forall e :: e in rest ==> e.key in after) && Part(at, all', i) == Renewed(rest, after)
  {
    hide Ranked, Stamped, AllCarried, Distinct;
    var part, a := Part(at, all, i), |Part(at, v, i)|;
    var rest := part[a..];
    RestInAfter(p, at, before, all, v, after, start, i);
    var r := Renewed(rest, after);
    RestRanked(p, at, all, i, a);
    RenewedRanked(p, before, after, start, rest);
    forall e ensures e in r <==> Lookup(AtShard(after, at, i), e.key) == Some(e) {
      RenewedLists(p, at, before, all, v, after, start, i, e);
    }
    RankedDistinct(p, r, AtShard(after, at, i));
    PartIsShardOrder(p, at, all', after, i);
    OrderUnique(p, r, Part(at, all', i), AtShard(after, at, i));
  }

  lemma {:induction false} RestInAfter(p: Policy, at: Router, before: Index, all: seq<Entry>, v: seq<Entry>,
                                       after: Index,
                                       start: nat, i: nat)
    requires Order(p, all, before) && Remains(before, v, after, start) && Part(at, v, i) <= Part(at, all, i)
    ensures forall e :: e in Part(at, all, i)[|Part(at, v, i)|..] ==> e.key in after && Lookup(before, e.key) == Some(e)
  {
    hide Ranked, AllCarried;
    var part, a := Part(at, all, i), |Part(at, v, i)|;
    PartMembers(at, all, i);
    forall e | e in part[a..] ensures e.key in after && Lookup(before, e.key) == Some(e) {
      assert e in part;
      LeftInShard(at, all, v, i, e);
    }
  }

  lemma {:induction false} RestRanked(p: Policy, at: Router, all: seq<Entry>, i: nat, a: nat)
    requires Ranked(p, all) && Distinct(all) && a <= |Part(at, all, i)|
    ensures Ranked(p, Part(at, all, i)[a..]) && Distinct(Part(at, all, i)[a..])
  {
    PartRanked(p, at, all, i);
    PartDistinct(at, all, i);
  }

  lemma {:induction false} RenewedLists(p: Policy, at: Router, before: Index, all: seq<Entry>, v: seq<Entry>,
                                        after: Index, start: nat, i: nat, e: Entry)
    requires Order(p, all, before) && Remains(before, v, after, start) && Part(at, v, i) <= Part(at, all, i)
    requires forall k :: k in before ==> before[k].key == k
    requires forall x :: x in Part(at, all, i)[|Part(at, v, i)|..] ==> x.key in after
    ensures e in Renewed(Part(at, all, i)[|Part(at, v, i)|..], after) <==>
            Lookup(AtShard(after, at, i), e.key) == Some(e)
  {
    hide Ranked, Distinct, Part, AllCarried;
    var part, a := Part(at, all, i), |Part(at, v, i)|;
    var rest := part[a..];
    var r := Renewed(rest, after);
    PartMembers(at, all, i);
    KeyedAfter(before, v, after, start);
    forall x | x in rest ensures at(x.key) == i {
      assert x in part;
    }
    if e in r {
      var n :| 0 <= n < |r| && r[n] == e;
      assert rest[n] in rest;
    }
    if Lookup(AtShard(after, at, i), e.key) == Some(e) {
      assert e.key in before;
      var x := before[e.key];
      assert Lookup(before, x.key) == Some(x);
      LeftInShard(at, all, v, i, x);
      FoundIn(rest, after, x);
    }
  }

  lemma {:induction false} FoundIn(list: seq<Entry>, m: Index, x: Entry)
    requires x in list && forall e :: e in list ==> e.key in m
    ensures m[x.key] in Renewed(list, m)
  {
    var n :| 0 <= n < |list| && list[n] == x;
    assert Renewed(list, m)[n] == m[x.key];
  }

  /** What the two passes take from one shard is its surplus. */
  lemma {:induction false} ShardRetry(p: Policy, limit: nat, at: Router, before: Index, all: seq<Entry>, v: seq<Entry>,
                                      after: Index, all': seq<Entry>, start: nat, i: nat, k: Key)
    requires Order(p, all, before) && Order(p, all', after) && Stamped(before, start) &&
             Remains(before, v, after, start)
    requires Part(at, v, i) <= Low(limit, at, all, i) && forall x :: x in before ==> before[x].key == x
    ensures k in KeysOf(Low(limit, at, all, i)) <==> k in KeysOf(Part(at, v, i)) || k in KeysOf(Low(limit, at, all', i))
  {
    hide Order, Stamped, Remains;
    var part, a, s := Part(at, all, i), |Part(at, v, i)|, Surplus(limit, at, all, i);
    var rest := part[a..];
    ShardRest(p, at, before, all, v, after, all', start, i);
    KeyedAfter(before, v, after, start);
    var r := Renewed(rest, after);
    assert Surplus(limit, at, all', i) == s - a;
    assert part[..s] == part[..a] + rest[..s - a];
    SameKeys(rest[..s - a], r[..s - a]);
    assert KeysOf(part[..s]) == KeysOf(part[..a]) + KeysOf(rest[..s - a]);
  }

  lemma KeyedAfter(before: Index, v: seq<Entry>, after: Index, start: nat)
    requires Remains(before, v, after, start)
    ensures forall k :: k in after ==> after[k].key == k
  {
  }

  lemma {:induction false} SameKeys(a: seq<Entry>, b: seq<Entry>)
    requires |a| == |b| && forall n :: 0 <= n < |a| ==> a[n].key == b[n].key
    ensures KeysOf(a) == KeysOf(b)
  {
    forall k ensures k in KeysOf(a) <==> k in KeysOf(b) {
      if k in KeysOf(a) {
        var n :| 0 <= n < |a| && a[n].key == k;
        assert b[n] in b;
      }
      if k in KeysOf(b) {
        var n :| 0 <= n < |b| && b[n].key == k;
        assert a[n] in a;
      }
    }
  }

  /**
   * Whenever a failure interrupts a shard-local pass, what it took and what the exclusive pass over the repaired
   * index takes are together exactly the victims of an uninterrupted pass.
   */
  lemma {:induction false} RetryFinishes(p: Policy, limit: nat, at: Router, before: Index, all: seq<Entry>,
                                         v: seq<Entry>,
                                         after: Index, all': seq<Entry>, start: nat)
    requires Order(p, all, before) && Order(p, all', after) && Stamped(before, start) &&
             Remains(before, v, after, start)
    requires SameAs(limit, at, all, v, false) && forall x :: x in before ==> before[x].key == x
    ensures KeysOf(Victims(ShardOnly(limit), at, all)) == KeysOf(v) + KeysOf(Victims(ShardOnly(limit), at, all'))
  {
    hide Order, Stamped, Remains, Part, Chosen;
    var w, w' := Victims(ShardOnly(limit), at, all), Victims(ShardOnly(limit), at, all');
    forall k ensures k in KeysOf(w) <==> k in KeysOf(v) + KeysOf(w') {
      var i := at(k);
      KeysByShard(at, w, k);
      KeysByShard(at, v, k);
      KeysByShard(at, w', k);
      VictimsAreSurplus(ShardOnly(limit), at, all, i);
      VictimsAreSurplus(ShardOnly(limit), at, all', i);
      ShardRetry(p, limit, at, before, all, v, after, all', start, i, k);
    }
  }
}
