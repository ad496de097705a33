/** Eviction policies as strict total orders on the tracked records, and the candidate selectors. */
module EvictionOrder {
  import opened Domain
  import opened EvictionIndex

  datatype Policy = Lru | Lfu | Fifo

  function Rank(p: Policy, e: Entry): (nat, nat, nat) {
    match p
    case Lru => (e.accessed, e.inserted, e.incarnation)
    case Lfu => (e.frequency, e.accessed, e.inserted)
    case Fifo => (e.inserted, 0, e.incarnation)
  }

  /** Lexicographic order of ranks: the lower rank is evicted first. */
  predicate Less(p: Policy, a: Entry, b: Entry) {
    var x, y := Rank(p, a), Rank(p, b);
    x.0 < y.0 || (x.0 == y.0 && (x.1 < y.1 || (x.1 == y.1 && x.2 < y.2)))
  }

  lemma LessStrict(p: Policy, a: Entry, b: Entry, c: Entry)
    ensures !(Less(p, a, b) && Less(p, b, a))
    ensures Less(p, a, b) && Less(p, b, c) ==> Less(p, a, c)
  {
  }

  /** Under every policy, any two different tracked records are comparable, one way only. */
  lemma {:induction false} RankTotal(p: Policy, m: Index, sequence: nat, k: Key, l: Key)
    requires Stamped(m, sequence) && k in m && l in m && k != l
    ensures Less(p, m[k], m[l]) <==> !Less(p, m[l], m[k])
  {
    assert Apart(m[k], m[l]);
  }

  /**
   * What the policies compare: LRU the last access, FIFO the insertion, LFU the uses and, among equally used
   * records, the last access.
   */
  lemma {:induction false} PolicyMeaning(m: Index, sequence: nat, k: Key, l: Key)
    requires Stamped(m, sequence) && k in m && l in m && k != l
    ensures Less(Lru, m[k], m[l]) <==> m[k].accessed < m[l].accessed
    ensures Less(Fifo, m[k], m[l]) <==> m[k].inserted < m[l].inserted
    ensures Less(Lfu, m[k], m[l]) <==>
            m[k].frequency < m[l].frequency || (m[k].frequency == m[l].frequency && m[k].accessed < m[l].accessed)
  {
    assert Apart(m[k], m[l]);
  }

  /** The first candidate of a policy order, in terms of the records: the least recent, oldest or least used one. */
  lemma {:induction false} HeadMeaning(p: Policy, list: seq<Entry>, m: Index, sequence: nat, k: Key)
    requires Order(p, list, m) && list != [] && Stamped(m, sequence) && k in m && k != list[0].key
    requires forall x :: x in m ==> m[x].key == x
    ensures p == Lru ==> list[0].accessed < m[k].accessed
    ensures p == Fifo ==> list[0].inserted < m[k].inserted
    ensures p == Lfu ==>
            list[0].frequency < m[k].frequency
            || (list[0].frequency == m[k].frequency && list[0].accessed < m[k].accessed)
  {
    assert list[0] in list;
    assert m[k] in list;
    var i :| 0 <= i < |list| && list[i] == m[k];
    PolicyMeaning(m, sequence, list[0].key, k);
  }

  /** After a hit on `k` every other record goes before it under LRU; after a fresh insert, under FIFO too. */
  lemma {:induction false} UsedIsLast(m: Index, sequence: nat, k: Key, l: Key, e: Entry)
    requires Stamped(m, sequence) && l in m && l != k && e.accessed == sequence
    ensures Less(Lru, m[k := e][l], m[k := e][k])
    ensures e.inserted == sequence ==> Less(Fifo, m[k := e][l], m[k := e][k])
  {
    assert Issued(m[l], sequence);
  }

  /** A read hook makes its key the last LRU candidate. */
  method ReadThenRank(s: LifecycleState, key: Key)
    requires s.Valid() && key in s.tracked
    modifies s`stripes, s`sequence, s`tracked
    ensures s.Valid() && s.tracked.Keys == old(s.tracked).Keys
    ensures forall l :: l in s.tracked && l != key ==> Less(Lru, s.tracked[l], s.tracked[key])
  {
    hide LifecycleState.Valid, Less;
    ghost var before, sequence := s.tracked, s.sequence;
    assert Stamped(before, sequence) by { ValidStamps(s); }
    s.RecordRead(key, true);
    forall l | l in s.tracked && l != key ensures Less(Lru, s.tracked[l], s.tracked[key]) {
      UsedIsLast(before, sequence, key, l, s.tracked[key]);
    }
  }

  lemma ValidStamps(s: LifecycleState)
    requires s.Valid()
    ensures Stamped(s.tracked, s.sequence)
  {
  }

  /** A rebuild keeps the relative order of the records it carries over, under every policy. */
  lemma {:induction false} RebuildKeepsOrder(p: Policy, before: Index, after: Index, start: nat, k: Key, l: Key)
    requires Stamped(before, start) && AllCarried(before, after, start)
    requires k in before && l in before && k in after && l in after && k != l
    ensures Less(p, after[k], after[l]) <==> Less(p, before[k], before[l])
  {
    assert Apart(before[k], before[l]);
    assert Carried(before, after[k], start) && Carried(before, after[l], start);
  }

  /** A rebuilt record that was not tracked before is younger and more recent than every carried one. */
  lemma {:induction false} RebuildPutsNewLast(p: Policy, before: Index, after: Index, start: nat, k: Key, l: Key)
    requires Stamped(before, start) && AllCarried(before, after, start) && p != Lfu
    requires k in before && k in after && l !in before && l in after
    ensures Less(p, after[k], after[l])
  {
    assert Issued(before[k], start);
    assert Carried(before, after[k], start) && Carried(before, after[l], start);
  }

  // ---------------------------------------------------------------------------- sorting

  ghost predicate Ranked(p: Policy, list: seq<Entry>) {
    forall i, j :: 0 <= i < j < |list| ==> Less(p, list[i], list[j])
  }

  /** The eviction order of an index. */
  ghost predicate Order(p: Policy, list: seq<Entry>, m: Index) {
    Ranked(p, list) && Lists(list, m)
  }

  /** Whatever order the records were met in, sorting gives the same list. */
  lemma {:induction false} OrderUnique(p: Policy, a: seq<Entry>, b: seq<Entry>, m: Index)
    requires Order(p, a, m) && Order(p, b, m)
    ensures a == b
    decreases |a|
  {
    ListedAlike(a, b, m);
    if a != [] {
      assert a[0] in a;
      assert a[0] in b;
      assert b[0] in b;
      assert b[0] in a;
      var i :| 0 <= i < |a| && a[i] == b[0];
      var j :| 0 <= j < |b| && b[j] == a[0];
      LessStrict(p, a[0], b[0], a[0]);
      assert a[0] == b[0];
      OrderTail(p, a, m);
      OrderTail(p, b, m);
      OrderUnique(p, a[1..], b[1..], m - {a[0].key});
    }
  }

  lemma {:induction false} ListedAlike(a: seq<Entry>, b: seq<Entry>, m: Index)
    requires Lists(a, m) && Lists(b, m)
    ensures a == [] <==> b == []
  {
    if a != [] {
      assert a[0] in a && a[0] in b;
    }
    if b != [] {
      assert b[0] in b && b[0] in a;
    }
  }

  lemma {:induction false} OrderTail(p: Policy, a: seq<Entry>, m: Index)
    requires Order(p, a, m) && a != []
    ensures Order(p, a[1..], m - {a[0].key})
  {
    var rest := a[1..];
    forall e ensures e in rest <==> Lookup(m - {a[0].key}, e.key) == Some(e) {
      if e in rest {
        var i :| 0 <= i < |rest| && rest[i] == e;
        assert a[i + 1] == e && e in a;
      }
      if Lookup(m - {a[0].key}, e.key) == Some(e) {
        assert e in a && e != a[0];
      }
    }
  }

  /** Puts a record where its rank belongs. */
  function Place(p: Policy, list: seq<Entry>, e: Entry): seq<Entry> {
    if list == [] || Less(p, e, list[0]) then [e] + list else [list[0]] + Place(p, list[1..], e)
  }

  lemma {:induction false} PlaceRanks(p: Policy, list: seq<Entry>, e: Entry)
    requires Ranked(p, list) && forall x :: x in list ==> Less(p, x, e) || Less(p, e, x)
    ensures Ranked(p, Place(p, list, e))
    ensures forall x :: x in Place(p, list, e) <==> x == e || x in list
  {
    if list == [] {
    } else if Less(p, e, list[0]) {
      forall j | 0 <= j < |list| ensures Less(p, e, list[j]) {
        LessStrict(p, e, list[0], list[j]);
      }
    } else {
      var rest := Place(p, list[1..], e);
      assert list == [list[0]] + list[1..];
      assert forall x :: x in list[1..] ==> x in list;
      PlaceRanks(p, list[1..], e);
      assert list[0] in list;
      forall j | 0 <= j < |rest| ensures Less(p, list[0], rest[j]) {
        assert rest[j] in rest;
      }
    }
  }

  lemma {:induction false} RankedDistinct(p: Policy, list: seq<Entry>, m: Index)
    requires Ranked(p, list) && forall e :: e in list <==> Lookup(m, e.key) == Some(e)
    ensures Order(p, list, m)
  {
    forall i, j | 0 <= i < j < |list| ensures list[i].key != list[j].key {
      assert list[i] in list && list[j] in list;
      LessStrict(p, list[i], list[j], list[i]);
    }
  }

  /** Sorts a listing by rank. */
  method SortByRank(p: Policy, list: seq<Entry>, ghost m: Index, ghost sequence: nat) returns (sorted: seq<Entry>)
    requires Lists(list, m) && Stamped(m, sequence)
    ensures Order(p, sorted, m)
  {
    sorted := [];
    var n := 0;
    while n < |list|
      invariant 0 <= n <= |list| && Ranked(p, sorted)
      invariant forall e :: e in sorted <==> e in list[..n]
    {
      var e := list[n];
      assert list[..n + 1] == list[..n] + [e];
      forall x | x in sorted ensures Less(p, x, e) || Less(p, e, x) {
        Comparable(p, list, m, sequence, n, x);
      }
      PlaceRanks(p, sorted, e);
      sorted := Place(p, sorted, e);
      n := n + 1;
    }
    assert list[..n] == list;
    RankedDistinct(p, sorted, m);
  }

  lemma {:induction false} Comparable(p: Policy, list: seq<Entry>, m: Index, sequence: nat, n: nat, x: Entry)
    requires Lists(list, m) && Stamped(m, sequence) && n < |list| && x in list[..n]
    ensures Less(p, x, list[n]) || Less(p, list[n], x)
  {
    var i :| 0 <= i < n && list[i] == x;
    assert list[n] in list && x in list;
    RankTotal(p, m, sequence, x.key, list[n].key);
  }

  // ------------------------------------------------------------------------- candidates

  /** All candidates in eviction order; none while a repair is due. */
  method Candidates(s: LifecycleState, p: Policy) returns (list: seq<Entry>)
    requires s.Valid()
    ensures s.Dirty() ==> list == []
    ensures !s.Dirty() ==> Order(p, list, s.tracked)
  {
    if s.Dirty() {
      return [];
    }
    list := s.Collect();
    list := SortByRank(p, list, s.tracked, s.sequence);
  }

  /** The records of some keys. */
  ghost function Among(m: Index, keys: seq<Key>): Index {
    map k | k in m && k in keys :: m[k]
  }

  /** The candidates among the keys of one data shard, in eviction order. */
  method CandidatesForKeys(s: LifecycleState, p: Policy, keys: seq<Key>) returns (list: seq<Entry>)
    requires s.Valid() && forall i, j :: 0 <= i < j < |keys| ==> keys[i] != keys[j]
    ensures s.Dirty() ==> list == []
    ensures !s.Dirty() ==> Order(p, list, Among(s.tracked, keys))
  {
    if s.Dirty() {
      return [];
    }
    list := [];
    var n := 0;
    assert Lists([], map[]) by { ListsNothing(); }
    assert Among(s.tracked, keys[..0]) == map[];
    while n < |keys|
      invariant 0 <= n <= |keys| && Lists(list, Among(s.tracked, keys[..n]))
    {
      var e := s.Find(keys[n]);
      list := AddFound(s.tracked, keys, n, list, e);
      n := n + 1;
    }
    assert keys[..n] == keys;
    StampedAmong(s.tracked, s.sequence, keys);
    list := SortByRank(p, list, Among(s.tracked, keys), s.sequence);
  }

  method AddFound(ghost m: Index, keys: seq<Key>, n: nat, list: seq<Entry>, e: Option<Entry>) returns (r: seq<Entry>)
    requires n < |keys| && (forall i, j :: 0 <= i < j < |keys| ==> keys[i] != keys[j])
    requires Lists(list, Among(m, keys[..n])) && e == Lookup(m, keys[n]) && (e.Some? ==> e.value.key == keys[n])
    ensures Lists(r, Among(m, keys[..n + 1]))
  {
    assert keys[..n + 1] == keys[..n] + [keys[n]];
    if e.Some? {
      var one := map[keys[n] := e.value];
      assert Lists([e.value], one);
      assert keys[n] !in keys[..n];
      ListsAppend(list, Among(m, keys[..n]), [e.value], one);
      assert Among(m, keys[..n + 1]) == Among(m, keys[..n]) + one;
      r := list + [e.value];
    } else {
      assert Among(m, keys[..n + 1]) == Among(m, keys[..n]);
      r := list;
    }
  }

  lemma {:induction false} StampedAmong(m: Index, sequence: nat, keys: seq<Key>)
    requires Stamped(m, sequence)
    ensures Stamped(Among(m, keys), sequence)
  {
  }

  // ------------------------------------------------------------------------ the minimum

  /** `best` is the lowest-ranked record met so far. */
  ghost predicate Least(p: Policy, best: Option<Entry>, met: seq<Entry>) {
    && (best.None? <==> met == [])
    && (best.Some? ==> best.value in met && forall e :: e in met ==> e == best.value || Less(p, best.value, e))
  }

  ghost predicate Known(met: seq<Entry>, m: Index) {
    forall e :: e in met ==> Lookup(m, e.key) == Some(e)
  }

  lemma {:induction false} LeastMore(p: Policy, best: Option<Entry>, met: seq<Entry>, e: Entry, m: Index, sequence: nat)
    requires Least(p, best, met) && Known(met + [e], m) && Stamped(m, sequence)
    ensures Least(p, if best.None? || Less(p, e, best.value) then Some(e) else best, met + [e])
  {
    var next := if best.None? || Less(p, e, best.value) then Some(e) else best;
    assert e in met + [e];
    if best.Some? {
      assert best.value in met + [e];
      if best.value != e {
        RankTotal(p, m, sequence, best.value.key, e.key);
      }
    }
    forall x | x in met + [e] ensures x == next.value || Less(p, next.value, x) {
      if x in met && next == Some(e) {
        LessStrict(p, e, best.value, x);
      }
    }
  }

  method BucketMinimum(p: Policy, b: seq<Entry>, best: Option<Entry>, ghost met: seq<Entry>, ghost m: Index,
                       ghost sequence: nat)
    returns (least: Option<Entry>)
    requires Least(p, best, met) && Known(met + b, m) && Stamped(m, sequence)
    ensures Least(p, least, met + b)
  {
    hide Least, Stamped;
    least := best;
    var n := 0;
    assert met + b[..0] == met;
    while n < |b|
      invariant 0 <= n <= |b| && Least(p, least, met + b[..n])
    {
      assert met + b[..n + 1] == met + b[..n] + [b[n]];
      assert Known(met + b[..n + 1], m) by {
        assert forall e :: e in met + b[..n + 1] ==> e in met + b;
      }
      LeastMore(p, least, met + b[..n], b[n], m, sequence);
      if least.None? || Less(p, b[n], least.value) {
        least := Some(b[n]);
      }
      n := n + 1;
    }
    assert b[..n] == b;
  }

  method StripeMinimum(h: Hasher, p: Policy, s: Stripe, best: Option<Entry>, ghost met: seq<Entry>, ghost share: Index,
                       ghost m: Index, ghost sequence: nat)
    returns (least: Option<Entry>, ghost list: seq<Entry>)
    requires Holds(h, s, share) && Least(p, best, met) && Known(met, m) && Stamped(m, sequence)
    requires forall k :: k in share ==> Lookup(m, k) == Some(share[k])
    ensures Lists(list, share) && Least(p, least, met + list)
  {
    hide Holds, Least, Stamped, Lists;
    least, list := best, [];
    assert Lists([], map[]) by { ListsNothing(); }
    assert Hashed(h, share, {}) == map[] && met + [] == met;
    var todo := s.buckets.Keys;
    ghost var seen: set<nat> := {};
    while todo != {}
      invariant todo <= s.buckets.Keys && seen == s.buckets.Keys - todo && Lists(list, Hashed(h, share, seen))
      invariant Known(met + list, m) && Least(p, least, met + list)
      decreases todo
    {
      var x :| x in todo;
      NextBucket(h, s, share, seen, x);
      ListsAppend(list, Hashed(h, share, seen), s.buckets[x], Hashed(h, share, {x}));
      KnownMore(met + list, s.buckets[x], Hashed(h, share, {x}), m);
      least := BucketMinimum(p, s.buckets[x], least, met + list, m, sequence);
      assert met + (list + s.buckets[x]) == met + list + s.buckets[x];
      list, todo, seen := list + s.buckets[x], todo - {x}, seen + {x};
    }
    assert seen == s.buckets.Keys;
    AllBuckets(h, s, share);
  }

  lemma {:induction false} KnownMore(met: seq<Entry>, b: seq<Entry>, part: Index, m: Index)
    requires Known(met, m) && Lists(b, part) && forall k :: k in part ==> Lookup(m, k) == Some(part[k])
    ensures Known(met + b, m)
  {
    forall e | e in met + b ensures Lookup(m, e.key) == Some(e) {
      if e in b {
        assert Lookup(part, e.key) == Some(e);
      }
    }
  }

  /** One victim without collecting or sorting: the head of the full eviction order, however the buckets iterate. */
  method MinimumCandidate(s: LifecycleState, p: Policy) returns (least: Option<Entry>)
    requires s.Valid()
    ensures s.Dirty() ==> least == None
    ensures !s.Dirty() ==> forall list :: Order(p, list, s.tracked) ==>
            least == if list == [] then None else Some(list[0])
  {
    hide Least, Stamped, Holds, Lists, Order;
    if s.Dirty() {
      return None;
    }
    least := None;
    ghost var met: seq<Entry> := [];
    AllStripes(s.metaHash, s.tracked);
    assert Lists([], map[]) by { ListsNothing(); }
    assert Least(p, None, []) by { NothingMet(p); }
    var i := 0;
    while i < STRIPES
      invariant 0 <= i <= STRIPES && Lists(met, InStripes(s.metaHash, s.tracked, i))
      invariant Known(met, s.tracked) && Least(p, least, met)
    {
      ghost var share := Share(s.metaHash, s.tracked, i);
      NextStripe(s.metaHash, s.stripes, s.tracked, i);
      ghost var list;
      least, list := StripeMinimum(s.metaHash, p, s.stripes[i], least, met, share, s.tracked, s.sequence);
      ListsAppend(met, InStripes(s.metaHash, s.tracked, i), list, share);
      KnownMore(met, list, share, s.tracked);
      met := met + list;
      i := i + 1;
    }
    forall list | Order(p, list, s.tracked) ensures least == if list == [] then None else Some(list[0]) {
      MinimumIsHead(p, least, met, list, s.tracked);
    }
  }

  lemma NothingMet(p: Policy)
    ensures Least(p, None, [])
  {
  }

  lemma {:induction false} MinimumIsHead(p: Policy, least: Option<Entry>, met: seq<Entry>, list: seq<Entry>, m: Index)
    requires Lists(met, m) && Least(p, least, met) && Order(p, list, m)
    ensures least == if list == [] then None else Some(list[0])
  {
    ListedAlike(list, met, m);
    if list != [] {
      assert list[0] in list;
      assert list[0] in met;
      assert least.value in list;
      var i :| 0 <= i < |list| && list[i] == least.value;
      LessStrict(p, list[0], least.value, list[0]);
    }
  }
}
