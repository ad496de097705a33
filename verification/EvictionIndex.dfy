/**
 * The striped metadata index behind capacity eviction. Each live entry has a metadata record with its
 * stamps, frequency and weight; records live in buckets by metadata hash, buckets in 64 stripes.
 */
module EvictionIndex {
  import opened Domain

  const STRIPES: nat := 64
  const MAX_FREQUENCY: nat := 0xFFFF_FFFF_FFFF_FFFF

  datatype Entry = Entry(key: Key, incarnation: nat, inserted: nat, accessed: nat, frequency: nat, weight: nat)

  datatype Stripe = Stripe(buckets: map<nat, seq<Entry>>, weight: nat)

  /** The records by key. */
  type Index = map<Key, Entry>

  // ----------------------------------------------------------------------------- weight

  ghost function WeightOf(m: Index): nat
    decreases m.Keys
  {
    if m == map[] then 0
    else
      var k :| k in m;
      m[k].weight + WeightOf(m - {k})
  }

  lemma {:induction false} WeightWithout(m: Index, k: Key)
    requires k in m
    ensures WeightOf(m) == m[k].weight + WeightOf(m - {k})
    decreases m.Keys
  {
    var c :| c in m && WeightOf(m) == m[c].weight + WeightOf(m - {c});
    if c != k {
      WeightWithout(m - {c}, k);
      WeightWithout(m - {k}, c);
      assert m - {c} - {k} == m - {k} - {c};
    }
  }

  lemma WeightWith(m: Index, k: Key, e: Entry)
    ensures WeightOf(m[k := e]) + (if k in m then m[k].weight else 0) == WeightOf(m) + e.weight
  {
    WeightWithout(m[k := e], k);
    if k in m {
      WeightWithout(m, k);
      assert m[k := e] - {k} == m - {k};
    } else {
      assert m[k := e] - {k} == m;
    }
  }

  lemma {:induction false} WeightUnion(a: Index, b: Index)
    requires a.Keys !! b.Keys
    ensures WeightOf(a + b) == WeightOf(a) + WeightOf(b)
    decreases b.Keys
  {
    if b == map[] {
      assert a + b == a;
    } else {
      var k :| k in b;
      WeightUnion(a, b - {k});
      WeightWithout(b, k);
      WeightWithout(a + b, k);
      assert (a + b) - {k} == a + (b - {k});
    }
  }

  // ---------------------------------------------------------------------------- stripes

  function BucketAt(s: Stripe, x: nat): seq<Entry> {
    if x in s.buckets then s.buckets[x] else []
  }

  /** Empty buckets are dropped. */
  function SetBucket(s: Stripe, x: nat, b: seq<Entry>, weight: nat): Stripe {
    Stripe(if b == [] then s.buckets - {x} else s.buckets[x := b], weight)
  }

  ghost predicate Distinct(b: seq<Entry>) {
    forall i, j :: 0 <= i < j < |b| ==> b[i].key != b[j].key
  }

  /**
   * The stripe's buckets hold exactly the records of `m`, each in the bucket of its hash, and the stripe knows
   * their weight.
   */
  ghost predicate Holds(h: Hasher, s: Stripe, m: Index) {
    && (forall x :: x in s.buckets ==> s.buckets[x] != [])
    && (forall x :: Distinct(BucketAt(s, x)))
    && (forall x, e :: e in BucketAt(s, x) <==> h(e.key) == x && Lookup(m, e.key) == Some(e))
    && (forall k :: k in m ==> m[k].key == k)
    && s.weight == WeightOf(m)
  }

  /** Changing the record of one key changes its bucket only. */
  lemma StripeChanged(h: Hasher, s: Stripe, m: Index, k: Key, b: seq<Entry>, m': Index, weight: nat)
    requires Holds(h, s, m) && Distinct(b) && weight == WeightOf(m')
    requires forall l :: l != k ==> Lookup(m', l) == Lookup(m, l)
    requires k in m' ==> m'[k].key == k
    requires forall e :: e in b <==> (e in BucketAt(s, h(k)) && e.key != k) || Lookup(m', k) == Some(e)
    ensures Holds(h, SetBucket(s, h(k), b, weight), m')
  {
    var s' := SetBucket(s, h(k), b, weight);
    forall x ensures BucketAt(s', x) == if x == h(k) then b else BucketAt(s, x) {
    }
    forall x, e ensures e in BucketAt(s', x) <==> h(e.key) == x && Lookup(m', e.key) == Some(e) {
      assert e in BucketAt(s, x) <==> h(e.key) == x && Lookup(m, e.key) == Some(e);
    }
    forall l | l in m' ensures m'[l].key == l {
      assert l != k ==> Lookup(m', l) == Lookup(m, l);
    }
  }

  /** Removal by moving the last record into the gap. */
  function SwapRemove(b: seq<Entry>, i: nat): seq<Entry>
    requires i < |b|
  {
    var last := |b| - 1;
    if i == last then b[..last] else b[..last][i := b[last]]
  }

  lemma SwapRemoved(b: seq<Entry>, i: nat)
    requires i < |b| && Distinct(b)
    ensures Distinct(SwapRemove(b, i))
    ensures forall e :: e in SwapRemove(b, i) <==> e in b && e.key != b[i].key
  {
    var last := |b| - 1;
    var r := SwapRemove(b, i);
    forall e ensures e in r <==> e in b && e.key != b[i].key {
      if e in r {
        var n :| 0 <= n < |r| && r[n] == e;
        assert e == if n == i then b[last] else b[n];
      }
      if e in b && e.key != b[i].key {
        var n :| 0 <= n < |b| && b[n] == e;
        assert r[if n == last then i else n] == e;
      }
    }
  }

  /** The part of the index that belongs to stripe `i`. */
  ghost function Share(h: Hasher, m: Index, i: nat): Index {
    map k | k in m && h(k) % STRIPES == i :: m[k]
  }

  lemma ShareChanged(h: Hasher, m: Index, m': Index, k: Key, i: nat)
    requires forall l :: l != k ==> Lookup(m', l) == Lookup(m, l)
    ensures h(k) % STRIPES != i ==> Share(h, m', i) == Share(h, m, i)
    ensures h(k) % STRIPES == i ==> Lookup(Share(h, m', i), k) == Lookup(m', k)
    ensures forall l :: l != k ==> Lookup(Share(h, m', i), l) == Lookup(Share(h, m, i), l)
  {
    forall l ensures Lookup(Share(h, m, i), l) == if h(l) % STRIPES == i then Lookup(m, l) else None {
    }
    forall l ensures Lookup(Share(h, m', i), l) == if h(l) % STRIPES == i then Lookup(m', l) else None {
    }
    if h(k) % STRIPES != i {
      SameLookups(Share(h, m', i), Share(h, m, i));
    }
  }

  ghost predicate Striped(h: Hasher, stripes: seq<Stripe>, m: Index) {
    |stripes| == STRIPES && forall i :: 0 <= i < STRIPES ==> Holds(h, stripes[i], Share(h, m, i))
  }

  /** Replacing the stripe of a key whose record changed. */
  lemma StripeSwapped(h: Hasher, stripes: seq<Stripe>, m: Index, m': Index, k: Key, s: Stripe)
    requires Striped(h, stripes, m) && forall l :: l != k ==> Lookup(m', l) == Lookup(m, l)
    requires Holds(h, s, Share(h, m', h(k) % STRIPES))
    ensures Striped(h, stripes[h(k) % STRIPES := s], m')
  {
    hide Holds;
    forall i | 0 <= i < STRIPES ensures Holds(h, stripes[h(k) % STRIPES := s][i], Share(h, m', i)) {
      ShareChanged(h, m, m', k, i);
    }
  }

  /** Where a key's record is, seen from its bucket. */
  lemma BucketOf(h: Hasher, stripes: seq<Stripe>, m: Index, k: Key)
    requires Striped(h, stripes, m)
    ensures var s := stripes[h(k) % STRIPES];
            && Distinct(BucketAt(s, h(k)))
            && (forall e :: e in BucketAt(s, h(k)) && e.key == k <==> Lookup(m, k) == Some(e))
  {
    var i := h(k) % STRIPES;
    ShareChanged(h, m, m, k, i);
    assert Holds(h, stripes[i], Share(h, m, i));
    forall e ensures e in BucketAt(stripes[i], h(k)) && e.key == k <==> Lookup(m, k) == Some(e) {
      if Lookup(m, k) == Some(e) {
        assert Lookup(Share(h, m, i), k) == Some(e);
      }
    }
  }

  // ----------------------------------------------------------------------------- stamps

  /** No stamp of one record is a stamp of the other. */
  predicate Apart(a: Entry, b: Entry) {
    && a.incarnation != b.incarnation && a.incarnation != b.inserted && a.incarnation != b.accessed
    && a.inserted != b.incarnation && a.inserted != b.inserted && a.inserted != b.accessed
    && a.accessed != b.incarnation && a.accessed != b.inserted && a.accessed != b.accessed
  }

  predicate Issued(e: Entry, sequence: nat) {
    e.incarnation < sequence && e.inserted < sequence && e.accessed < sequence
  }

  /** All stamps were issued, and distinct records share none. */
  ghost predicate Stamped(m: Index, sequence: nat) {
    && (forall k :: k in m ==> Issued(m[k], sequence))
    && (forall k, l :: k in m && l in m && k != l ==> Apart(m[k], m[l]))
  }

  /** What validation compares beside the incarnation. */
  predicate SameRecord(a: Entry, b: Entry) {
    a.weight == b.weight && a.accessed == b.accessed && a.frequency == b.frequency
  }

  function Bumped(frequency: nat): nat {
    if frequency >= MAX_FREQUENCY then frequency else frequency + 1
  }

  /** The record an insert leaves; only a real replacement keeps age and frequency. */
  function Inserted(before: Option<Entry>, key: Key, stamp: nat, weight: nat, replaced: bool): Entry {
    if before.Some? && replaced then
      before.value.(weight := weight, incarnation := stamp, accessed := stamp,
                    frequency := Bumped(before.value.frequency))
    else Entry(if before.Some? then before.value.key else key, stamp, stamp, stamp, 1, weight)
  }

  function Touched(e: Entry, stamp: nat): Entry {
    e.(accessed := if stamp > e.accessed then stamp else e.accessed, frequency := Bumped(e.frequency))
  }

  // ------------------------------------------------------------------------------ state

  class LifecycleState {
    const metaHash: Hasher
    var stripes: seq<Stripe>
    var entries: nat
    var sequence: nat
    var epoch: nat
    var dirtyEpoch: nat
    var repairedEpoch: nat
    var workEpoch: nat
    var maintainedEpoch: nat

    /** The records the stripes hold. */
    ghost var tracked: Index

    ghost predicate Valid()
      reads this
    {
      && Striped(metaHash, stripes, tracked)
      && entries == |tracked|
      && Stamped(tracked, sequence)
      && (forall k :: k in tracked ==> tracked[k].key == k)
      && repairedEpoch <= dirtyEpoch
      && maintainedEpoch <= workEpoch
    }

    constructor (metaHash: Hasher)
      ensures Valid() && tracked == map[] && !Dirty()
    {
      this.metaHash := metaHash;
      stripes, entries, sequence, epoch := seq(STRIPES, _ => Stripe(map[], 0)), 0, 1, 1;
      dirtyEpoch, repairedEpoch, workEpoch, maintainedEpoch := 0, 0, 0, 0;
      tracked := map[];
    }

    predicate Dirty()
      reads this
    {
      dirtyEpoch != repairedEpoch
    }

    /** Work is waiting: a repair, or changes no maintenance pass has acknowledged. */
    predicate Pending()
      reads this
    {
      Dirty() || workEpoch != maintainedEpoch
    }

    /** Announces work, before a change of the data. */
    method MarkPending()
      requires Valid()
      modifies this`workEpoch
      ensures Valid() && workEpoch == old(workEpoch) + 1 && Pending()
    {
      workEpoch := workEpoch + 1;
    }

    /** A failure after a change of the data: a repair is due. */
    method MarkDirty()
      requires Valid()
      modifies this`dirtyEpoch, this`workEpoch
      ensures Valid() && Dirty() && dirtyEpoch == old(dirtyEpoch) + 1 && workEpoch == old(workEpoch) + 1
    {
      dirtyEpoch, workEpoch := dirtyEpoch + 1, workEpoch + 1;
    }

    /** Acknowledges the work a pass observed, and nothing newer. */
    method MarkMaintained(observed: nat)
      requires Valid() && observed <= workEpoch
      modifies this`maintainedEpoch
      ensures Valid() && maintainedEpoch == if observed > old(maintainedEpoch) then observed else old(maintainedEpoch)
      ensures observed < workEpoch && old(maintainedEpoch) < workEpoch ==> Pending()
    {
      if observed > maintainedEpoch {
        maintainedEpoch := observed;
      }
    }

    /** The position of a key's record in a bucket. */
    method Position(b: seq<Entry>, key: Key) returns (at: Option<nat>)
      ensures at.Some? ==> at.value < |b| && b[at.value].key == key
      ensures at.None? ==> forall e :: e in b ==> e.key != key
    {
      var i := 0;
      while i < |b|
        invariant 0 <= i <= |b| && forall n :: 0 <= n < i ==> b[n].key != key
      {
        if b[i].key == key {
          return Some(i);
        }
        i := i + 1;
      }
      at := None;
    }

    /** A candidate taken from this index: its incarnation still stands for its key, or for nothing. */
    ghost predicate Genuine(c: Entry)
      reads this
    {
      c.incarnation < sequence &&
      forall k :: k in tracked && tracked[k].incarnation == c.incarnation ==>
          k == c.key && tracked[k].inserted == c.inserted
    }

    /** Publishes a changed bucket. */
    method SetRecord(key: Key, b: seq<Entry>, weight: nat, ghost after: Index)
      requires Striped(metaHash, stripes, tracked) && Distinct(b)
      requires forall l :: l != key ==> Lookup(after, l) == Lookup(tracked, l)
      requires key in after ==> after[key].key == key
      requires forall e :: e in b <==>
               (e in BucketAt(stripes[metaHash(key) % STRIPES], metaHash(key)) && e.key != key) ||
               Lookup(after, key) == Some(e)
      requires weight + WeightOf(tracked) == stripes[metaHash(key) % STRIPES].weight + WeightOf(after)
      modifies this`stripes, this`tracked
      ensures tracked == after && Striped(metaHash, stripes, tracked)
    {
      var i := metaHash(key) % STRIPES;
      StripedChanged(metaHash, stripes, tracked, key, b, weight, after);
      stripes := stripes[i := SetBucket(stripes[i], metaHash(key), b, weight)];
      tracked := after;
    }

    /** Overwrites the record at a bucket position. */
    method Overwrite(key: Key, at: nat, next: Entry)
      requires Valid() && key in tracked && next.key == key
      requires var b := BucketAt(stripes[metaHash(key) % STRIPES], metaHash(key)); at < |b| && b[at] == tracked[key]
      requires Stamped(tracked[key := next], sequence + 1)
      modifies this`stripes, this`sequence, this`tracked
      ensures Valid() && tracked == old(tracked)[key := next] && sequence == old(sequence) + 1
    {
      hide Striped, Holds, Stamped, Distinct;
      BucketOf(metaHash, stripes, tracked, key);
      StripeWeight(metaHash, stripes, tracked, key);
      var s := stripes[metaHash(key) % STRIPES];
      var b := BucketAt(s, metaHash(key));
      WeightWith(tracked, key, next);
      CountWith(tracked, key, next);
      BucketReplaced(b, at, next);
      SetRecord(key, b[at := next], s.weight - b[at].weight + next.weight, tracked[key := next]);
      sequence := sequence + 1;
    }

    /** Adds the record of an untracked key. */
    method Admit(e: Entry)
      requires Valid() && e.key !in tracked && Stamped(tracked[e.key := e], sequence + 1)
      modifies this`stripes, this`entries, this`sequence, this`tracked
      ensures Valid() && tracked == old(tracked)[e.key := e] && sequence == old(sequence) + 1
    {
      hide Striped, Stamped;
      CountWith(tracked, e.key, e);
      stripes := Push(metaHash, stripes, tracked, e);
      tracked := tracked[e.key := e];
      entries, sequence := entries + 1, sequence + 1;
    }

    /** The hook of a completed insert: a fresh stamp, and a fresh age unless a value was replaced. */
    method RecordInsert(key: Key, weight: nat, replaced: bool)
      requires Valid()
      modifies this`stripes, this`entries, this`sequence, this`tracked
      ensures Valid() && sequence == old(sequence) + 1
      ensures tracked == old(tracked)[key := Inserted(Lookup(old(tracked), key), key, old(sequence), weight, replaced)]
      ensures key in tracked && tracked[key].weight == weight
      ensures tracked[key].accessed == tracked[key].incarnation == old(sequence)
      ensures if replaced && key in old(tracked)
              then tracked[key].inserted == old(tracked)[key].inserted
                   && tracked[key].frequency == (if old(tracked)[key].frequency < MAX_FREQUENCY
                                                 then old(tracked)[key].frequency + 1 else old(tracked)[key].frequency)
              else tracked[key].inserted == old(sequence) && tracked[key].frequency == 1
      ensures forall k :: k != key ==> Lookup(tracked, k) == Lookup(old(tracked), k)
      ensures forall c :: old(Genuine(c)) ==> Genuine(c)
    {
      hide Holds, Stamped, Distinct;
      BucketOf(metaHash, stripes, tracked, key);
      var b := BucketAt(stripes[metaHash(key) % STRIPES], metaHash(key));
      var at := Position(b, key);
      FoundRecord(b, at, tracked, key);
      var stamp := sequence;
      StampedChange(tracked, sequence, key, Inserted(Lookup(tracked, key), key, stamp, weight, replaced));
      if at.Some? {
        var e := b[at.value];
        var next := if replaced then e.(weight := weight, incarnation := stamp, accessed := stamp,
                                        frequency := Bumped(e.frequency))
        else e.(weight := weight, incarnation := stamp, accessed := stamp, inserted := stamp, frequency := 1);
        Overwrite(key, at.value, next);
      } else {
        Admit(Entry(key, stamp, stamp, stamp, 1, weight));
      }
    }

    /** The hook of a read: a hit on a tracked key becomes its most recent access. */
    method RecordRead(key: Key, hit: bool)
      requires Valid()
      modifies this`stripes, this`sequence, this`tracked
      ensures Valid()
      ensures tracked == if hit && key in old(tracked)
              then old(tracked)[key := Touched(old(tracked)[key], old(sequence))] else old(tracked)
      ensures hit && key in old(tracked) ==>
                && tracked[key].accessed == old(sequence) && sequence == old(sequence) + 1
                && tracked[key].frequency == (if old(tracked)[key].frequency < MAX_FREQUENCY
                                              then old(tracked)[key].frequency + 1 else old(tracked)[key].frequency)
                && tracked[key].inserted == old(tracked)[key].inserted
                && tracked[key].incarnation == old(tracked)[key].incarnation
                && tracked[key].weight == old(tracked)[key].weight
      ensures !(hit && key in old(tracked)) ==> tracked == old(tracked) && sequence == old(sequence)
      ensures forall k :: k != key ==> Lookup(tracked, k) == Lookup(old(tracked), k)
      ensures forall c :: old(Genuine(c)) ==> Genuine(c)
    {
      hide Holds, Stamped, Distinct;
      if !hit {
        return;
      }
      BucketOf(metaHash, stripes, tracked, key);
      var b := BucketAt(stripes[metaHash(key) % STRIPES], metaHash(key));
      var at := Position(b, key);
      FoundRecord(b, at, tracked, key);
      if at.Some? {
        StampIssued(tracked, sequence, key);
        StampedChange(tracked, sequence, key, Touched(b[at.value], sequence));
        Overwrite(key, at.value, Touched(b[at.value], sequence));
      }
    }

    /** Takes the record at a bucket position out. */
    method Forget(key: Key, at: nat)
      requires Valid() && key in tracked
      requires var b := BucketAt(stripes[metaHash(key) % STRIPES], metaHash(key)); at < |b| && b[at] == tracked[key]
      modifies this`stripes, this`entries, this`tracked
      ensures Valid() && tracked == old(tracked) - {key}
      ensures forall c :: old(Genuine(c)) ==> Genuine(c)
    {
      hide Striped, Holds, Stamped, Distinct;
      var x := metaHash(key);
      BucketOf(metaHash, stripes, tracked, key);
      StripeWeight(metaHash, stripes, tracked, key);
      var s := stripes[x % STRIPES];
      var b := BucketAt(s, x);
      StampedWithout(tracked, sequence, key);
      WeightWithout(tracked, key);
      CountWithout(tracked, key);
      SwapRemoved(b, at);
      SetRecord(key, SwapRemove(b, at), s.weight - b[at].weight, tracked - {key});
      entries := entries - 1;
    }

    method RecordRemove(key: Key)
      requires Valid()
      modifies this`stripes, this`entries, this`tracked
      ensures Valid() && tracked == old(tracked) - {key}
      ensures forall c :: old(Genuine(c)) ==> Genuine(c)
    {
      BucketOf(metaHash, stripes, tracked, key);
      var b := BucketAt(stripes[metaHash(key) % STRIPES], metaHash(key));
      var at := Position(b, key);
      FoundRecord(b, at, tracked, key);
      if at.Some? {
        Forget(key, at.value);
      } else {
        assert tracked - {key} == tracked;
      }
    }

    /** Removes the candidate's own incarnation; a newer record of the same key stays. */
    method RecordEviction(c: Entry)
      requires Valid() && Genuine(c)
      modifies this`stripes, this`entries, this`tracked
      ensures Valid()
      ensures tracked == if c.key in old(tracked) &&
              old(tracked)[c.key].incarnation == c.incarnation then old(tracked) - {c.key} else old(tracked)
      ensures forall d :: old(Genuine(d)) ==> Genuine(d)
    {
      hide Holds, Stamped, Distinct;
      BucketOf(metaHash, stripes, tracked, c.key);
      var b := BucketAt(stripes[metaHash(c.key) % STRIPES], metaHash(c.key));
      BucketTracked(metaHash, stripes, tracked, c.key);
      var i := 0;
      while i < |b|
        invariant 0 <= i <= |b| && forall n :: 0 <= n < i ==> b[n].incarnation != c.incarnation
      {
        if b[i].incarnation == c.incarnation {
          assert b[i] in b;
          Forget(c.key, i);
          return;
        }
        i := i + 1;
      }
      assert c.key in tracked ==> tracked[c.key] in b;
    }

    /** A candidate is still good when its incarnation, weight and rank are the tracked ones. */
    method Validate(c: Entry, sampled: nat) returns (good: bool)
      requires Valid() && Genuine(c)
      ensures good <==> !Dirty() && sampled == epoch && Lookup(tracked, c.key) == Some(c)
    {
      if Dirty() || sampled != epoch {
        return false;
      }
      BucketOf(metaHash, stripes, tracked, c.key);
      BucketTracked(metaHash, stripes, tracked, c.key);
      var b := BucketAt(stripes[metaHash(c.key) % STRIPES], metaHash(c.key));
      good := exists e :: e in b && e.incarnation == c.incarnation && SameRecord(e, c);
      if good {
        var e :| e in b && e.incarnation == c.incarnation && SameRecord(e, c);
        assert tracked[e.key] == e;
      }
    }

    /** The exact weight of everything tracked. */
    method TotalWeight() returns (total: nat)
      requires Valid()
      ensures total == WeightOf(tracked)
    {
      hide Holds, Stamped;
      AllStripes(metaHash, tracked);
      total := 0;
      var i := 0;
      while i < STRIPES
        invariant 0 <= i <= STRIPES && total == WeightOf(InStripes(metaHash, tracked, i))
      {
        NextStripe(metaHash, stripes, tracked, i);
        HoldsWeight(metaHash, stripes[i], Share(metaHash, tracked, i));
        WeightUnion(InStripes(metaHash, tracked, i), Share(metaHash, tracked, i));
        total := total + stripes[i].weight;
        i := i + 1;
      }
    }

    /** All records, stripe by stripe, bucket by bucket, in whatever order the buckets iterate. */
    method Collect() returns (list: seq<Entry>)
      requires Valid()
      ensures Lists(list, tracked)
    {
      hide Holds, Stamped, Distinct;
      AllStripes(metaHash, tracked);
      list := [];
      assert Lists([], map[]) by { ListsNothing(); }
      var i := 0;
      while i < STRIPES
        invariant 0 <= i <= STRIPES && Lists(list, InStripes(metaHash, tracked, i))
      {
        NextStripe(metaHash, stripes, tracked, i);
        var part := CollectStripe(metaHash, stripes[i], Share(metaHash, tracked, i));
        ListsAppend(list, InStripes(metaHash, tracked, i), part, Share(metaHash, tracked, i));
        list := list + part;
        i := i + 1;
      }
    }

    /** Adds one live entry to the staged stripes, carrying its age, recency and frequency over if it was tracked. */
    method Stage(staged: seq<Stripe>, key: Key, weight: nat, ghost next: Index, ghost start: nat)
      returns (staged': seq<Stripe>, ghost next': Index)
      requires Valid() && Striped(metaHash, staged, next) && key !in next
      requires Stamped(tracked, start) && Stamped(next, sequence) && start <= sequence &&
               AllCarried(tracked, next, start)
      modifies this`sequence
      ensures Valid() && sequence == old(sequence) + 1
      ensures Striped(metaHash, staged', next') && Stamped(next', sequence) && AllCarried(tracked, next', start)
      ensures next' == next[key := Repaired(Lookup(tracked, key), key, weight, old(sequence))]
    {
      hide Striped, Stamped, AllCarried;
      var stamp := sequence;
      var before := Find(key);
      var e := Repaired(before, key, weight, stamp);
      StampedRepair(tracked, start, next, sequence, e, weight);
      StampedLater(tracked, sequence);
      next' := next[key := e];
      staged' := Push(metaHash, staged, next, e);
      sequence := stamp + 1;
    }

    method StageAll(live: seq<(Key, nat)>) returns (staged: seq<Stripe>, ghost next: Index)
      requires Valid() && forall i, j :: 0 <= i < j < |live| ==> live[i].0 != live[j].0
      modifies this`sequence
      ensures Valid() && sequence >= old(sequence) && |next| == |live|
      ensures Striped(metaHash, staged, next) && Stamped(next, sequence) && AllCarried(tracked, next, old(sequence))
      ensures Rebuilt(live, |live|, next)
    {
      hide Striped, Stamped, AllCarried, Rebuilt;
      ghost var start := sequence;
      staged, next := seq(STRIPES, _ => Stripe(map[], 0)), map[];
      NothingStaged(metaHash, tracked, live, sequence);
      var n := 0;
      while n < |live|
        invariant 0 <= n <= |live| && Valid() && sequence >= start && |next| == n
        invariant Striped(metaHash, staged, next) && Stamped(next, sequence) && AllCarried(tracked, next, start)
        invariant Rebuilt(live, n, next)
      {
        ghost var e := Repaired(Lookup(tracked, live[n].0), live[n].0, live[n].1, sequence);
        RebuiltMore(live, n, next, e);
        CountWith(next, e.key, e);
        staged, next := Stage(staged, live[n].0, live[n].1, next, start);
        n := n + 1;
      }
    }

    /**
     * Rebuilds the index from a stable scan of the live entries: it tracks exactly those, keeps what it
     * knew of them, gives every record a fresh incarnation, and makes every earlier candidate stale.
     */
    method Reconcile(live: seq<(Key, nat)>)
      requires Valid() && forall i, j :: 0 <= i < j < |live| ==> live[i].0 != live[j].0
      modifies this`stripes, this`entries, this`sequence, this`tracked, this`epoch, this`repairedEpoch
      ensures Valid() && !Dirty() && epoch == old(epoch) + 1 && sequence >= old(sequence)
      ensures Rebuilt(live, |live|, tracked)
      ensures AllCarried(old(tracked), tracked, old(sequence))
      ensures forall c :: old(Genuine(c)) ==> Genuine(c)
    {
      hide Striped, Stamped, AllCarried, Rebuilt;
      var observed := dirtyEpoch;
      ghost var start := sequence;
      var staged, next := StageAll(live);
      GenuineDropped(tracked, next, start);
      stripes, tracked, entries, epoch, repairedEpoch := staged, next, |live|, epoch + 1, observed;
    }

    /** Looks one record up. */
    method Find(key: Key) returns (e: Option<Entry>)
      requires Valid()
      ensures e == Lookup(tracked, key)
    {
      BucketOf(metaHash, stripes, tracked, key);
      var b := BucketAt(stripes[metaHash(key) % STRIPES], metaHash(key));
      var at := Position(b, key);
      FoundRecord(b, at, tracked, key);
      e := if at.Some? then Some(b[at.value]) else None;
    }
  }

  method CollectStripe(h: Hasher, s: Stripe, ghost m: Index) returns (list: seq<Entry>)
    requires Holds(h, s, m)
    ensures Lists(list, m)
  {
    hide Holds, Lists;
    list := [];
    assert Lists([], map[]) by { ListsNothing(); }
    assert Hashed(h, m, {}) == map[];
    var todo := s.buckets.Keys;
    ghost var seen: set<nat> := {};
    while todo != {}
      invariant todo <= s.buckets.Keys && seen == s.buckets.Keys - todo && Lists(list, Hashed(h, m, seen))
      decreases todo
    {
      var x :| x in todo;
      NextBucket(h, s, m, seen, x);
      ListsAppend(list, Hashed(h, m, seen), s.buckets[x], Hashed(h, m, {x}));
      list, todo, seen := list + s.buckets[x], todo - {x}, seen + {x};
    }
    assert seen == s.buckets.Keys;
    AllBuckets(h, s, m);
  }

  /** What a rebuild makes of one live entry. */
  function Repaired(before: Option<Entry>, key: Key, weight: nat, stamp: nat): Entry {
    if before.Some? then Entry(key, stamp, before.value.inserted, before.value.accessed, before.value.frequency, weight)
    else Entry(key, stamp, stamp, stamp, 1, weight)
  }

  /** A record with a fresh incarnation that keeps the age, recency and frequency it had, if it had any. */
  ghost predicate Carried(before: Index, e: Entry, start: nat) {
    && e.incarnation >= start
    && (if e.key in before then
          e.inserted == before[e.key].inserted && e.accessed == before[e.key].accessed &&
              e.frequency == before[e.key].frequency
        else e.inserted == e.accessed >= start && e.frequency == 1)
  }

  ghost predicate AllCarried(before: Index, m: Index, start: nat) {
    forall k :: k in m ==> m[k].key == k && Carried(before, m[k], start)
  }

  lemma StampedLater(m: Index, sequence: nat)
    requires Stamped(m, sequence)
    ensures Stamped(m, sequence + 1)
  {
  }

  lemma StampedRepair(before: Index, start: nat, m: Index, sequence: nat, e: Entry, weight: nat)
    requires Stamped(before, start) && Stamped(m, sequence) && start <= sequence && AllCarried(before, m, start)
    requires e.key !in m && e == Repaired(Lookup(before, e.key), e.key, weight, sequence)
    ensures Stamped(m[e.key := e], sequence + 1) && AllCarried(before, m[e.key := e], start)
  {
    hide Apart;
    var m' := m[e.key := e];
    assert e.key in before ==> Issued(before[e.key], start);
    forall l | l in m ensures Apart(e, m[l]) && Apart(m[l], e) && Issued(m[l], sequence) {
      RepairApart(before, start, m, sequence, e, weight, l);
    }
  }

  lemma RepairApart(before: Index, start: nat, m: Index, sequence: nat, e: Entry, weight: nat, l: Key)
    requires Stamped(before, start) && Stamped(m, sequence) && start <= sequence && AllCarried(before, m, start)
    requires e.key !in m && e == Repaired(Lookup(before, e.key), e.key, weight, sequence) && l in m
    ensures Apart(e, m[l]) && Apart(m[l], e)
  {
    assert e.key in before ==> Issued(before[e.key], start);
    assert l in before ==> Issued(before[l], start);
    assert Issued(m[l], sequence);
    assert e.key in before && l in before ==> Apart(before[e.key], before[l]);
  }

  lemma NothingStaged(h: Hasher, before: Index, live: seq<(Key, nat)>, sequence: nat)
    ensures Striped(h, seq(STRIPES, _ => Stripe(map[], 0)), map[]) && Stamped(map[], sequence)
    ensures AllCarried(before, map[], sequence) && Rebuilt(live, 0, map[])
  {
  }

  /** `m` tracks the first `n` live entries with their weights, and nothing else. */
  ghost predicate Rebuilt(live: seq<(Key, nat)>, n: nat, m: Index) {
    && n <= |live|
    && (forall k :: k in m ==> exists i :: 0 <= i < n && live[i].0 == k)
    && (forall i :: 0 <= i < n ==> live[i].0 in m && m[live[i].0].weight == live[i].1)
  }

  lemma RebuiltMore(live: seq<(Key, nat)>, n: nat, m: Index, e: Entry)
    requires Rebuilt(live, n, m) && n < |live| && forall i, j :: 0 <= i < j < |live| ==> live[i].0 != live[j].0
    requires e.key == live[n].0 && e.weight == live[n].1
    ensures e.key !in m && Rebuilt(live, n + 1, m[e.key := e])
  {
    var m' := m[e.key := e];
    forall k | k in m' ensures exists i :: 0 <= i < n + 1 && live[i].0 == k {
      if k == e.key {
        assert live[n].0 == k;
      } else {
        var i :| 0 <= i < n && live[i].0 == k;
        assert live[i].0 == k;
      }
    }
  }

  /** After a rebuild no earlier incarnation is left. */
  lemma GenuineDropped(before: Index, m: Index, start: nat)
    requires AllCarried(before, m, start)
    ensures forall k :: k in m ==> m[k].key == k && m[k].incarnation >= start
  {
  }

  /** Appends a record to the bucket of its hash. */
  method Push(h: Hasher, stripes: seq<Stripe>, ghost m: Index, e: Entry) returns (r: seq<Stripe>)
    requires Striped(h, stripes, m) && e.key !in m
    ensures Striped(h, r, m[e.key := e])
  {
    hide Striped, Distinct;
    BucketOf(h, stripes, m, e.key);
    StripeWeight(h, stripes, m, e.key);
    WeightWith(m, e.key, e);
    var i, x := h(e.key) % STRIPES, h(e.key);
    var b := BucketAt(stripes[i], x);
    assert forall o :: o in b ==> o.key != e.key;
    BucketGrown(b, e);
    StripedChanged(h, stripes, m, e.key, b + [e], stripes[i].weight + e.weight, m[e.key := e]);
    r := stripes[i := SetBucket(stripes[i], x, b + [e], stripes[i].weight + e.weight)];
  }

  lemma ListsNothing()
    ensures Lists([], map[])
  {
  }

  lemma StampIssued(m: Index, sequence: nat, k: Key)
    requires Stamped(m, sequence) && k in m
    ensures Issued(m[k], sequence)
  {
  }

  lemma CountWithout(m: Index, k: Key)
    requires k in m
    ensures |m - {k}| == |m| - 1
  {
    assert (m - {k}).Keys == m.Keys - {k};
    assert |m.Keys| == |m| && |(m - {k}).Keys| == |m - {k}|;
  }

  /** A bucket holds tracked records only. */
  lemma BucketTracked(h: Hasher, stripes: seq<Stripe>, m: Index, k: Key)
    requires Striped(h, stripes, m)
    ensures |stripes| == STRIPES
    ensures forall e :: e in BucketAt(stripes[h(k) % STRIPES], h(k)) ==> Lookup(m, e.key) == Some(e)
  {
    var i := h(k) % STRIPES;
    assert Holds(h, stripes[i], Share(h, m, i));
    forall e | e in BucketAt(stripes[i], h(k)) ensures Lookup(m, e.key) == Some(e) {
      assert Lookup(Share(h, m, i), e.key) == Some(e);
    }
  }

  lemma CountWith(m: Index, k: Key, e: Entry)
    ensures |m[k := e]| == |m| + if k in m then 0 else 1
  {
    assert m[k := e].Keys == m.Keys + {k};
    assert |m.Keys| == |m| && |m[k := e].Keys| == |m[k := e]|;
  }

  /** What the search of a key's bucket finds is the key's record. */
  lemma FoundRecord(b: seq<Entry>, at: Option<nat>, m: Index, k: Key)
    requires forall e :: e in b && e.key == k <==> Lookup(m, k) == Some(e)
    requires at.Some? ==> at.value < |b| && b[at.value].key == k
    requires at.None? ==> forall e :: e in b ==> e.key != k
    ensures Lookup(m, k) == if at.Some? then Some(b[at.value]) else None
  {
    if at.Some? {
      assert b[at.value] in b;
    } else if k in m {
      assert m[k] in b;
    }
  }

  lemma HoldsWeight(h: Hasher, s: Stripe, m: Index)
    requires Holds(h, s, m)
    ensures s.weight == WeightOf(m)
  {
  }

  /** A record weighs no more than its stripe. */
  lemma StripeWeight(h: Hasher, stripes: seq<Stripe>, m: Index, k: Key)
    requires Striped(h, stripes, m)
    ensures |stripes| == STRIPES
    ensures k in m ==> stripes[h(k) % STRIPES].weight >= m[k].weight
  {
    var i := h(k) % STRIPES;
    assert Holds(h, stripes[i], Share(h, m, i));
    if k in m {
      WeightWithout(Share(h, m, i), k);
    }
  }

  /** A change of one record weighs the same in its stripe as in the index. */
  lemma ShareWeight(h: Hasher, m: Index, m': Index, k: Key)
    requires forall l :: l != k ==> Lookup(m', l) == Lookup(m, l)
    ensures WeightOf(Share(h, m', h(k) % STRIPES)) + WeightOf(m) == WeightOf(Share(h, m, h(k) % STRIPES)) + WeightOf(m')
  {
    var i := h(k) % STRIPES;
    var rest, share := m - {k}, Share(h, m, i) - {k};
    ShareChanged(h, m, m', k, i);
    ShareChanged(h, m, m, k, i);
    forall l ensures Lookup(m' - {k}, l) == Lookup(rest, l) {
      assert l != k ==> Lookup(m', l) == Lookup(m, l);
    }
    SameLookups(m' - {k}, rest);
    forall l ensures Lookup(Share(h, m', i) - {k}, l) == Lookup(share, l) {
      assert l != k ==> Lookup(Share(h, m', i), l) == Lookup(Share(h, m, i), l);
    }
    SameLookups(Share(h, m', i) - {k}, share);
    WeightSplit(m, k);
    WeightSplit(m', k);
    WeightSplit(Share(h, m, i), k);
    WeightSplit(Share(h, m', i), k);
  }

  lemma WeightSplit(m: Index, k: Key)
    ensures WeightOf(m) == WeightOf(m - {k}) + if Lookup(m, k).Some? then Lookup(m, k).value.weight else 0
  {
    if k in m {
      WeightWithout(m, k);
    } else {
      assert m - {k} == m;
    }
  }

  lemma BucketReplaced(b: seq<Entry>, i: nat, e: Entry)
    requires i < |b| && Distinct(b) && e.key == b[i].key
    ensures Distinct(b[i := e])
    ensures forall x :: x in b[i := e] <==> (x in b && x.key != e.key) || x == e
  {
    forall x ensures x in b[i := e] <==> (x in b && x.key != e.key) || x == e {
      if x in b && x.key != e.key {
        var n :| 0 <= n < |b| && b[n] == x;
        assert b[i := e][n] == x;
      }
      assert b[i := e][i] == e;
    }
  }

  /** A stamp of `k`'s own: fresh, or one it already had. */
  predicate Own(m: Index, k: Key, stamp: nat, sequence: nat) {
    stamp == sequence || (k in m && (stamp == m[k].incarnation || stamp == m[k].inserted || stamp == m[k].accessed))
  }

  /** A record made of its own stamps and a fresh one shares none with any other record. */
  lemma StampedChange(m: Index, sequence: nat, k: Key, e: Entry)
    requires Stamped(m, sequence)
    requires Own(m, k, e.incarnation, sequence) && Own(m, k, e.inserted, sequence) && Own(m, k, e.accessed, sequence)
    ensures Stamped(m[k := e], sequence + 1)
  {
    hide Own, Apart, Issued;
    var m' := m[k := e];
    forall a | a in m' ensures Issued(m'[a], sequence + 1) && (a != k ==> Apart(e, m'[a]) && Apart(m'[a], e)) {
      ChangedApart(m, sequence, k, e, a);
    }
  }

  lemma ChangedApart(m: Index, sequence: nat, k: Key, e: Entry, a: Key)
    requires Stamped(m, sequence) && a in m[k := e]
    requires Own(m, k, e.incarnation, sequence) && Own(m, k, e.inserted, sequence) && Own(m, k, e.accessed, sequence)
    ensures Issued(m[k := e][a], sequence + 1) && (a != k ==> Apart(e, m[a]) && Apart(m[a], e))
  {
    assert a in m ==> Issued(m[a], sequence);
    assert k in m ==> Issued(m[k], sequence);
    assert k in m && a != k ==> Apart(m[k], m[a]);
  }

  lemma StampedWithout(m: Index, sequence: nat, k: Key)
    requires Stamped(m, sequence)
    ensures Stamped(m - {k}, sequence)
  {
  }

  lemma BucketGrown(b: seq<Entry>, e: Entry)
    requires Distinct(b) && forall x :: x in b ==> x.key != e.key
    ensures Distinct(b + [e])
    ensures forall x :: x in b + [e] <==> x in b || x == e
  {
  }

  /** Replacing the bucket of a key whose record changed keeps the stripes right. */
  lemma StripedChanged(h: Hasher, stripes: seq<Stripe>, m: Index, k: Key, b: seq<Entry>, weight: nat, m': Index)
    requires Striped(h, stripes, m) && Distinct(b)
    requires forall l :: l != k ==> Lookup(m', l) == Lookup(m, l)
    requires k in m' ==> m'[k].key == k
    requires forall e :: e in b <==>
             (e in BucketAt(stripes[h(k) % STRIPES], h(k)) && e.key != k) || Lookup(m', k) == Some(e)
    requires weight + WeightOf(m) == stripes[h(k) % STRIPES].weight + WeightOf(m')
    ensures Striped(h, stripes[h(k) % STRIPES := SetBucket(stripes[h(k) % STRIPES], h(k), b, weight)], m')
  {
    hide Holds;
    var i := h(k) % STRIPES;
    ShareWeight(h, m, m', k);
    ShareChanged(h, m, m', k, i);
    assert Holds(h, stripes[i], Share(h, m, i));
    HoldsWeight(h, stripes[i], Share(h, m, i));
    StripeChanged(h, stripes[i], Share(h, m, i), k, b, Share(h, m', i), weight);
    StripeSwapped(h, stripes, m, m', k, SetBucket(stripes[i], h(k), b, weight));
  }

  // --------------------------------------------------------------------------- listings

  /** The records of an index in some order, each once. */
  ghost predicate Lists(list: seq<Entry>, m: Index) {
    Distinct(list) && forall e :: e in list <==> Lookup(m, e.key) == Some(e)
  }

  lemma ListsAppend(a: seq<Entry>, m: Index, b: seq<Entry>, n: Index)
    requires Lists(a, m) && Lists(b, n) && m.Keys !! n.Keys
    ensures Lists(a + b, m + n)
  {
    var c := a + b;
    forall i, j | 0 <= i < j < |c| ensures c[i].key != c[j].key {
      if i < |a| <= j {
        assert c[i] in a && c[j] in b;
      }
    }
    forall e ensures e in c <==> Lookup(m + n, e.key) == Some(e) {
      assert e in c <==> e in a || e in b;
    }
  }

  /** The records of `m` whose hash is in `hashes`. */
  ghost function Hashed(h: Hasher, m: Index, hashes: set<nat>): Index {
    map k | k in m && h(k) in hashes :: m[k]
  }

  /** The records of `m` in the first `n` stripes. */
  ghost function InStripes(h: Hasher, m: Index, n: nat): Index {
    map k | k in m && h(k) % STRIPES < n :: m[k]
  }

  lemma NextBucket(h: Hasher, s: Stripe, m: Index, hashes: set<nat>, x: nat)
    requires Holds(h, s, m) && x in s.buckets && x !in hashes
    ensures Lists(s.buckets[x], Hashed(h, m, {x}))
    ensures Hashed(h, m, hashes + {x}) == Hashed(h, m, hashes) + Hashed(h, m, {x})
    ensures Hashed(h, m, hashes).Keys !! Hashed(h, m, {x}).Keys
  {
    assert s.buckets[x] == BucketAt(s, x);
    forall e ensures e in s.buckets[x] <==> Lookup(Hashed(h, m, {x}), e.key) == Some(e) {
      assert e in BucketAt(s, x) <==> h(e.key) == x && Lookup(m, e.key) == Some(e);
    }
  }

  lemma AllBuckets(h: Hasher, s: Stripe, m: Index)
    requires Holds(h, s, m)
    ensures Hashed(h, m, s.buckets.Keys) == m
  {
    forall k | k in m ensures h(k) in s.buckets {
      assert m[k] in BucketAt(s, h(k));
    }
  }

  lemma NextStripe(h: Hasher, stripes: seq<Stripe>, m: Index, i: nat)
    requires Striped(h, stripes, m) && i < STRIPES
    ensures Holds(h, stripes[i], Share(h, m, i))
    ensures InStripes(h, m, i + 1) == InStripes(h, m, i) + Share(h, m, i)
    ensures InStripes(h, m, i).Keys !! Share(h, m, i).Keys
  {
  }

  lemma AllStripes(h: Hasher, m: Index)
    ensures InStripes(h, m, 0) == map[]
    ensures InStripes(h, m, STRIPES) == m
  {
    forall k | k in m ensures k in InStripes(h, m, STRIPES) {
    }
  }
}
