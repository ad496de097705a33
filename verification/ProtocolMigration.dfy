/**
 * The migration steps of the lock protocol are those of the batch loop, the generation switch and the staged
 * rebuild.
 */
module ProtocolMigration {
  import opened Domain
  import opened Routing
  import opened ProtocolState
  import opened ProtocolSteps
  import opened ProtocolInvariant
  import opened ProtocolCommits
  import Staging

  /** Directories that stand for a map give it as their live bindings, each key in its place. */
  lemma StandsLive(d: Data, logical: Table, waiting: set<Key>)
    requires Stands(d.hash, d.active, d.previous, logical, waiting) && |d.active| > 0
    ensures Placed(d) && forall k :: Live(d, k) == Lookup(logical, k)
  {
    forall k
      ensures Live(d, k) == Lookup(logical, k)
      ensures Find(d.hash, d.previous, k).Some? ==> Find(d.hash, d.active, k) == None
    {
      assert k in waiting <==> Find(d.hash, d.previous, k).Some?;
    }
  }

  /** The keys of the map that still wait in the previous directory. */
  ghost function Waiting(d: Data): set<Key> {
    set k | k in d.published && Find(d.hash, d.previous, k).Some?
  }

  /** Under exclusive routing, the directories stand for the published map. */
  lemma ExclusiveStands(s: State, t: nat)
    requires Inv(s) && t < |s.threads| && s.threads[t].XHold?
    ensures |s.d.active| > 0 && Stands(s.d.hash, s.d.active, s.d.previous, s.d.published, Waiting(s.d))
  {
    hide ThreadsOk, CommittedOk, CacheOk, Excluded;
    OutsidersOk(s, t, s.d);
    forall k ensures Lookup(s.d.published, k) == Live(s.d, k) {
      ExclusiveQuiet(s, t, k);
    }
    PublishedStands(s.d);
  }

  lemma PublishedStands(d: Data)
    requires Placed(d) && forall k :: Lookup(d.published, k) == Live(d, k)
    ensures Stands(d.hash, d.active, d.previous, d.published, Waiting(d))
  {
    forall k
      ensures k in Waiting(d) <==> Find(d.hash, d.previous, k).Some?
      ensures Lookup(d.published, k) == if k in Waiting(d) then Find(d.hash, d.previous, k)
              else Find(d.hash, d.active, k)
    {
      assert Lookup(d.published, k) == Live(d, k);
    }
  }

  /** The state after the directories are replaced. */
  function Moved(s: State, t: nat, active: seq<Slot>, previous: seq<Slot>): State
    requires t < |s.threads|
  {
    Go(s, t, s.d.(active := active, previous := previous), XHold)
  }

  /** Directories that stand for the same map are one protocol step apart. */
  lemma SameMapRearranges(s: State, t: nat, active: seq<Slot>, previous: seq<Slot>, waiting: set<Key>)
    requires Inv(s) && t < |s.threads| && s.threads[t].XHold? && |active| > 0
    requires Stands(s.d.hash, active, previous, s.d.published, waiting)
    ensures Rearrange(s, Moved(s, t, active, previous), t)
  {
    hide Stands, Placed, Inv;
    ExclusiveStands(s, t);
    StandsLive(s.d, s.d.published, Waiting(s.d));
    StandsLive(Moved(s, t, active, previous).d, s.d.published, waiting);
  }

  /** Moving one waiting key to its active slot. */
  lemma MoveRearranges(s: State, t: nat, k: Key)
    requires Inv(s) && t < |s.threads| && s.threads[t].XHold? && k in Waiting(s.d)
    ensures |s.d.active| > 0 && |s.d.previous| > 0
    ensures var i, j := ActiveIndex(s.d, k), IndexOf(s.d.hash, k, |s.d.previous|);
            && k in TableOf(s.d.previous[j])
            && Rearrange(s, Moved(s, t, s.d.active[i := Some(TableOf(s.d.active[i])[k := TableOf(s.d.previous[j])[k]])],
                                  s.d.previous[j := Some(TableOf(s.d.previous[j]) - {k})]), t)
  {
    hide Stands, Inv, Rearrange;
    ExclusiveStands(s, t);
    var i := ActiveIndex(s.d, k);
    PromoteKey(s.d.hash, s.d.active, s.d.previous, s.d.published, Waiting(s.d), k);
    var j := IndexOf(s.d.hash, k, |s.d.previous|);
    SameMapRearranges(s, t, s.d.active[i := Some(TableOf(s.d.active[i])[k := TableOf(s.d.previous[j])[k]])],
                      s.d.previous[j := Some(TableOf(s.d.previous[j]) - {k})], Waiting(s.d) - {k});
  }

  /** Taking a drained slot out of the previous directory. */
  lemma RetireRearranges(s: State, t: nat, j: nat)
    requires Inv(s) && t < |s.threads| && s.threads[t].XHold? && j < |s.d.previous| && TableOf(s.d.previous[j]) == map[]
    ensures |s.d.active| > 0 && Rearrange(s, Moved(s, t, s.d.active, s.d.previous[j := None]), t)
  {
    hide Stands, Inv, Rearrange;
    ExclusiveStands(s, t);
    RetireSlot(s.d.hash, s.d.active, s.d.previous, s.d.published, Waiting(s.d), j);
    SameMapRearranges(s, t, s.d.active, s.d.previous[j := None], Waiting(s.d));
  }

  /** Dropping a previous directory whose slots are all retired. */
  lemma FinishRearranges(s: State, t: nat)
    requires Inv(s) && t < |s.threads| && s.threads[t].XHold? && forall j :: 0 <= j < |s.d.previous| ==>
             s.d.previous[j] == None
    ensures |s.d.active| > 0 && Rearrange(s, Moved(s, t, s.d.active, []), t)
  {
    hide Stands, Inv, Rearrange;
    ExclusiveStands(s, t);
    DropEmptySource(s.d.hash, s.d.active, s.d.previous, s.d.published, Waiting(s.d));
    SameMapRearranges(s, t, s.d.active, [], {});
  }

  /** Starting a generation: the directory becomes the previous one over empty slots. */
  lemma SwitchRearranges(s: State, t: nat, fresh_: seq<Slot>)
    requires Inv(s) && t < |s.threads| && s.threads[t].XHold? && s.d.previous == [] && |fresh_| > 0
    requires forall i :: 0 <= i < |fresh_| ==> fresh_[i] == None
    ensures Rearrange(s, Moved(s, t, fresh_, s.d.active), t)
  {
    hide Stands, Inv, Rearrange;
    ExclusiveStands(s, t);
    assert Waiting(s.d) == {};
    SwitchGeneration(s.d.hash, s.d.active, s.d.published, fresh_);
    SameMapRearranges(s, t, fresh_, s.d.active, s.d.published.Keys);
  }

  /** Publishing a staged directory in place of both generations. */
  lemma RebuildRearranges(s: State, t: nat, target: nat, dest: seq<Slot>)
    requires Inv(s) && t < |s.threads| && s.threads[t].XHold? && Staging.Staged(s.d.hash, target, dest, s.d.published)
    ensures Rearrange(s, Moved(s, t, dest, []), t)
  {
    Staging.StagedStands(s.d.hash, target, dest, s.d.published);
    hide Stands, Inv, Rearrange;
    SameMapRearranges(s, t, dest, [], {});
  }

  /** What either staging order merges under exclusive routing is the published map. */
  lemma MergedIsPublished(s: State, t: nat, merged: Table)
    requires Inv(s) && t < |s.threads| && s.threads[t].XHold?
    requires Staging.ActiveWins(s.d.hash, s.d.active, s.d.previous, merged)
    ensures merged == s.d.published
  {
    hide Inv;
    ExclusiveStands(s, t);
    forall k ensures Lookup(merged, k) == Lookup(s.d.published, k) {
      assert k in Waiting(s.d) <==> Find(s.d.hash, s.d.previous, k).Some?;
    }
    SameLookups(merged, s.d.published);
  }
}
