/** Generation and progress metadata of online migrations. */
module Tracker {
  class RebalanceTracker {
    var migrating: bool
    var paused: bool
    var complete: bool
    var generation: nat
    var fromShards: nat
    var toShards: nat
    var initialEntries: nat
    var movedEntries: nat
    var completedShards: nat
    var totalShards: nat

    /** Between batches a running migration always has a source slot left to drain. */
    ghost predicate Valid()
      reads this
    {
      && (migrating ==> completedShards < totalShards == fromShards && !complete)
      && (!migrating ==> !paused)
    }

    constructor ()
      ensures Valid() && !migrating && generation == 0
    {
      migrating, paused, complete, generation := false, false, false, 0;
      fromShards, toShards, initialEntries := 0, 0, 0;
      movedEntries, completedShards, totalShards := 0, 0, 0;
    }

    method BeginWithCounts(from: nat, to: nat, entries: nat)
      requires from > 0
      modifies this
      ensures Valid() && migrating && !paused
      ensures generation == old(generation) + 1
      ensures fromShards == totalShards == from && toShards == to && initialEntries == entries
      ensures completedShards == 0 && movedEntries == 0
    {
      generation, migrating := generation + 1, true;
      fromShards, toShards, initialEntries, totalShards := from, to, entries, from;
      movedEntries, completedShards, paused, complete := 0, 0, false, false;
    }

    method Step()
      modifies this`completedShards
      ensures completedShards == old(completedShards) + 1
    {
      completedShards := completedShards + 1;
    }

    method Moved()
      modifies this`movedEntries
      ensures movedEntries == old(movedEntries) + 1
    {
      movedEntries := movedEntries + 1;
    }

    method Finish()
      modifies this`migrating, this`paused, this`complete
      ensures Valid() && !migrating && !paused && complete
    {
      migrating, paused, complete := false, false, true;
    }

    /** Publishes a staged stop-the-world generation in one update. */
    method FinishStaged(from: nat, to: nat, moved: nat)
      modifies this
      ensures Valid() && !migrating && complete
      ensures generation == old(generation) + 1
      ensures completedShards == totalShards == fromShards == from && toShards == to
      ensures initialEntries == movedEntries == moved
    {
      generation, migrating := generation + 1, false;
      fromShards, toShards, initialEntries, movedEntries := from, to, moved, moved;
      completedShards, totalShards, complete, paused := from, from, true, false;
    }

    method Pause(pause: bool) returns (accepted: bool)
      requires Valid()
      modifies this`paused
      ensures Valid() && accepted == migrating
      ensures paused == if migrating then pause else old(paused)
    {
      if !migrating {
        return false;
      }
      paused := pause;
      accepted := true;
    }
  }
}
