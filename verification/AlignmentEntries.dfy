/** Which leaders and boundaries the alignment record holds: exactly those of the accepted commits and records of the
epoch, each as it was found first. */
module AlignmentEntries {
  import opened Wrappers
  import opened AnchorSearch
  import opened AlignmentThreads

  // ---------------------------------------------------------------------------------------------
  // One critical section
  // ---------------------------------------------------------------------------------------------

  /** Under the lock a fetched block counts when the record still is at the snapshot's epoch and anchor, and the block
  is finalized by its successor or is the one that the anchor's recorded boundary names at the pointer. */
  predicate Counts(d: Data, v: Snapshot, f: Fetched) {
    (d.epoch, d.anchor) == (v.epoch, v.anchor)
    && (f.finalized || (d.anchor in d.boundaries && d.boundaries[d.anchor] == Stats(d.observed, f.hash)))
  }

  /** An accepted commit gives every leader of the block an entry, the fetched one unless there was one before; it
  gives no other leader an entry, and moves the pointer on by one from the snapshot's place. A refused commit
  changes nothing. */
  lemma CommitEntries(d: Data, v: Snapshot, f: Fetched)
    ensures var after := CommitBlock(d, v, f);
            && (!Counts(d, v, f) ==> after == d)
            && (Counts(d, v, f) ==>
                  && (forall l :: l in after.leaders <==> l in d.leaders || l in f.leaders)
                  && (forall l | l in f.leaders && l !in d.leaders :: after.leaders[l] == f.leaders[l])
                  && after.observed == d.observed + (if d.observed == v.observed then 1 else 0))
            && (forall l | l in d.leaders :: l in after.leaders && after.leaders[l] == d.leaders[l])
            && (after.epoch, after.anchor, after.boundaries) == (d.epoch, d.anchor, d.boundaries)
  {
  }

  predicate Records(d: Data, epoch: int, anchor: nat) {
    d.epoch == epoch && d.anchor == anchor && anchor !in d.boundaries
  }

  /** A boundary is recorded once, for the current anchor only, and raises the pointer to it. */
  lemma RecordEntries(d: Data, epoch: int, anchor: nat, stats: Stats)
    ensures var after := CommitRotation(d, epoch, anchor, stats);
            && (!Records(d, epoch, anchor) ==> after == d)
            && (Records(d, epoch, anchor) ==>
                  && (forall a :: a in after.boundaries <==> a in d.boundaries || a == anchor)
                  && after.boundaries[anchor] == stats
                  && after.observed >= stats.index && after.observed >= d.observed
                  && (after.observed == stats.index || after.observed == d.observed))
            && (forall a | a in d.boundaries :: a in after.boundaries && after.boundaries[a] == d.boundaries[a])
            && (after.epoch, after.anchor, after.leaders) == (d.epoch, d.anchor, d.leaders)
  {
  }

  // ---------------------------------------------------------------------------------------------
  // Over runs
  // ---------------------------------------------------------------------------------------------

  predicate StepAt(run: seq<System>, actions: seq<Action>, anchors: nat, i: nat)
    requires i < |actions| && |run| == |actions| + 1
  {
    Enabled(run[i], actions[i], anchors) && run[i + 1] == Apply(run[i], actions[i], anchors)
  }

  /** The run with the actions between its points. */
  ghost predicate Played(run: seq<System>, actions: seq<Action>, anchors: nat) {
    && anchors > 0 && |run| == |actions| + 1
    && (exists epoch :: run[0] == System(FreshData(epoch), None, Resting))
    && forall i | 0 <= i < |actions| :: StepAt(run, actions, anchors, i)
  }

  lemma PlayedIsRun(run: seq<System>, actions: seq<Action>, anchors: nat)
    requires Played(run, actions, anchors)
    ensures IsRun(run, anchors)
  {
    forall i | 0 < i < |run|
      ensures IsStep(run[i - 1], run[i], anchors)
    {
      assert StepAt(run, actions, anchors, i - 1);
    }
  }

  /** Step i commits a block that is accepted and seals this leader. */
  predicate Finds(run: seq<System>, actions: seq<Action>, i: nat, leader: string)
    requires i < |actions| < |run|
  {
    && actions[i].Commit? && run[i].reader.Some? && Counts(run[i].data, run[i].reader.value, actions[i].fetched)
    && leader in actions[i].fetched.leaders
  }

  /** Step i is the first of its epoch that does, and lies before point j of the same epoch. */
  ghost predicate FindsFirst(run: seq<System>, actions: seq<Action>, j: nat, i: nat, leader: string)
    requires j < |run| && |run| == |actions| + 1
  {
    && i < j && run[i].data.epoch == run[j].data.epoch && Finds(run, actions, i, leader)
    && forall h: nat | h < i && run[h].data.epoch == run[j].data.epoch :: !Finds(run, actions, h, leader)
  }

  /** The entry of the leader at point j is that of the first step which found it; without such a step there is none. */
  ghost predicate EntryIsFirstFound(run: seq<System>, actions: seq<Action>, j: nat, leader: string)
    requires j < |run| && |run| == |actions| + 1
  {
    var leaders := run[j].data.leaders;
    && (leader in leaders <==> exists i: nat :: FindsFirst(run, actions, j, i, leader))
    && forall i: nat | FindsFirst(run, actions, j, i, leader) :: leaders[leader] == actions[i].fetched.leaders[leader]
  }

  lemma EpochsGrow(run: seq<System>, actions: seq<Action>, anchors: nat, i: nat, j: nat)
    requires Played(run, actions, anchors) && i <= j < |run|
    ensures run[i].data.epoch <= run[j].data.epoch
  {
    PlayedIsRun(run, actions, anchors);
    RunKeepsOk(run, anchors, i, j);
  }

  /** After a reset nothing has been found in the new epoch. */
  lemma NothingFoundAfterReset(run: seq<System>, actions: seq<Action>, anchors: nat, j: nat, leader: string)
    requires Played(run, actions, anchors) && j < |actions| && actions[j].RotateEpoch?
    ensures EntryIsFirstFound(run, actions, j + 1, leader)
  {
    assert StepAt(run, actions, anchors, j);
    forall i: nat | i < j + 1
      ensures run[i].data.epoch < run[j + 1].data.epoch
    {
      EpochsGrow(run, actions, anchors, i, j);
    }
  }

  lemma EpochStays(s: System, a: Action, anchors: nat)
    requires Enabled(s, a, anchors) && !a.RotateEpoch?
    ensures Apply(s, a, anchors).data.epoch == s.data.epoch
    ensures !a.Commit? ==> Apply(s, a, anchors).data.leaders == s.data.leaders
    ensures !a.Record? ==> Apply(s, a, anchors).data.boundaries == s.data.boundaries
  {
  }

  /** The steps that were first up to point j are first up to the next point; only step j itself can be another one. */
  lemma FirstCarriesOver(run: seq<System>, actions: seq<Action>, j: nat, i: nat, leader: string)
    requires |run| == |actions| + 1 && j < |actions| && run[j + 1].data.epoch == run[j].data.epoch
    ensures i != j ==> (FindsFirst(run, actions, j + 1, i, leader) <==> FindsFirst(run, actions, j, i, leader))
    ensures FindsFirst(run, actions, j + 1, j, leader) ==> forall h: nat :: !FindsFirst(run, actions, j, h, leader)
  {
  }

  /** Where a step has found the leader, there is a first one. */
  lemma {:induction false} SomeStepIsFirst(run: seq<System>, actions: seq<Action>, j: nat, h: nat, leader: string)
    requires j < |run| && |run| == |actions| + 1 && h < j && run[h].data.epoch == run[j].data.epoch
    requires Finds(run, actions, h, leader)
    ensures exists i: nat :: FindsFirst(run, actions, j, i, leader)
  {
    if g: nat :| g < h && run[g].data.epoch == run[j].data.epoch && Finds(run, actions, g, leader) {
      SomeStepIsFirst(run, actions, j, g, leader);
    } else {
      assert FindsFirst(run, actions, j, h, leader);
    }
  }

  lemma NewEntryIsFirst(run: seq<System>, actions: seq<Action>, anchors: nat, j: nat, leader: string)
    requires Played(run, actions, anchors) && j < |actions| && run[j + 1].data.epoch == run[j].data.epoch
    requires EntryIsFirstFound(run, actions, j, leader) && leader !in run[j].data.leaders
    requires Finds(run, actions, j, leader)
    ensures FindsFirst(run, actions, j + 1, j, leader)
  {
    forall h: nat | h < j && run[h].data.epoch == run[j].data.epoch
      ensures !Finds(run, actions, h, leader)
    {
      if Finds(run, actions, h, leader) {
        SomeStepIsFirst(run, actions, j, h, leader);
      }
    }
  }

  lemma EntryKept(run: seq<System>, actions: seq<Action>, j: nat, next: nat, leader: string)
    requires |run| == |actions| + 1 && next == j + 1 < |run| && run[next].data.epoch == run[j].data.epoch
    requires EntryIsFirstFound(run, actions, j, leader)
    requires leader in run[j].data.leaders <==> leader in run[next].data.leaders
    requires leader in run[j].data.leaders ==> run[next].data.leaders[leader] == run[j].data.leaders[leader]
    requires Finds(run, actions, j, leader) ==> leader in run[j].data.leaders
    ensures EntryIsFirstFound(run, actions, next, leader)
  {
    if leader in run[j].data.leaders {
      var first: nat :| FindsFirst(run, actions, j, first, leader);
      assert !FindsFirst(run, actions, next, j, leader);
    }
    forall i: nat
      ensures FindsFirst(run, actions, next, i, leader) <==> FindsFirst(run, actions, j, i, leader)
    {
      FirstCarriesOver(run, actions, j, i, leader);
    }
  }

  lemma EntryAdded(run: seq<System>, actions: seq<Action>, anchors: nat, j: nat, next: nat, leader: string)
    requires Played(run, actions, anchors)
    requires next == j + 1 < |run| && run[next].data.epoch == run[j].data.epoch
    requires EntryIsFirstFound(run, actions, j, leader) && leader !in run[j].data.leaders
    requires Finds(run, actions, j, leader) && leader in run[next].data.leaders
    requires run[next].data.leaders[leader] == actions[j].fetched.leaders[leader]
    ensures EntryIsFirstFound(run, actions, next, leader)
  {
    NewEntryIsFirst(run, actions, anchors, j, leader);
    forall i: nat
      ensures i != j ==> !FindsFirst(run, actions, next, i, leader)
    {
      FirstCarriesOver(run, actions, j, i, leader);
    }
  }

  lemma EntryAfterStep(run: seq<System>, actions: seq<Action>, anchors: nat, j: nat, leader: string)
    requires Played(run, actions, anchors) && j < |actions| && !actions[j].RotateEpoch?
    requires EntryIsFirstFound(run, actions, j, leader)
    ensures EntryIsFirstFound(run, actions, j + 1, leader)
  {
    assert StepAt(run, actions, anchors, j);
    EpochStays(run[j], actions[j], anchors);
    if actions[j].Commit? {
      CommitEntries(run[j].data, run[j].reader.value, actions[j].fetched);
    }
    if Finds(run, actions, j, leader) && leader !in run[j].data.leaders {
      EntryAdded(run, actions, anchors, j, j + 1, leader);
    } else {
      EntryKept(run, actions, j, j + 1, leader);
    }
  }

  /** At every point of every run: a leader has an entry exactly if a commit of the epoch found it, and the entry is the
  one found first. So no leader of an accepted block is missing, and none has an entry without one. */
  lemma {:induction false} EntriesAreFirstFound(
      run: seq<System>, actions: seq<Action>, anchors: nat, j: nat, leader: string)
    requires Played(run, actions, anchors) && j < |run|
    ensures EntryIsFirstFound(run, actions, j, leader)
  {
    if j > 0 {
      if actions[j - 1].RotateEpoch? {
        NothingFoundAfterReset(run, actions, anchors, j - 1, leader);
      } else {
        EntriesAreFirstFound(run, actions, anchors, j - 1, leader);
        EntryAfterStep(run, actions, anchors, j - 1, leader);
      }
    }
  }

  /** Step i records the boundary of this anchor. */
  predicate RecordsAt(run: seq<System>, actions: seq<Action>, i: nat, anchor: nat)
    requires i < |actions| < |run|
  {
    && actions[i].Record? && run[i].monitor.Checked? && run[i].monitor.anchor == anchor
    && Records(run[i].data, run[i].monitor.epoch, anchor)
  }

  /** The boundary of the anchor at point j is the one that a step of the epoch recorded; without one there is none. */
  ghost predicate BoundaryIsRecorded(run: seq<System>, actions: seq<Action>, j: nat, anchor: nat)
    requires j < |run| && |run| == |actions| + 1
  {
    var d := run[j].data;
    && (anchor in d.boundaries <==>
        exists i: nat :: i < j && run[i].data.epoch == d.epoch && RecordsAt(run, actions, i, anchor))
    && forall i: nat | i < j && run[i].data.epoch == d.epoch && RecordsAt(run, actions, i, anchor) ::
         d.boundaries[anchor] == actions[i].stats
  }

  lemma NothingRecordedAfterReset(run: seq<System>, actions: seq<Action>, anchors: nat, j: nat, anchor: nat)
    requires Played(run, actions, anchors) && j < |actions| && actions[j].RotateEpoch?
    ensures BoundaryIsRecorded(run, actions, j + 1, anchor)
  {
    assert StepAt(run, actions, anchors, j);
    forall i: nat | i < j + 1
      ensures run[i].data.epoch < run[j + 1].data.epoch
    {
      EpochsGrow(run, actions, anchors, i, j);
    }
  }

  lemma BoundaryAfterStep(run: seq<System>, actions: seq<Action>, anchors: nat, j: nat, anchor: nat)
    requires Played(run, actions, anchors) && j < |actions| && !actions[j].RotateEpoch?
    requires BoundaryIsRecorded(run, actions, j, anchor)
    ensures BoundaryIsRecorded(run, actions, j + 1, anchor)
  {
    assert StepAt(run, actions, anchors, j);
    EpochStays(run[j], actions[j], anchors);
    if actions[j].Record? {
      RecordEntries(run[j].data, run[j].monitor.epoch, run[j].monitor.anchor, actions[j].stats);
    }
  }

  /** The same of the boundaries: those of the epoch's recordings, as recorded, and no other. */
  lemma {:induction false} BoundariesAreRecorded(
      run: seq<System>, actions: seq<Action>, anchors: nat, j: nat, anchor: nat)
    requires Played(run, actions, anchors) && j < |run|
    ensures BoundaryIsRecorded(run, actions, j, anchor)
  {
    if j > 0 {
      if actions[j - 1].RotateEpoch? {
        NothingRecordedAfterReset(run, actions, anchors, j - 1, anchor);
      } else {
        BoundariesAreRecorded(run, actions, anchors, j - 1, anchor);
        BoundaryAfterStep(run, actions, anchors, j - 1, anchor);
      }
    }
  }
}
