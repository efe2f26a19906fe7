/** Every epoch that a sequencer has passed has its boundary on record, so that its rotation can be signed. */
module EpochBoundaries {
  import opened Wrappers
  import opened Signatures
  import Voting
  import opened Sequencing
  import opened LastMile
  import opened LastMileSafety
  import opened LastMileAgreement

  predicate BoundariesUpTo(s: Store, epoch: int) {
    forall e | 0 <= e < epoch :: e in s.boundaries && s.boundaries[e].epoch == e
  }

  /** Both trackers have only passed epochs with a boundary. */
  predicate PassedHaveBoundaries(s: Store) {
    BoundariesUpTo(s, s.tracker.epoch) && BoundariesUpTo(s, s.stored.epoch)
  }

  lemma {:induction false} FollowProofsRecords(s: Store, next: Tracker, v: View)
    requires PassedHaveBoundaries(s) && BoundariesUpTo(s, next.epoch)
    requires forall e | e in v.rotationProofs && e >= 0 ::
             v.rotationProofs[e].nextEpochId == v.rotationProofs[e].epochId + 1
    requires next.epoch >= 0
    ensures PassedHaveBoundaries(FollowProofs(s, next, v).0)
    decreases v.approvementEpoch - next.epoch
  {
    FollowUnfolds(s, next, v);
    if next.epoch < v.approvementEpoch && next.epoch in v.rotationProofs
       && v.rotationProofs[next.epoch].nextEpochId == next.epoch + 1 {
      var p := v.rotationProofs[next.epoch];
      FollowProofsRecords(AfterProof(s, p), FurtherTracker(p), v);
    }
  }

  lemma SequenceRecords(s: Store, v: View)
    requires PassedHaveBoundaries(s)
    requires s.tracker.epoch in v.handlers ==> v.handlers[s.tracker.epoch].epoch.id == s.tracker.epoch
    ensures PassedHaveBoundaries(SequenceBlock(s, v))
  {
  }

  lemma TurnRecords(w: World, net: Sequencers, s: Store, v: View)
    requires WorldOk(w) && s.tracker.epoch >= 0 && PassedHaveBoundaries(s) && ViewOk(w, net, s, v)
    ensures PassedHaveBoundaries(Turn(s, v))
  {
    assert EpochOk(w, s.tracker.epoch);
    FollowProofsRecords(s, s.tracker, v);
    FollowProofsShape(s, s.tracker, v);
    var (synced, done) := SyncToEpochStart(s, v);
    if !done {
      SequenceRecords(synced, v);
    }
  }

  ghost predicate AllRecorded(net: Sequencers) {
    forall k | k in net.nodes :: PassedHaveBoundaries(net.nodes[k])
  }

  lemma ActionRecords(w: World, net: Sequencers, k: Key, a: Action)
    requires WorldOk(w) && k in net.nodes && net.nodes[k].tracker.epoch >= 0 && Possible(w, net, k, a)
    requires PassedHaveBoundaries(net.nodes[k])
    ensures PassedHaveBoundaries(StoreAfter(net.nodes[k], a))
  {
    if a.TakeTurn? {
      TurnRecords(w, net, net.nodes[k], a.view);
    }
  }

  lemma ApplyRecords(net: Sequencers, k: Key, a: Action)
    requires AllRecorded(net) && k in net.nodes && PassedHaveBoundaries(StoreAfter(net.nodes[k], a))
    ensures AllRecorded(Apply(net, k, a))
  {
  }

  lemma StepRecords(w: World, before: Sequencers, after: Sequencers)
    requires WorldOk(w) && NetOk(w, before) && AllRecorded(before) && IsStep(w, before, after)
    ensures AllRecorded(after)
  {
    var k, a :| k in before.nodes && Possible(w, before, k, a) && after == Apply(before, k, a);
    assert StoreOk(w, before.nodes[k]);
    ActionRecords(w, before, k, a);
    ApplyRecords(before, k, a);
  }

  ghost predicate KeepsRecordedAt(run: seq<Sequencers>, i: nat)
    requires 0 < i < |run|
  {
    AllRecorded(run[i - 1]) ==> AllRecorded(run[i])
  }

  lemma EveryPointRecords(w: World, run: seq<Sequencers>, i: nat)
    requires WorldOk(w) && IsRun(w, run) && AllNetOk(w, run) && 0 < i < |run|
    ensures KeepsRecordedAt(run, i)
  {
    if AllRecorded(run[i - 1]) {
      assert StepAt(w, run, i);
      StepRecords(w, run[i - 1], run[i]);
    }
  }

  lemma {:induction false} RecordedByInduction(run: seq<Sequencers>, i: nat)
    requires i < |run| && AllRecorded(run[0]) && forall m | 0 < m < |run| :: KeepsRecordedAt(run, m)
    ensures AllRecorded(run[i])
  {
    if i > 0 {
      RecordedByInduction(run, i - 1);
      assert KeepsRecordedAt(run, i);
    }
  }

  /** Over every run, through turns, fast-forwards and restarts: no epoch is passed without its boundary. */
  lemma RunRecordsBoundaries(w: World, run: seq<Sequencers>, i: nat)
    requires WorldOk(w) && IsRun(w, run) && HonestQuorums(w, run[0]) && i < |run|
    ensures AllRecorded(run[i])
  {
    RunIsOk(w, run);
    forall m | 0 < m < |run|
      ensures KeepsRecordedAt(run, m)
    {
      EveryPointRecords(w, run, m);
    }
    RecordedByInduction(run, i);
  }

  /** The epoch's end is on record as the block at this height with this hash. */
  predicate EndRecorded(after: Store, e: int, h: int, hashes: map<BlockId, Hash>) {
    && h in after.heights && after.heights[h].BlockId? && after.heights[h].epoch == e
    && e in after.boundaries
    && after.boundaries[e] == NewBoundary(e, h, after.heights[h], HashIn(hashes, after.heights[h]))
  }

  lemma SequencingRecordsEnd(s: Store, v: View, epoch: Voting.Epoch)
    requires s.tracker.epoch in v.handlers ==> v.handlers[s.tracker.epoch].epoch == epoch
    requires epoch.id == s.tracker.epoch && s.tracker.nextHeight !in s.heights
    requires s.tracker.nextHeight in SequenceBlock(s, v).heights
    requires SequenceBlock(s, v).tracker.leaderIndex == |epoch.leaders|
    ensures EndRecorded(SequenceBlock(s, v), s.tracker.epoch, s.tracker.nextHeight, v.hashes)
  {
  }

  /** A turn that maps a block and finds no further leader records the epoch's end at once: that height,
  block and hash. */
  lemma LastBlockRecordsBoundary(w: World, net: Sequencers, s: Store, v: View)
    requires WorldOk(w) && s.tracker.epoch >= 0 && MapsOk(w, s) && ViewOk(w, net, s, v)
    requires s.tracker.nextHeight in Turn(s, v).heights
    requires Turn(s, v).tracker.leaderIndex == |Leaders(w, s.tracker.epoch)|
    ensures EndRecorded(Turn(s, v), s.tracker.epoch, s.tracker.nextHeight, v.hashes)
  {
    assert EpochOk(w, s.tracker.epoch);
    NextHeightIsFree(w, s);
    FollowProofsShape(s, s.tracker, v);
    SequencingRecordsEnd(SyncToEpochStart(s, v).0, v, w.epoch(s.tracker.epoch));
  }
}
