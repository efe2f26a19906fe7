/** Every honest sequencer, in every run, writes the one canonical sequence of heights. */
module LastMileSafety {
  import opened Wrappers
  import opened Signatures
  import opened Voting
  import opened Sequencing
  import opened LastMile

  // ---------------------------------------------------------------------------------------------
  // The invariant of one store
  // ---------------------------------------------------------------------------------------------

  predicate OnTrack(w: World, t: Tracker) {
    && t.epoch >= 0 && t.leaderIndex >= 0 && t.blockIndex >= 0
    && Reached(w, t.epoch, t.leaderIndex)
    && (t.leaderIndex == |Leaders(w, t.epoch)| ==> t.blockIndex == 0)
    && (t.leaderIndex < |Leaders(w, t.epoch)| && Closed(w, t.epoch, Leaders(w, t.epoch)[t.leaderIndex]) ==>
          t.blockIndex <= Blocks(w, t.epoch, t.leaderIndex))
    && t.heightInEpoch == Before(w, t.epoch, t.leaderIndex) + t.blockIndex
    && t.nextHeight == Start(w, t.epoch) + t.heightInEpoch
  }

  ghost predicate BoundaryOk(w: World, epoch: int, height: int, id: BlockId) {
    && epoch >= 0
    && Reached(w, epoch, |Leaders(w, epoch)|)
    && height == Start(w, epoch + 1) - 1
    && (height >= 0 ==> Canonical(w, height, id))
  }

  ghost predicate MappingOk(w: World, h: int, id: BlockId, heightInEpoch: int) {
    Canonical(w, h, id) && heightInEpoch == h - Start(w, id.epoch)
  }

  ghost predicate MapsOk(w: World, s: Store) {
    && s.heights.Keys == s.inEpoch.Keys
    && forall h | h in s.heights :: 0 <= h < s.tracker.nextHeight && MappingOk(w, h, s.heights[h], s.inEpoch[h])
  }

  ghost predicate BoundariesOk(w: World, s: Store) {
    forall e | e in s.boundaries ::
      s.boundaries[e].epoch == e && BoundaryOk(w, e, s.boundaries[e].finishedOnHeight, s.boundaries[e].finishedOnId)
  }

  ghost predicate StoreOk(w: World, s: Store) {
    && OnTrack(w, s.tracker) && OnTrack(w, s.stored)
    && s.tracker.nextHeight <= s.stored.nextHeight
    && MapsOk(w, s) && BoundariesOk(w, s)
  }

  // ---------------------------------------------------------------------------------------------
  // Sequencing keeps it
  // ---------------------------------------------------------------------------------------------

  /** The tracker's position determines everything else about a tracker that is on track. */
  lemma OnTrackDetermined(w: World, a: Tracker, b: Tracker)
    requires OnTrack(w, a) && OnTrack(w, b)
    requires a.epoch == b.epoch && a.leaderIndex == b.leaderIndex && a.blockIndex == b.blockIndex
    ensures a == b
  {
  }

  lemma LeaderDone(w: World, t: Tracker)
    requires OnTrack(w, t) && SealsOk(w, t.epoch) && t.leaderIndex < |Leaders(w, t.epoch)|
    requires var l := Leaders(w, t.epoch)[t.leaderIndex];
             Closed(w, t.epoch, l) && t.blockIndex > Last(w, t.epoch, l).index
    ensures OnTrack(w, t.NextLeader())
  {
  }

  lemma MapsKept(w: World, s: Store, t: Tracker)
    requires StoreOk(w, s) && OnTrack(w, t) && t.nextHeight >= s.tracker.nextHeight
    ensures StoreOk(w, MoveTo(s, t))
  {
  }

  lemma EpochDone(w: World, t: Tracker)
    requires OnTrack(w, t) && t.leaderIndex == |Leaders(w, t.epoch)|
    ensures OnTrack(w, t.AdvanceToNextEpoch()) && t.nextHeight == Start(w, t.epoch + 1)
  {
  }

  lemma CompletedBoundaryOk(w: World, s: Store, v: View)
    requires OnTrack(w, s.tracker) && MapsOk(w, s) && s.tracker.leaderIndex == |Leaders(w, s.tracker.epoch)|
    requires CompletedBoundary(s, v).Some?
    ensures var b := CompletedBoundary(s, v).value;
            b.epoch == s.tracker.epoch && BoundaryOk(w, b.epoch, b.finishedOnHeight, b.finishedOnId)
  {
  }

  lemma BoundaryAdded(w: World, s: Store, stored: Tracker, b: Boundary)
    requires StoreOk(w, s) && OnTrack(w, stored) && stored.nextHeight >= s.tracker.nextHeight
    requires BoundaryOk(w, b.epoch, b.finishedOnHeight, b.finishedOnId)
    ensures StoreOk(w, s.(stored := stored, boundaries := s.boundaries[b.epoch := b]))
  {
  }

  lemma FinishEpochOk(w: World, s: Store, v: View)
    requires StoreOk(w, s) && s.tracker.leaderIndex == |Leaders(w, s.tracker.epoch)|
    ensures StoreOk(w, FinishEpoch(s, v))
  {
    if CompletedBoundary(s, v).Some? {
      var b := CompletedBoundary(s, v).value;
      CompletedBoundaryOk(w, s, v);
      var finished := s.(stored := s.tracker, boundaries := s.boundaries[b.epoch := b]);
      BoundaryAdded(w, s, s.tracker, b);
      EpochDone(w, s.tracker);
      MapsKept(w, finished, s.tracker.AdvanceToNextEpoch());
    }
  }

  /** The tracker's block, when confirmed, is canonical at the tracker's next height. */
  lemma TrackerBlockIsCanonical(w: World, t: Tracker, id: BlockId)
    requires OnTrack(w, t) && t.leaderIndex < |Leaders(w, t.epoch)|
    requires id == BlockId(t.epoch, Leaders(w, t.epoch)[t.leaderIndex], t.blockIndex)
    requires Closed(w, t.epoch, id.creator) ==> t.blockIndex < Blocks(w, t.epoch, t.leaderIndex)
    ensures MappingOk(w, t.nextHeight, id, t.heightInEpoch)
  {
  }

  lemma MovedOnTrack(w: World, t: Tracker, isLastBlock: bool)
    requires OnTrack(w, t) && t.leaderIndex < |Leaders(w, t.epoch)|
    requires var l := Leaders(w, t.epoch)[t.leaderIndex];
             && (Closed(w, t.epoch, l) ==> t.blockIndex < Blocks(w, t.epoch, t.leaderIndex))
             && (isLastBlock ==> Closed(w, t.epoch, l) && t.blockIndex + 1 == Blocks(w, t.epoch, t.leaderIndex))
    ensures var moved := if isLastBlock then t.NextLeader() else t.(blockIndex := t.blockIndex + 1);
            OnTrack(w, moved.(nextHeight := t.nextHeight + 1, heightInEpoch := t.heightInEpoch + 1))
  {
  }

  lemma NewMappingOk(w: World, s: Store, after: Store, id: BlockId)
    requires MapsOk(w, s) && MappingOk(w, s.tracker.nextHeight, id, s.tracker.heightInEpoch)
             && s.tracker.nextHeight >= 0
    requires after.tracker.nextHeight == s.tracker.nextHeight + 1
    requires after.heights == s.heights[s.tracker.nextHeight := id]
    requires after.inEpoch == s.inEpoch[s.tracker.nextHeight := s.tracker.heightInEpoch]
    ensures MapsOk(w, after)
  {
  }

  lemma MapBlockOk(w: World, s: Store, id: BlockId, hash: Hash, isLastBlock: bool)
    requires StoreOk(w, s) && s.tracker.leaderIndex < |Leaders(w, s.tracker.epoch)|
             && w.epoch(s.tracker.epoch).id == s.tracker.epoch
    requires id == BlockId(s.tracker.epoch, Leaders(w, s.tracker.epoch)[s.tracker.leaderIndex], s.tracker.blockIndex)
    requires Closed(w, s.tracker.epoch, id.creator) ==>
             s.tracker.blockIndex < Blocks(w, s.tracker.epoch, s.tracker.leaderIndex)
    requires isLastBlock ==>
             Closed(w, s.tracker.epoch, id.creator)
               && s.tracker.blockIndex + 1 == Blocks(w, s.tracker.epoch, s.tracker.leaderIndex)
    ensures StoreOk(w, MapBlock(s, w.epoch(s.tracker.epoch), id, hash, isLastBlock))
  {
    var t := s.tracker;
    var after := MapBlock(s, w.epoch(t.epoch), id, hash, isLastBlock);
    TrackerBlockIsCanonical(w, t, id);
    MovedOnTrack(w, t, isLastBlock);
    NewMappingOk(w, s, after, id);
    if after.tracker.leaderIndex >= |Leaders(w, t.epoch)| {
      EpochDone(w, after.tracker);
      assert BoundaryOk(w, t.epoch, t.nextHeight, id);
    }
  }

  /** What a turn's view means for the tracker's leader, once voting safety has been used. */
  predicate ViewWithinSeals(w: World, t: Tracker, v: View)
    requires t.epoch >= 0
  {
    && (t.epoch in v.handlers ==> v.handlers[t.epoch].epoch == w.epoch(t.epoch))
    && AlignmentOk(w, t.epoch, v.alignment) && AlignmentOk(w, t.epoch, v.alignmentLater)
    && (forall l | l in w.alfps(t.epoch) && BlockId(t.epoch, l, t.blockIndex + 1) in v.afps
          && VerifyAfp(v.afps[BlockId(t.epoch, l, t.blockIndex + 1)], w.epoch(t.epoch)) ::
             t.blockIndex <= Last(w, t.epoch, l).index)
  }

  lemma NextAfpWithinSeal(w: World, net: Sequencers, s: Store, v: View, l: Key)
    requires s.tracker.epoch >= 0 && EpochOk(w, s.tracker.epoch) && ViewOk(w, net, s, v)
    requires Closed(w, s.tracker.epoch, l) && BlockId(s.tracker.epoch, l, s.tracker.blockIndex + 1) in v.afps
    requires VerifyAfp(v.afps[BlockId(s.tracker.epoch, l, s.tracker.blockIndex + 1)], w.epoch(s.tracker.epoch))
    ensures s.tracker.blockIndex <= Last(w, s.tracker.epoch, l).index
  {
    var nextId := BlockId(s.tracker.epoch, l, s.tracker.blockIndex + 1);
    SuccessorAfpStaysWithinSeal(w, s.tracker.epoch, l, s.tracker.blockIndex, v.afps[nextId]);
  }

  lemma ViewIsWithinSeals(w: World, net: Sequencers, s: Store, v: View)
    requires s.tracker.epoch >= 0 && WorldOk(w) && ViewOk(w, net, s, v)
    ensures ViewWithinSeals(w, s.tracker, v)
  {
    var t := s.tracker;
    forall l | l in w.alfps(t.epoch) && BlockId(t.epoch, l, t.blockIndex + 1) in v.afps
      && VerifyAfp(v.afps[BlockId(t.epoch, l, t.blockIndex + 1)], w.epoch(t.epoch))
      ensures t.blockIndex <= Last(w, t.epoch, l).index
    {
      NextAfpWithinSeal(w, net, s, v, l);
    }
  }

  /** The block of a confirmed position lies within the leader's seal, and a last block is exactly at it. */
  lemma ConfirmedWithinSeal(w: World, s: Store, v: View, hash: Hash)
    requires OnTrack(w, s.tracker) && ViewWithinSeals(w, s.tracker, v)
    requires s.tracker.epoch in v.handlers && s.tracker.leaderIndex < |Leaders(w, s.tracker.epoch)|
    requires Confirmed(s, v, v.handlers[s.tracker.epoch], Leaders(w, s.tracker.epoch)[s.tracker.leaderIndex], hash).0
    ensures var l := Leaders(w, s.tracker.epoch)[s.tracker.leaderIndex];
            && (Closed(w, s.tracker.epoch, l) ==>
               s.tracker.blockIndex < Blocks(w, s.tracker.epoch, s.tracker.leaderIndex))
            && (Confirmed(s, v, v.handlers[s.tracker.epoch], l, hash).1 ==>
                  Closed(w, s.tracker.epoch, l)
                    && s.tracker.blockIndex + 1 == Blocks(w, s.tracker.epoch, s.tracker.leaderIndex))
  {
  }

  /** A turn that finds the tracker at a leader: it moves past a finished one, maps a confirmed block, or waits. */
  lemma SequenceLeaderOk(w: World, s: Store, v: View)
    requires StoreOk(w, s) && ViewWithinSeals(w, s.tracker, v) && SealsOk(w, s.tracker.epoch)
             && w.epoch(s.tracker.epoch).id == s.tracker.epoch
    requires s.tracker.epoch in v.handlers && s.tracker.leaderIndex < |Leaders(w, s.tracker.epoch)|
    ensures StoreOk(w, SequenceBlock(s, v))
    ensures SequenceBlock(s, v).tracker.nextHeight >= s.tracker.nextHeight
  {
    var t := s.tracker;
    var handler := v.handlers[t.epoch];
    var leader := handler.epoch.leaders[t.leaderIndex];
    var id := BlockId(t.epoch, leader, t.blockIndex);
    var hash := HashIn(v.hashes, id);
    if leader in v.alignment && t.blockIndex > v.alignment[leader].index {
      LeaderDone(w, t);
      MapsKept(w, s, t.NextLeader());
    } else if hash != "" && Confirmed(s, v, handler, leader, hash).0 {
      ConfirmedWithinSeal(w, s, v, hash);
      MapBlockOk(w, s, id, hash, Confirmed(s, v, handler, leader, hash).1);
    }
  }

  lemma SequenceBlockOk(w: World, s: Store, v: View)
    requires StoreOk(w, s) && ViewWithinSeals(w, s.tracker, v) && SealsOk(w, s.tracker.epoch)
             && w.epoch(s.tracker.epoch).id == s.tracker.epoch
    ensures StoreOk(w, SequenceBlock(s, v))
    ensures SequenceBlock(s, v).tracker.nextHeight >= s.tracker.nextHeight
  {
    var t := s.tracker;
    if t.epoch in v.handlers {
      if t.leaderIndex >= |v.handlers[t.epoch].epoch.leaders| {
        FinishEpochOk(w, s, v);
      } else {
        SequenceLeaderOk(w, s, v);
      }
    }
  }

  // ---------------------------------------------------------------------------------------------
  // Fast-forward keeps it
  // ---------------------------------------------------------------------------------------------

  /** A rotation proof that states where its epoch really ended. */
  ghost predicate ProofOk(w: World, p: RotationProof) {
    p.nextEpochId == p.epochId + 1 && BoundaryOk(w, p.epochId, p.finishedOnHeight, p.finishedOnId)
  }

  ghost predicate ProofsOk(w: World, v: View) {
    forall e | e in v.rotationProofs && e >= 0 :: ProofOk(w, v.rotationProofs[e])
  }

  /** A true proof of the tracker's own epoch never asks the tracker to go back. */
  lemma TrueProofNeverRegresses(w: World, t: Tracker, p: RotationProof)
    requires OnTrack(w, t) && SealsOk(w, t.epoch) && ProofOk(w, p) && p.epochId == t.epoch
    ensures p.finishedOnHeight + 1 >= t.nextHeight
    ensures OnTrack(w, Tracker(p.nextEpochId, 0, 0, p.finishedOnHeight + 1, 0))
  {
    if t.leaderIndex < |Leaders(w, t.epoch)| {
      BeforeMonotone(w, t.epoch, t.leaderIndex + 1, |Leaders(w, t.epoch)|);
    }
  }

  function FurtherTracker(p: RotationProof): Tracker {
    Tracker(p.nextEpochId, 0, 0, p.finishedOnHeight + 1, 0)
  }

  function AfterProof(s: Store, p: RotationProof): Store {
    var boundary := NewBoundary(p.epochId, p.finishedOnHeight, p.finishedOnId, p.finishedOnHash);
    s.(stored := FurtherTracker(p), boundaries := s.boundaries[p.epochId := boundary])
  }

  lemma FollowOneProof(w: World, s: Store, next: Tracker, p: RotationProof)
    requires OnTrack(w, next) && SealsOk(w, next.epoch) && ProofOk(w, p) && p.epochId == next.epoch
    requires StoreOk(w, s) && s.tracker.nextHeight <= next.nextHeight
    ensures StoreOk(w, AfterProof(s, p)) && OnTrack(w, FurtherTracker(p))
            && FurtherTracker(p).nextHeight >= next.nextHeight
  {
    TrueProofNeverRegresses(w, next, p);
    BoundaryAdded(w, s, FurtherTracker(p),
      NewBoundary(p.epochId, p.finishedOnHeight, p.finishedOnId, p.finishedOnHash));
  }

  lemma TrackerCatchesUp(w: World, s: Store, t: Tracker)
    requires StoreOk(w, s) && OnTrack(w, t) && s.tracker.nextHeight <= t.nextHeight <= s.stored.nextHeight
    ensures StoreOk(w, s.(tracker := t))
  {
  }

  lemma FollowUnfolds(s: Store, next: Tracker, v: View)
    ensures FollowProofs(s, next, v) ==
            if next.epoch >= v.approvementEpoch then (s.(tracker := next), true)
            else if next.epoch !in v.rotationProofs then (s, false)
            else if v.rotationProofs[next.epoch].nextEpochId != next.epoch + 1
                    || v.rotationProofs[next.epoch].finishedOnHeight + 1 < next.nextHeight then (s, false)
            else FollowProofs(AfterProof(s, v.rotationProofs[next.epoch]),
              FurtherTracker(v.rotationProofs[next.epoch]), v)
  {
  }

  lemma {:induction false} FollowProofsOk(w: World, s: Store, next: Tracker, v: View)
    requires ProofsOk(w, v) && forall e: nat :: SealsOk(w, e)
    requires StoreOk(w, s) && OnTrack(w, next) && s.tracker.nextHeight <= next.nextHeight <= s.stored.nextHeight
    ensures StoreOk(w, FollowProofs(s, next, v).0)
    ensures FollowProofs(s, next, v).0.tracker.nextHeight >= s.tracker.nextHeight
    decreases v.approvementEpoch - next.epoch
  {
    FollowUnfolds(s, next, v);
    if next.epoch >= v.approvementEpoch {
      TrackerCatchesUp(w, s, next);
    } else if next.epoch in v.rotationProofs && v.rotationProofs[next.epoch].nextEpochId == next.epoch + 1 {
      var p := v.rotationProofs[next.epoch];
      FollowOneProof(w, s, next, p);
      FollowProofsOk(w, AfterProof(s, p), FurtherTracker(p), v);
    }
  }
}
