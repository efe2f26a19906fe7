/** The last-mile finalizer thread's own fields, and the methods of its loop and of the two routes that read them. */
module LastMileFinalizer {
  import opened Wrappers
  import opened Signatures
  import opened Voting
  import opened Sequencing
  import opened LastMile
  import opened QuorumSigner

  method VerifyAggregatedHeightProof(proof: HeightProof, e: Epoch) returns (ok: bool)
    ensures ok == VerifyHeightProof(proof, e)
  {
    var okSignatures := CountVerifiedUniqueSignatures(proof.proofs, Members(e.quorum), proof.ToSign());
    ok := okSignatures >= Majority(|e.quorum|);
  }

  method VerifyAggregatedEpochRotationProof(proof: RotationProof, e: Epoch) returns (ok: bool)
    ensures ok == VerifyRotationProof(proof, e)
  {
    if proof.nextEpochId != proof.epochId + 1 || proof.finishedOnHeight < -1 || proof.finishedOnHash == "" {
      return false;
    }
    if proof.recomputedHash == "" || proof.recomputedHash != proof.dataHash {
      return false;
    }
    var okSignatures := CountVerifiedUniqueSignatures(proof.proofs, Members(e.quorum), proof.ToSign());
    ok := okSignatures >= Majority(|e.quorum|);
  }

  class Finalizer {
    var tracker: Tracker
    var stored: Tracker
    var heights: map<int, BlockId>
    var inEpoch: map<int, int>
    var boundaries: map<int, Boundary>

    function Contents(): Store
      reads this
    {
      Store(tracker, stored, heights, inEpoch, boundaries)
    }

    constructor ()
      ensures Contents() == EMPTY_STORE
    {
      tracker, stored, heights, inEpoch, boundaries := START, START, map[], map[], map[];
    }

    /** Persists the tracker and, with it, a boundary if one is given. */
    method PersistStateTransition(next: Tracker, boundary: Option<Boundary>)
      modifies this`stored, this`boundaries
      ensures stored == next
      ensures boundaries ==
              if boundary.Some? then old(boundaries)[boundary.value.epoch := boundary.value] else old(boundaries)
    {
      stored := next;
      if boundary.Some? {
        boundaries := boundaries[boundary.value.epoch := boundary.value];
      }
    }

    /** Persists the mapping of one height together with the tracker and a possible boundary. */
    method PersistMappingsAndStateTransition(
        height: int, id: BlockId, heightInEpoch: int, next: Tracker, boundary: Option<Boundary>)
      modifies this`stored, this`boundaries, this`heights, this`inEpoch
      ensures heights == old(heights)[height := id] && inEpoch == old(inEpoch)[height := heightInEpoch]
      ensures stored == next
      ensures boundaries ==
              if boundary.Some? then old(boundaries)[boundary.value.epoch := boundary.value] else old(boundaries)
    {
      heights := heights[height := id];
      inEpoch := inEpoch[height := heightInEpoch];
      PersistStateTransition(next, boundary);
    }

    /** The fast-forward loop: it ends because the epochs still to cross get fewer with every proof. */
    method SyncTrackerToCurrentEpochStart(v: View) returns (synced: bool)
      modifies this
      ensures (Contents(), synced) == SyncToEpochStart(old(Contents()), v)
    {
      if v.approvementEpoch <= 0 || tracker.epoch >= v.approvementEpoch {
        return false;
      }
      var nextTracker := tracker;
      while nextTracker.epoch < v.approvementEpoch
        invariant FollowProofs(Contents(), nextTracker, v) == FollowProofs(old(Contents()), old(tracker), v)
        decreases v.approvementEpoch - nextTracker.epoch
      {
        if nextTracker.epoch !in v.rotationProofs {
          return false;
        }
        var proof := v.rotationProofs[nextTracker.epoch];
        if proof.nextEpochId != nextTracker.epoch + 1 {
          return false;
        }
        var nextHeight := proof.finishedOnHeight + 1;
        if nextHeight < nextTracker.nextHeight {
          return false;
        }
        var provenBoundary :=
          NewBoundary(proof.epochId, proof.finishedOnHeight, proof.finishedOnId, proof.finishedOnHash);
        nextTracker := Tracker(proof.nextEpochId, 0, 0, nextHeight, 0);
        PersistStateTransition(nextTracker, Some(provenBoundary));
      }
      tracker := nextTracker;
      return true;
    }

    method BuildCompletedEpochBoundary(v: View) returns (boundary: Option<Boundary>)
      ensures boundary == CompletedBoundary(Contents(), v)
    {
      var finishedOnHeight := tracker.nextHeight - 1;
      if finishedOnHeight < 0 {
        return Some(NewBoundary(tracker.epoch, -1, NO_ID, ZERO_HASH));
      }
      if finishedOnHeight !in heights || heights[finishedOnHeight] == NO_ID {
        return None;
      }
      var finishedOnHash := HashIn(v.localHashes, heights[finishedOnHeight]);
      if finishedOnHash == "" {
        return None;
      }
      return Some(NewBoundary(tracker.epoch, finishedOnHeight, heights[finishedOnHeight], finishedOnHash));
    }

    method CompleteEpoch(v: View)
      modifies this
      ensures Contents() == FinishEpoch(old(Contents()), v)
    {
      var completedBoundary := BuildCompletedEpochBoundary(v);
      if completedBoundary == None {
        return;
      }
      PersistStateTransition(tracker, completedBoundary);
      if tracker.epoch + 1 in v.handlers {
        var nextTracker := tracker.AdvanceToNextEpoch();
        PersistStateTransition(nextTracker, None);
        tracker := nextTracker;
      }
    }

    method SkipLeader()
      modifies this`tracker, this`stored, this`boundaries
      ensures Contents() == MoveTo(old(Contents()), old(tracker).NextLeader())
    {
      var nextTracker := tracker.(leaderIndex := tracker.leaderIndex + 1, blockIndex := 0);
      PersistStateTransition(nextTracker, None);
      tracker := nextTracker;
    }

    method IsConfirmed(v: View, handler: Handler, leader: Key, blockHash: Hash)
      returns (confirmed: bool, isLastBlock: bool)
      ensures (confirmed, isLastBlock) == Confirmed(Contents(), v, handler, leader, blockHash)
    {
      confirmed, isLastBlock := false, false;
      if leader in v.alignmentLater {
        var lastBlock := v.alignmentLater[leader];
        if lastBlock.index == tracker.blockIndex && lastBlock.hash == blockHash {
          confirmed := true;
          isLastBlock := tracker.leaderIndex < handler.currentLeader;
        }
      }
      if !confirmed {
        var nextId := BlockId(tracker.epoch, leader, tracker.blockIndex + 1);
        if nextId in v.afps {
          confirmed := VerifyAggregatedFinalizationProof(v.afps[nextId], handler.epoch);
        }
      }
    }

    method MapCurrentBlock(e: Epoch, id: BlockId, blockHash: Hash, isLastBlock: bool)
      modifies this
      ensures Contents() == MapBlock(old(Contents()), e, id, blockHash, isLastBlock)
    {
      var nextTracker := tracker;
      if isLastBlock {
        nextTracker := nextTracker.(leaderIndex := tracker.leaderIndex + 1, blockIndex := 0);
      } else {
        nextTracker := nextTracker.(blockIndex := tracker.blockIndex + 1);
      }
      nextTracker := nextTracker.(nextHeight := tracker.nextHeight + 1, heightInEpoch := tracker.heightInEpoch + 1);
      var completedBoundary := None;
      if nextTracker.leaderIndex >= |e.leaders| {
        completedBoundary := Some(NewBoundary(e.id, tracker.nextHeight, id, blockHash));
      }
      PersistMappingsAndStateTransition(tracker.nextHeight, id, tracker.heightInEpoch, nextTracker, completedBoundary);
      tracker := nextTracker;
    }

    method SequenceCurrentBlock(v: View)
      modifies this
      ensures Contents() == SequenceBlock(old(Contents()), v)
    {
      if tracker.epoch !in v.handlers {
        return;
      }
      var handler := v.handlers[tracker.epoch];
      if tracker.leaderIndex >= |handler.epoch.leaders| {
        CompleteEpoch(v);
        return;
      }
      if tracker.leaderIndex < 0 {
        return;
      }
      var leader := handler.epoch.leaders[tracker.leaderIndex];
      var id := BlockId(tracker.epoch, leader, tracker.blockIndex);
      var known := leader in v.alignment;
      if known && tracker.blockIndex > v.alignment[leader].index {
        SkipLeader();
        return;
      }
      var blockHash := HashIn(v.hashes, id);
      if blockHash == "" {
        if known && v.alignment[leader].index < 0 {
          SkipLeader();
        }
        return;
      }
      var confirmed, isLastBlock := IsConfirmed(v, handler, leader, blockHash);
      if !confirmed {
        return;
      }
      MapCurrentBlock(handler.epoch, id, blockHash, isLastBlock);
    }

    /** One turn of the thread's loop. */
    method TakeTurn(v: View)
      modifies this
      ensures Contents() == Turn(old(Contents()), v)
    {
      if tracker.epoch < v.approvementEpoch {
        var synced := SyncTrackerToCurrentEpochStart(v);
        if synced {
          return;
        }
      }
      SequenceCurrentBlock(v);
    }

    /** The node starts again: the tracker is what was persisted. */
    method LoadTracker()
      modifies this`tracker
      ensures Contents() == StoreAfter(old(Contents()), LastMile.Restart)
    {
      tracker := stored;
    }

    method GetHeightProof(p: HeightProof, ackAvailable: bool, blockHash: Hash) returns (signed: Option<Payload>)
      ensures signed == LastMile.SignedBySome(Contents(), SignHeight(p, ackAvailable, blockHash))
    {
      if p.epochId > 0 && !ackAvailable {
        return None;
      }
      if p.height !in heights || heights[p.height] == NO_ID || heights[p.height] != p.id {
        return None;
      }
      if p.height !in inEpoch || inEpoch[p.height] != p.heightInEpoch {
        return None;
      }
      if blockHash == "" || blockHash != p.hash {
        return None;
      }
      return Some(HeightOf(p.height, p.id, p.hash, p.epochId, p.heightInEpoch));
    }

    method GetEpochRotationProof(p: RotationProof, handlerKnown: bool, localDataHash: Option<Hash>)
      returns (signed: Option<Payload>)
      ensures signed == LastMile.SignedBySome(Contents(), SignRotation(p, handlerKnown, localDataHash))
    {
      if !handlerKnown || p.epochId !in boundaries {
        return None;
      }
      var localBoundary := boundaries[p.epochId];
      if localBoundary.finishedOnHeight != p.finishedOnHeight || localBoundary.finishedOnId != p.finishedOnId
        || localBoundary.finishedOnHash != p.finishedOnHash {
        return None;
      }
      if localDataHash == None || localDataHash.value != p.dataHash {
        return None;
      }
      return Some(RotationOf(p.epochId, p.nextEpochId, p.dataHash, p.finishedOnHeight, p.finishedOnId,
        p.finishedOnHash));
    }
  }
}
