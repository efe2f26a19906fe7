/** A quorum member's record and the routes that update it, as the node runs them. */
module QuorumSigner {
  import opened Wrappers
  import opened Signatures
  import opened Voting

  method VerifyAggregatedFinalizationProof(afp: Afp, e: Epoch) returns (ok: bool)
    ensures ok == VerifyAfp(afp, e)
  {
    var payload := AfpVote(afp.prevHash, afp.blockId, afp.blockHash, e.Ref());
    var okSignatures := CountVerifiedUniqueSignatures(afp.proofs, Members(e.quorum), payload);
    ok := okSignatures >= Majority(|e.quorum|);
  }

  method VerifyAggregatedLeaderFinalizationProof(proof: Alfp, e: Epoch) returns (ok: bool)
    ensures ok == VerifyAlfp(proof, e)
  {
    if proof.epochIndex != e.id {
      return false;
    }
    var stat := proof.stat;
    if stat.index >= 0 {
      if stat.afp.blockId.OtherText? || stat.afp.blockId.epoch != e.id || stat.afp.blockId.creator != proof.leader {
        return false;
      }
      if stat.afp.blockId.index != stat.index || stat.hash != stat.afp.blockHash {
        return false;
      }
      var afpOk := VerifyAggregatedFinalizationProof(stat.afp, e);
      if !afpOk {
        return false;
      }
    }
    var payload := LeaderEnd(proof.leader, stat.index, stat.hash, e.Ref());
    var okSignatures := CountVerifiedUniqueSignatures(proof.signatures, Members(e.quorum), payload);
    ok := okSignatures >= Majority(|e.quorum|);
  }

  class Signer {
    const epoch: Epoch
    var active: bool
    var currentLeader: nat
    var finished: bool
    var votes: map<BlockId, Hash>
    var stats: map<Key, VotingStat>
    var blocks: map<BlockId, Block>
    var afps: map<BlockId, Afp>

    function Record(): Member
      reads this
    {
      Member(active, currentLeader, finished, votes, stats, blocks, afps)
    }

    constructor (e: Epoch)
      ensures epoch == e && Record() == FRESH
    {
      epoch := e;
      active, currentLeader, finished := true, 0, false;
      votes, stats, blocks, afps := map[], map[], map[], map[];
    }

    /** The vote route: the vote is stored before the previous AFP is checked, the signature comes last. */
    method GetFinalizationProof(block: Block, previousAfp: Afp) returns (signed: Option<Payload>)
      modifies this
      ensures (Record(), signed) == Vote(epoch, old(Record()), VoteRequest(block, previousAfp))
    {
      if !active || currentLeader >= |epoch.leaders| || epoch.leaders[currentLeader] != block.creator {
        return None;
      }
      if block.epoch != epoch.Ref() || !block.signatureOk || finished {
        return None;
      }
      var proposedId := epoch.Id(block.creator, block.index);
      var stat := TEMPLATE;
      if block.creator in stats {
        stat := stats[block.creator];
      }
      var itsSameChainSegment := stat.index < block.index || (stat.index == block.index && block.hash == stat.hash);
      if !itsSameChainSegment {
        return None;
      }
      if proposedId in votes {
        if votes[proposedId] != block.hash {
          return None;
        }
      } else {
        votes := votes[proposedId := block.hash];
      }
      assert votes == old(votes)[proposedId := block.hash];
      var futureStat;
      if stat.index == block.index {
        futureStat := stat;
      } else if block.index == 0 {
        futureStat := TEMPLATE;
      } else {
        futureStat := VotingStat(block.index - 1, previousAfp.blockHash, previousAfp);
      }
      var afpOk := VerifyAggregatedFinalizationProof(previousAfp, epoch);
      if block.index == 0 || (epoch.Id(block.creator, block.index - 1) == previousAfp.blockId && afpOk) {
        blocks := blocks[proposedId := block];
        if block.index != 0 {
          afps := afps[previousAfp.blockId := previousAfp];
        }
        stats := stats[block.creator := futureStat];
        var previousHash := ZERO_HASH;
        if block.index != 0 {
          previousHash := previousAfp.blockHash;
        }
        return Some(AfpVote(previousHash, proposedId, block.hash, epoch.Ref()));
      }
      return None;
    }

    /** The leader-finalization route: it answers from the stored stat and changes nothing. */
    method GetLeaderFinalizationProof(leaderIndex: int, skipData: VotingStat) returns (reply: EndReply)
      ensures reply == SignLeaderEnd(epoch, Record(), EndRequest(leaderIndex, skipData))
    {
      var isRequestForPastEpoch := !active;
      if leaderIndex < 0 || leaderIndex >= |epoch.leaders| {
        return NotReady;
      }
      if !isRequestForPastEpoch && currentLeader < leaderIndex {
        return NotReady;
      }
      var lastLeader := |epoch.leaders| - 1;
      var isLastLeader := leaderIndex == lastLeader && currentLeader == lastLeader;
      if !isRequestForPastEpoch && isLastLeader && !finished {
        return NotReady;
      }
      if !isRequestForPastEpoch && currentLeader <= leaderIndex && !isLastLeader {
        return NotReady;
      }
      var leader := epoch.leaders[leaderIndex];
      var stat := TEMPLATE;
      if leader in stats {
        stat := stats[leader];
      }
      if stat.index > skipData.index {
        return Upgrade(stat);
      }
      if skipData.index > -1 {
        if skipData.afp.blockId.OtherText? {
          return NoReply;
        }
        var afpOk := VerifyAggregatedFinalizationProof(skipData.afp, epoch);
        if skipData.hash != skipData.afp.blockHash || skipData.index != skipData.afp.blockId.index || !afpOk {
          return NoReply;
        }
      }
      return Ok(LeaderEnd(leader, skipData.index, skipData.hash, epoch.Ref()));
    }

    /** The leader's time is out: the next leader takes over, which locks voting for this one. */
    method RotateCurrentLeader()
      modifies this
      ensures Record() == MemberAfter(epoch, old(Record()), RotateLeader)
    {
      if active && currentLeader + 1 < |epoch.leaders| {
        currentLeader := currentLeader + 1;
      }
    }

    /** The epoch is no longer fresh: the finish signal locks voting for the last leader. */
    method RaiseEpochFinish()
      modifies this
      ensures Record() == MemberAfter(epoch, old(Record()), RaiseFinish)
    {
      if active && !finished {
        finished := true;
      }
    }

    /** The node moves its approvement thread to the next epoch, which it does only after the finish signal. */
    method LeaveEpoch()
      modifies this
      ensures Record() == MemberAfter(epoch, old(Record()), EnterNextEpoch)
    {
      if finished {
        active := false;
      }
    }
  }
}
