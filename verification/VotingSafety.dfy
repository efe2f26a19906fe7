/** Safety of finalization voting over every run: unique votes, one chain of AFPs, and a sealed tail per leader. */
module VotingSafety {
  import opened Wrappers
  import opened Signatures
  import opened Voting

  // ---------------------------------------------------------------------------------------------
  // The invariant
  // ---------------------------------------------------------------------------------------------

  /** Voting for the leader is over at this member. */
  predicate Locked(e: Epoch, m: Member, leader: Key) {
    || !m.active
    || exists i | 0 <= i < |e.leaders| && e.leaders[i] == leader ::
         i < m.currentLeader || (i == |e.leaders| - 1 == m.currentLeader && m.finished)
  }

  /** What a member that signed a block's vote has on record: the vote, the block, the previous AFP and the stat. */
  predicate VoteRecorded(e: Epoch, m: Member, p: Payload)
    requires p.AfpVote?
  {
    && p.epoch == e.Ref()
    && p.id.BlockId? && p.id.epoch == e.id && p.id.index >= 0
    && p.id in m.votes && m.votes[p.id] == p.hash
    && p.id in m.blocks && m.blocks[p.id].hash == p.hash
    && (p.id.index == 0 ==> p.prevHash == ZERO_HASH)
    && (p.id.index > 0 ==> e.Id(p.id.creator, p.id.index - 1) in m.afps)
    && StatOf(m, p.id.creator).index >= p.id.index - 1
  }

  predicate EndRecorded(e: Epoch, m: Member, p: Payload)
    requires p.LeaderEnd?
  {
    && p.epoch == e.Ref()
    && Locked(e, m, p.leader)
    && -1 <= StatOf(m, p.leader).index <= p.lastIndex
  }

  predicate Recorded(e: Epoch, m: Member, p: Payload) {
    && (p.AfpVote? || p.LeaderEnd?)
    && (p.AfpVote? ==> VoteRecorded(e, m, p))
    && (p.LeaderEnd? ==> EndRecorded(e, m, p))
  }

  /** A majority stands behind this block id and hash, with some previous hash. */
  ghost predicate BlockBacked(e: Epoch, net: Network, leader: Key, index: int, hash: Hash) {
    exists prevHash: Hash ::
      Backed(e.quorum, net.Honest(), net.issued, AfpVote(prevHash, e.Id(leader, index), hash, e.Ref()))
  }

  ghost predicate PreviousBacked(e: Epoch, net: Network, p: Payload) {
    p.AfpVote? && p.id.BlockId? && p.id.index > 0 ==> BlockBacked(e, net, p.id.creator, p.id.index - 1, p.prevHash)
  }

  /** A stored stat is the template, or carries a verified AFP for exactly the index and hash it states. */
  predicate StatOk(e: Epoch, net: Network, leader: Key, stat: VotingStat) {
    || stat == TEMPLATE
    || (stat.index >= 0 && CarriesOwnAfp(stat, e, leader) && Unforged(stat.afp.proofs, net.Honest(), net.issued))
  }

  ghost predicate Invariant(e: Epoch, net: Network) {
    && (forall k, p | (k, p) in net.issued ::
       k in net.members && Recorded(e, net.members[k], p) && PreviousBacked(e, net, p))
    && (forall k, l | k in net.members && l in net.members[k].stats :: StatOk(e, net, l, net.members[k].stats[l]))
  }

  // ---------------------------------------------------------------------------------------------
  // One member, one action
  // ---------------------------------------------------------------------------------------------

  lemma EndAllowedMeansLocked(e: Epoch, m: Member, leaderIndex: int)
    requires EndAllowed(e, m, leaderIndex)
    ensures Locked(e, m, e.leaders[leaderIndex])
  {
  }

  lemma LockedRefusesVotes(e: Epoch, m: Member, r: VoteRequest)
    requires DistinctLeaders(e)
    requires Locked(e, m, r.block.creator)
    ensures Vote(e, m, r) == (m, None)
  {
  }

  /** Once voting for a leader is locked it stays locked, and that leader's stat stays what it is. */
  lemma LockFreezesStat(e: Epoch, m: Member, a: Action, leader: Key)
    requires DistinctLeaders(e)
    requires Locked(e, m, leader)
    ensures Locked(e, MemberAfter(e, m, a), leader)
    ensures StatOf(MemberAfter(e, m, a), leader) == StatOf(m, leader)
  {
    match a
    case HandleVote(r) =>
      if r.block.creator == leader {
        LockedRefusesVotes(e, m, r);
      }
    case _ =>
  }

  lemma VotesPersist(e: Epoch, m: Member, a: Action, p: Payload)
    requires p.AfpVote? && VoteRecorded(e, m, p)
    ensures VoteRecorded(e, MemberAfter(e, m, a), p)
  {
  }

  lemma RecordsPersist(e: Epoch, m: Member, a: Action, p: Payload)
    requires DistinctLeaders(e)
    requires Recorded(e, m, p)
    ensures Recorded(e, MemberAfter(e, m, a), p)
  {
    if p.LeaderEnd? {
      LockFreezesStat(e, m, a, p.leader);
    } else {
      VotesPersist(e, m, a, p);
    }
  }

  /** A signed payload is on record, provided the previous AFP of a vote is one of a block that can exist. */
  lemma SignedIsRecorded(e: Epoch, m: Member, a: Action)
    requires forall l | l in m.stats :: m.stats[l].index >= -1
    requires a.HandleVote? && VerifyAfp(a.vote.previousAfp, e) && a.vote.previousAfp.blockId.BlockId? ==>
             a.vote.previousAfp.blockId.index >= 0
    requires SignedBySome(e, m, a).Some?
    ensures Recorded(e, MemberAfter(e, m, a), SignedBySome(e, m, a).value)
  {
    match a
    case HandleVote(r) =>
      assert StatOf(m, r.block.creator).index >= -1;
    case HandleEnd(r) =>
      EndAllowedMeansLocked(e, m, r.leaderIndex);
  }

  // ---------------------------------------------------------------------------------------------
  // The invariant holds in every reachable network
  // ---------------------------------------------------------------------------------------------

  /** A verified, unforged AFP has an honest signer, who has the vote on record. */
  lemma AfpHasRecordedVoter(e: Epoch, net: Network, afp: Afp) returns (k: Key)
    requires MostlyHonest(e.quorum, net.Honest()) && Invariant(e, net)
    requires VerifyAfp(afp, e) && Unforged(afp.proofs, net.Honest(), net.issued)
    ensures k in net.members && (k, AfpVote(afp.prevHash, afp.blockId, afp.blockHash, e.Ref())) in net.issued
    ensures VoteRecorded(e, net.members[k], AfpVote(afp.prevHash, afp.blockId, afp.blockHash, e.Ref()))
  {
    var p := AfpVote(afp.prevHash, afp.blockId, afp.blockHash, e.Ref());
    VerifiedImpliesBacked(afp.proofs, e.quorum, net.Honest(), net.issued, p);
    k := BackedHasHonestSigner(e.quorum, net.Honest(), net.issued, p);
  }

  lemma BlockBackedPersists(e: Epoch, net: Network, later: Network, leader: Key, index: int, hash: Hash)
    requires net.Honest() == later.Honest() && net.issued <= later.issued
    requires BlockBacked(e, net, leader, index, hash)
    ensures BlockBacked(e, later, leader, index, hash)
  {
    var prevHash :| Backed(e.quorum, net.Honest(), net.issued, AfpVote(prevHash, e.Id(leader, index), hash, e.Ref()));
    BackedMonotone(e.quorum, net.Honest(), net.issued, later.issued,
      AfpVote(prevHash, e.Id(leader, index), hash, e.Ref()));
  }

  /** A vote for a block past the first one comes with a majority behind the block before it. */
  lemma NewVoteHasPrevious(e: Epoch, net: Network, k: Key, a: Action)
    requires k in net.members && Possible(net, a)
    requires SignedBySome(e, net.members[k], a).Some?
    ensures PreviousBacked(e, net, SignedBySome(e, net.members[k], a).value)
  {
    if a.HandleVote? && a.vote.block.index > 0 {
      var afp := a.vote.previousAfp;
      VerifiedImpliesBacked(afp.proofs, e.quorum, net.Honest(), net.issued,
        AfpVote(afp.prevHash, afp.blockId, afp.blockHash, e.Ref()));
    }
  }

  lemma StatsStayOk(e: Epoch, net: Network, k: Key, a: Action, leader: Key)
    requires MostlyHonest(e.quorum, net.Honest()) && Invariant(e, net)
    requires k in net.members && Possible(net, a)
    requires leader in MemberAfter(e, net.members[k], a).stats
    ensures StatOk(e, net, leader, MemberAfter(e, net.members[k], a).stats[leader])
  {
    var m := net.members[k];
    if a.HandleVote? && Vote(e, m, a.vote).1.Some? && leader == a.vote.block.creator {
      if VerifyAfp(a.vote.previousAfp, e) {
        var _ := AfpHasRecordedVoter(e, net, a.vote.previousAfp);
      }
    }
  }

  lemma IssuedIsRecordedAfter(e: Epoch, net: Network, k: Key, a: Action, q: Key, p: Payload)
    requires DistinctLeaders(e) && MostlyHonest(e.quorum, net.Honest()) && Invariant(e, net)
    requires k in net.members && Possible(net, a)
    requires (q, p) in Apply(e, net, k, a).issued
    ensures q in net.members && Recorded(e, Apply(e, net, k, a).members[q], p) && PreviousBacked(e, net, p)
  {
    if (q, p) in net.issued {
      RecordsPersist(e, net.members[q], a, p);
    } else {
      if a.HandleVote? && VerifyAfp(a.vote.previousAfp, e) {
        var _ := AfpHasRecordedVoter(e, net, a.vote.previousAfp);
      }
      SignedIsRecorded(e, net.members[k], a);
      NewVoteHasPrevious(e, net, k, a);
    }
  }

  lemma PreviousBackedPersists(e: Epoch, net: Network, later: Network, p: Payload)
    requires net.Honest() == later.Honest() && net.issued <= later.issued
    requires PreviousBacked(e, net, p)
    ensures PreviousBacked(e, later, p)
  {
    if p.AfpVote? && p.id.BlockId? && p.id.index > 0 {
      BlockBackedPersists(e, net, later, p.id.creator, p.id.index - 1, p.prevHash);
    }
  }

  lemma StepKeepsInvariant(e: Epoch, net: Network, k: Key, a: Action)
    requires DistinctLeaders(e) && MostlyHonest(e.quorum, net.Honest()) && Invariant(e, net)
    requires k in net.members && Possible(net, a)
    ensures Apply(e, net, k, a).Honest() == net.Honest() && net.issued <= Apply(e, net, k, a).issued
    ensures Invariant(e, Apply(e, net, k, a))
  {
    var later := Apply(e, net, k, a);
    assert later.Honest() == net.Honest();
    forall q, p | (q, p) in later.issued
      ensures q in later.members && Recorded(e, later.members[q], p) && PreviousBacked(e, later, p)
    {
      IssuedIsRecordedAfter(e, net, k, a, q, p);
      PreviousBackedPersists(e, net, later, p);
    }
    forall q, l | q in later.members && l in later.members[q].stats
      ensures StatOk(e, later, l, later.members[q].stats[l])
    {
      if q == k {
        StatsStayOk(e, net, k, a, l);
      }
    }
  }

  /** What every reachable network satisfies; the honest members stay the same and signatures are never taken back. */
  lemma {:induction false} RunKeepsInvariant(e: Epoch, run: seq<Network>, i: nat, j: nat)
    requires DistinctLeaders(e) && IsRun(e, run) && MostlyHonest(e.quorum, run[0].Honest())
    requires i <= j < |run|
    ensures run[i].Honest() == run[j].Honest() == run[0].Honest()
    ensures run[i].issued <= run[j].issued
    ensures Invariant(e, run[j])
  {
    if j > 0 {
      var prior := if i < j then i else j - 1;
      RunKeepsInvariant(e, run, prior, j - 1);
      assert IsStep(e, run[j - 1], run[j]);
      var k, a :| k in run[j - 1].members && Possible(run[j - 1], a) && run[j] == Apply(e, run[j - 1], k, a);
      StepKeepsInvariant(e, run[j - 1], k, a);
    }
  }

  // ---------------------------------------------------------------------------------------------
  // AFPs form one chain
  // ---------------------------------------------------------------------------------------------

  /** A proof that can be shown at this point of a run: it verifies and forges no honest signature. */
  predicate AfpShown(e: Epoch, net: Network, afp: Afp) {
    VerifyAfp(afp, e) && Unforged(afp.proofs, net.Honest(), net.issued)
  }

  predicate AlfpShown(e: Epoch, net: Network, proof: Alfp) {
    && VerifyAlfp(proof, e)
    && Unforged(proof.signatures, net.Honest(), net.issued)
    && Unforged(proof.stat.afp.proofs, net.Honest(), net.issued)
  }

  lemma UniqueBackedHash(e: Epoch, net: Network, leader: Key, index: int, h1: Hash, h2: Hash)
    requires MostlyHonest(e.quorum, net.Honest()) && Invariant(e, net)
    requires BlockBacked(e, net, leader, index, h1) && BlockBacked(e, net, leader, index, h2)
    ensures h1 == h2
  {
    var p1 :| Backed(e.quorum, net.Honest(), net.issued, AfpVote(p1, e.Id(leader, index), h1, e.Ref()));
    var p2 :| Backed(e.quorum, net.Honest(), net.issued, AfpVote(p2, e.Id(leader, index), h2, e.Ref()));
    var _ := BackedPairHasCommonSigner(e.quorum, net.Honest(), net.issued,
      AfpVote(p1, e.Id(leader, index), h1, e.Ref()), AfpVote(p2, e.Id(leader, index), h2, e.Ref()));
  }

  lemma SignedVoteFacts(e: Epoch, net: Network, k: Key, p: Payload) returns (m: Member)
    requires Invariant(e, net) && (k, p) in net.issued && p.AfpVote?
    ensures k in net.members && m == net.members[k] && VoteRecorded(e, m, p) && PreviousBacked(e, net, p)
  {
    m := net.members[k];
  }

  lemma UniqueSignedVote(e: Epoch, net: Network, k: Key, p: Payload, q: Payload)
    requires MostlyHonest(e.quorum, net.Honest()) && Invariant(e, net)
    requires (k, p) in net.issued && (k, q) in net.issued && p.AfpVote? && q.AfpVote? && p.id == q.id
    ensures p == q
  {
    var m := SignedVoteFacts(e, net, k, p);
    var _ := SignedVoteFacts(e, net, k, q);
    assert p.hash == q.hash == m.votes[p.id];
    if p.id.index > 0 {
      UniqueBackedHash(e, net, p.id.creator, p.id.index - 1, p.prevHash, q.prevHash);
    }
  }

  /** In one reachable network two AFPs for the same block id agree on the block's hash and on the previous hash. */
  lemma AfpUnique(e: Epoch, net: Network, a: Afp, b: Afp)
    requires MostlyHonest(e.quorum, net.Honest()) && Invariant(e, net)
    requires AfpShown(e, net, a) && AfpShown(e, net, b) && a.blockId == b.blockId
    ensures a.blockHash == b.blockHash && a.prevHash == b.prevHash
  {
    var p := AfpVote(a.prevHash, a.blockId, a.blockHash, e.Ref());
    var q := AfpVote(b.prevHash, b.blockId, b.blockHash, e.Ref());
    VerifiedImpliesBacked(a.proofs, e.quorum, net.Honest(), net.issued, p);
    VerifiedImpliesBacked(b.proofs, e.quorum, net.Honest(), net.issued, q);
    var k := BackedPairHasCommonSigner(e.quorum, net.Honest(), net.issued, p, q);
    UniqueSignedVote(e, net, k, p, q);
  }

  /** An AFP for block k + 1 comes with an AFP for block k whose hash is the first one's previous hash. */
  lemma AfpHasPredecessor(e: Epoch, net: Network, a: Afp) returns (previous: Afp)
    requires MostlyHonest(e.quorum, net.Honest()) && Invariant(e, net)
    requires AfpShown(e, net, a) && a.blockId.BlockId? && a.blockId.index > 0
    ensures AfpShown(e, net, previous)
    ensures previous.blockId == e.Id(a.blockId.creator, a.blockId.index - 1)
    ensures previous.blockHash == a.prevHash
  {
    var k := AfpHasRecordedVoter(e, net, a);
    var id := e.Id(a.blockId.creator, a.blockId.index - 1);
    var prevHash :| Backed(e.quorum, net.Honest(), net.issued, AfpVote(prevHash, id, a.prevHash, e.Ref()));
    AggregateExistsIffBacked(e.quorum, net.Honest(), net.issued, AfpVote(prevHash, id, a.prevHash, e.Ref()));
    var proofs :| Unforged(proofs, net.Honest(), net.issued)
      && VerifyAggregate(proofs, e.quorum, AfpVote(prevHash, id, a.prevHash, e.Ref()));
    previous := Afp(prevHash, id, a.prevHash, proofs);
  }

  predicate ChainLink(e: Epoch, net: Network, leader: Key, chain: seq<Afp>, i: nat)
    requires i < |chain|
  {
    && AfpShown(e, net, chain[i])
    && chain[i].blockId == e.Id(leader, i)
    && chain[i].prevHash == if i == 0 then ZERO_HASH else chain[i - 1].blockHash
  }

  /** The AFPs of one leader's blocks 0, 1, ..., each naming the hash of the one before it. */
  predicate IsAfpChain(e: Epoch, net: Network, leader: Key, chain: seq<Afp>) {
    forall i: nat | i < |chain| :: ChainLink(e, net, leader, chain, i)
  }

  lemma ChainExtends(e: Epoch, net: Network, leader: Key, chain: seq<Afp>, a: Afp)
    requires IsAfpChain(e, net, leader, chain) && AfpShown(e, net, a) && a.blockId == e.Id(leader, |chain|)
    requires a.prevHash == if chain == [] then ZERO_HASH else chain[|chain| - 1].blockHash
    ensures IsAfpChain(e, net, leader, chain + [a])
  {
    forall i: nat | i < |chain + [a]|
      ensures ChainLink(e, net, leader, chain + [a], i)
    {
      if i < |chain| {
        assert ChainLink(e, net, leader, chain, i);
      }
    }
  }

  lemma AfpIdInRange(e: Epoch, net: Network, a: Afp)
    requires MostlyHonest(e.quorum, net.Honest()) && Invariant(e, net)
    requires AfpShown(e, net, a)
    ensures a.blockId.BlockId? && a.blockId.epoch == e.id && 0 <= a.blockId.index
    ensures a.blockId.index == 0 ==> a.prevHash == ZERO_HASH
  {
    var _ := AfpHasRecordedVoter(e, net, a);
  }

  /** The chain runs from the leader's first block and the zero hash to this AFP. */
  predicate ClosesChain(e: Epoch, net: Network, a: Afp, chain: seq<Afp>) {
    && a.blockId.BlockId? && a.blockId.epoch == e.id && 0 <= a.blockId.index && |chain| == a.blockId.index + 1
    && IsAfpChain(e, net, a.blockId.creator, chain) && chain[a.blockId.index] == a
  }

  lemma OneMoreLink(e: Epoch, net: Network, previous: Afp, chain: seq<Afp>, a: Afp)
    requires ClosesChain(e, net, previous, chain) && AfpShown(e, net, a)
    requires a.blockId == e.Id(previous.blockId.creator, previous.blockId.index + 1) && a.prevHash == previous.blockHash
    ensures ClosesChain(e, net, a, chain + [a])
  {
    ChainExtends(e, net, a.blockId.creator, chain, a);
  }

  /** Every AFP closes a chain that starts at the leader's first block and the zero hash. */
  lemma {:induction false} AfpClosesChain(e: Epoch, net: Network, a: Afp) returns (chain: seq<Afp>)
    requires MostlyHonest(e.quorum, net.Honest()) && Invariant(e, net)
    requires AfpShown(e, net, a)
    ensures ClosesChain(e, net, a, chain)
    decreases if a.blockId.BlockId? then a.blockId.index else 0
  {
    AfpIdInRange(e, net, a);
    if a.blockId.index == 0 {
      ChainExtends(e, net, a.blockId.creator, [], a);
      chain := [a];
      assert [] + [a] == chain;
    } else {
      var previous := AfpHasPredecessor(e, net, a);
      var shorter := AfpClosesChain(e, net, previous);
      OneMoreLink(e, net, previous, shorter, a);
      chain := shorter + [a];
    }
  }

  /** Over a whole run: proofs shown at two different points never disagree about a block. */
  lemma AfpUniqueOverRun(e: Epoch, run: seq<Network>, i: nat, j: nat, a: Afp, b: Afp)
    requires DistinctLeaders(e) && IsRun(e, run) && MostlyHonest(e.quorum, run[0].Honest())
    requires i < |run| && j < |run| && AfpShown(e, run[i], a) && AfpShown(e, run[j], b) && a.blockId == b.blockId
    ensures a.blockHash == b.blockHash && a.prevHash == b.prevHash
  {
    var last := |run| - 1;
    RunKeepsInvariant(e, run, i, last);
    RunKeepsInvariant(e, run, j, last);
    AfpUnique(e, run[last], a, b);
  }

  // ---------------------------------------------------------------------------------------------
  // The tail of a leader is sealed
  // ---------------------------------------------------------------------------------------------

  /** The core: no member can have voted for a block more than one past the index it signed as the last one. */
  lemma TailSafetyNow(e: Epoch, net: Network, proof: Alfp, afp: Afp)
    requires MostlyHonest(e.quorum, net.Honest()) && Invariant(e, net)
    requires AlfpShown(e, net, proof) && AfpShown(e, net, afp)
    requires afp.blockId.BlockId? && afp.blockId.creator == proof.leader
    ensures afp.blockId.index <= proof.stat.index + 1
  {
    var end := LeaderEnd(proof.leader, proof.stat.index, proof.stat.hash, e.Ref());
    var vote := AfpVote(afp.prevHash, afp.blockId, afp.blockHash, e.Ref());
    VerifiedImpliesBacked(proof.signatures, e.quorum, net.Honest(), net.issued, end);
    VerifiedImpliesBacked(afp.proofs, e.quorum, net.Honest(), net.issued, vote);
    var k := BackedPairHasCommonSigner(e.quorum, net.Honest(), net.issued, end, vote);
    assert EndRecorded(e, net.members[k], end) && VoteRecorded(e, net.members[k], vote);
  }

  /** Once an ALFP seals a leader at index i, no AFP for its block k + 1 with k > i is ever shown, earlier or later. */
  lemma TailSafety(e: Epoch, run: seq<Network>, i: nat, j: nat, proof: Alfp, afp: Afp)
    requires DistinctLeaders(e) && IsRun(e, run) && MostlyHonest(e.quorum, run[0].Honest())
    requires i < |run| && j < |run| && AlfpShown(e, run[i], proof) && AfpShown(e, run[j], afp)
    requires afp.blockId.BlockId? && afp.blockId.creator == proof.leader
    ensures afp.blockId.index <= proof.stat.index + 1
  {
    var last := |run| - 1;
    RunKeepsInvariant(e, run, i, last);
    RunKeepsInvariant(e, run, j, last);
    TailSafetyNow(e, run[last], proof, afp);
  }

  lemma AlfpIndexBound(e: Epoch, run: seq<Network>, i: nat, p: Alfp)
    requires DistinctLeaders(e) && IsRun(e, run) && MostlyHonest(e.quorum, run[0].Honest())
    requires i < |run| && AlfpShown(e, run[i], p)
    ensures p.stat.index >= -1
  {
    RunKeepsInvariant(e, run, i, i);
    var end := LeaderEnd(p.leader, p.stat.index, p.stat.hash, e.Ref());
    VerifiedImpliesBacked(p.signatures, e.quorum, run[i].Honest(), run[i].issued, end);
    var k := BackedHasHonestSigner(e.quorum, run[i].Honest(), run[i].issued, end);
    assert EndRecorded(e, run[i].members[k], end);
  }

  /** Two ALFPs of one leader differ by at most one in index, and equal block indices carry equal hashes. */
  lemma AlfpsNearlyAgree(e: Epoch, run: seq<Network>, i: nat, j: nat, p: Alfp, q: Alfp)
    requires DistinctLeaders(e) && IsRun(e, run) && MostlyHonest(e.quorum, run[0].Honest())
    requires i < |run| && j < |run| && AlfpShown(e, run[i], p) && AlfpShown(e, run[j], q) && p.leader == q.leader
    ensures p.stat.index >= -1 && q.stat.index >= -1
    ensures -1 <= p.stat.index - q.stat.index <= 1
    ensures p.stat.index == q.stat.index >= 0 ==> p.stat.hash == q.stat.hash
  {
    AlfpIndexBound(e, run, i, p);
    AlfpIndexBound(e, run, j, q);
    if q.stat.index >= 0 {
      TailSafety(e, run, i, j, p, q.stat.afp);
    }
    if p.stat.index >= 0 {
      TailSafety(e, run, j, i, q, p.stat.afp);
    }
    if p.stat.index == q.stat.index >= 0 {
      AfpUniqueOverRun(e, run, i, j, p.stat.afp, q.stat.afp);
    }
  }

  // ---------------------------------------------------------------------------------------------
  // The bound of one is reached
  // ---------------------------------------------------------------------------------------------

  const SOLO := Epoch(0, "epoch", ["v"], ["v"])
  const SOLO_BLOCK := Block("v", 0, EpochRef("epoch", 0), "b0", true)
  const SOLO_VOTE := AfpVote(ZERO_HASH, BlockId(0, "v", 0), "b0", EpochRef("epoch", 0))
  const SOLO_AFP := Afp(ZERO_HASH, BlockId(0, "v", 0), "b0", map["v" := SignedBy("v", SOLO_VOTE)])

  function EndAt(index: int, hash: Hash): Payload {
    LeaderEnd("v", index, hash, EpochRef("epoch", 0))
  }

  function AlfpAt(stat: VotingStat): Alfp {
    Alfp(0, "v", stat, map["v" := SignedBy("v", EndAt(stat.index, stat.hash))])
  }

  function SoloActions(): seq<Action> {
    [
      HandleVote(VoteRequest(SOLO_BLOCK, EMPTY_AFP)),
      RaiseFinish,
      HandleEnd(EndRequest(0, TEMPLATE)),
      HandleEnd(EndRequest(0, VotingStat(0, "b0", SOLO_AFP)))
    ]
  }

  lemma SoloProofVerifies(payload: Payload)
    ensures VerifyAggregate(map["v" := SignedBy("v", payload)], SOLO.quorum, payload)
  {
    var signatures: Signatures := map["v" := SignedBy("v", payload)];
    assert VerifiedSigners(signatures, Members(SOLO.quorum), payload) == {"v"};
  }

  /** The run in which the only member votes for block 0 and then signs both index -1 and index 0 as the last one. */
  function SoloRun(): (run: seq<Network>)
    ensures |run| == 5
  {
    var n0 := Network(map["v" := FRESH], {});
    var n1 := Apply(SOLO, n0, "v", SoloActions()[0]);
    var n2 := Apply(SOLO, n1, "v", SoloActions()[1]);
    var n3 := Apply(SOLO, n2, "v", SoloActions()[2]);
    var n4 := Apply(SOLO, n3, "v", SoloActions()[3]);
    [n0, n1, n2, n3, n4]
  }

  lemma SoloStepVote(n0: Network)
    requires n0 == Network(map["v" := FRESH], {})
    ensures Apply(SOLO, n0, "v", SoloActions()[0]).issued == {("v", SOLO_VOTE)}
    ensures Apply(SOLO, n0, "v", SoloActions()[0]).members.Keys == {"v"}
    ensures StatOf(Apply(SOLO, n0, "v", SoloActions()[0]).members["v"], "v") == TEMPLATE
    ensures Apply(SOLO, n0, "v", SoloActions()[0]).members["v"].active
            && Apply(SOLO, n0, "v", SoloActions()[0]).members["v"].currentLeader == 0
  {
  }

  lemma SoloIssued()
    ensures SoloRun()[0].issued == {} && SoloRun()[1].issued == SoloRun()[2].issued == {("v", SOLO_VOTE)}
    ensures SoloRun()[3].issued == {("v", SOLO_VOTE), ("v", EndAt(-1, ZERO_HASH))}
    ensures forall i | 0 <= i < 5 :: SoloRun()[i].members.Keys == {"v"}
  {
  }

  lemma SoloLastStep()
    ensures SoloRun()[4].issued == {("v", SOLO_VOTE), ("v", EndAt(-1, ZERO_HASH)), ("v", EndAt(0, "b0"))}
  {
    SoloIssued();
    SoloProofVerifies(SOLO_VOTE);
    SoloStepVote(SoloRun()[0]);
  }

  lemma SoloRunIsARun()
    ensures IsRun(SOLO, SoloRun())
  {
  }

  lemma SoloAlfpShown(stat: VotingStat)
    requires stat == TEMPLATE || stat == VotingStat(0, "b0", SOLO_AFP)
    ensures AlfpShown(SOLO, SoloRun()[4], AlfpAt(stat))
  {
    SoloIssued();
    SoloLastStep();
    SoloProofVerifies(SOLO_VOTE);
    SoloProofVerifies(EndAt(stat.index, stat.hash));
  }

  /** Agreement on the exact last index is not guaranteed: two ALFPs of one leader can carry indices -1 and 0. */
  lemma AlfpsCanDifferByOne() returns (run: seq<Network>, p: Alfp, q: Alfp)
    ensures DistinctLeaders(SOLO) && IsRun(SOLO, run) && MostlyHonest(SOLO.quorum, run[0].Honest())
    ensures AlfpShown(SOLO, run[|run| - 1], p) && AlfpShown(SOLO, run[|run| - 1], q)
    ensures p.leader == q.leader && q.stat.index == p.stat.index + 1
  {
    SoloRunIsARun();
    SoloIssued();
    run, p, q := SoloRun(), AlfpAt(TEMPLATE), AlfpAt(VotingStat(0, "b0", SOLO_AFP));
    SoloAlfpShown(p.stat);
    SoloAlfpShown(q.stat);
    assert Members(SOLO.quorum) - run[0].Honest() == {};
  }
}
