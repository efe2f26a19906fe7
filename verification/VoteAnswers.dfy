/** When a member answers a vote request with a signature, and what its records then hold, entry by entry and
over runs. */
module VoteAnswers {
  import opened Wrappers
  import opened Signatures
  import opened Voting
  import opened VotingSafety

  /** Voting for the block's leader is open, and the block is signed for this epoch. */
  predicate Open(e: Epoch, m: Member, b: Block) {
    m.active && !m.finished && ItsLeader(e, m, b.creator) && b.epoch == e.Ref() && b.signatureOk
  }

  /** The member has not voted for another block of this id, and knows no proof beyond the block or of another one. */
  predicate Unopposed(e: Epoch, m: Member, b: Block) {
    var stat, id := StatOf(m, b.creator), e.Id(b.creator, b.index);
    && (id in m.votes ==> m.votes[id] == b.hash)
    && stat.index <= b.index && (stat.index == b.index ==> stat.hash == b.hash)
  }

  /** The block is its leader's first, or comes with an AFP that verifies for the block before it. */
  predicate Follows(e: Epoch, r: VoteRequest) {
    var b := r.block;
    b.index == 0 || (r.previousAfp.blockId == e.Id(b.creator, b.index - 1) && VerifyAfp(r.previousAfp, e))
  }

  /** A vote is signed exactly when these three hold; it names the block, its hash and the hash it builds on. */
  lemma SignsExactly(e: Epoch, m: Member, r: VoteRequest)
    ensures var b, signed := r.block, Vote(e, m, r).1;
            && (signed.Some? <==> Open(e, m, b) && Unopposed(e, m, b) && Follows(e, r))
            && (signed.Some? ==>
                  signed.value == AfpVote(if b.index == 0 then ZERO_HASH else r.previousAfp.blockHash,
                                          e.Id(b.creator, b.index), b.hash, e.Ref()))
  {
  }

  /** What a signed vote leaves on record: the vote, the block, the previous AFP, and the leader's stat raised to the
  block before; everything else stays. */
  lemma SignedVoteRecords(e: Epoch, m: Member, r: VoteRequest)
    requires Vote(e, m, r).1.Some?
    ensures var b, after := r.block, Vote(e, m, r).0;
            var id, stat := e.Id(b.creator, b.index), StatOf(m, b.creator);
            && after.votes == m.votes[id := b.hash] && after.blocks == m.blocks[id := b]
            && (b.index == 0 ==> after.afps == m.afps)
            && (b.index != 0 ==> after.afps == m.afps[e.Id(b.creator, b.index - 1) := r.previousAfp])
            && (forall l | l != b.creator :: StatOf(after, l) == StatOf(m, l))
            && (stat.index == b.index || b.index == 0 ==>
                  StatOf(after, b.creator) == if stat.index == b.index then stat else TEMPLATE)
            && (stat.index < b.index && b.index != 0 ==>
                  StatOf(after, b.creator) == VotingStat(b.index - 1, r.previousAfp.blockHash, r.previousAfp))
            && (after.active, after.currentLeader, after.finished) == (m.active, m.currentLeader, m.finished)
  {
  }

  /** A refused request leaves the records alone, but for the vote of a block whose previous AFP does not verify. */
  lemma RefusedVoteRecords(e: Epoch, m: Member, r: VoteRequest)
    requires Vote(e, m, r).1.None?
    ensures var b, after := r.block, Vote(e, m, r).0; var id := e.Id(b.creator, b.index);
            after == if Open(e, m, b) && Unopposed(e, m, b) then m.(votes := m.votes[id := b.hash]) else m
  {
  }

  /** A stored stat of a reachable member never falls. */
  lemma StatNeverFalls(e: Epoch, m: Member, a: Action, leader: Key)
    requires forall l | l in m.stats :: m.stats[l].index >= -1
    ensures StatOf(MemberAfter(e, m, a), leader).index >= StatOf(m, leader).index
  {
  }

  // ---------------------------------------------------------------------------------------------
  // Over runs
  // ---------------------------------------------------------------------------------------------

  /** Every stored AFP verifies and is that of its key; every stored block is that of its key and was voted for. */
  predicate Genuine(e: Epoch, net: Network, m: Member) {
    && (forall id | id in m.afps :: m.afps[id].blockId == id && AfpShown(e, net, m.afps[id]))
    && (forall id | id in m.blocks ::
          id == e.Id(m.blocks[id].creator, m.blocks[id].index) && m.blocks[id].signatureOk
          && m.blocks[id].epoch == e.Ref() && id in m.votes && m.votes[id] == m.blocks[id].hash)
  }

  lemma ActionKeepsGenuine(e: Epoch, net: Network, m: Member, a: Action)
    requires Genuine(e, net, m) && Possible(net, a)
    ensures Genuine(e, net, MemberAfter(e, m, a))
  {
    if a.HandleVote? {
      if Vote(e, m, a.vote).1.Some? {
        SignsExactly(e, m, a.vote);
        SignedVoteRecords(e, m, a.vote);
      } else {
        RefusedVoteRecords(e, m, a.vote);
      }
    }
  }

  lemma GenuinePersists(e: Epoch, net: Network, later: Network, m: Member)
    requires Genuine(e, net, m) && later.Honest() == net.Honest() && net.issued <= later.issued
    ensures Genuine(e, later, m)
  {
  }

  ghost predicate AllGenuine(e: Epoch, net: Network) {
    forall k | k in net.members :: Genuine(e, net, net.members[k])
  }

  lemma StepKeepsGenuine(e: Epoch, net: Network, k: Key, a: Action)
    requires AllGenuine(e, net) && k in net.members && Possible(net, a)
    ensures AllGenuine(e, Apply(e, net, k, a))
  {
    var later := Apply(e, net, k, a);
    ActionKeepsGenuine(e, net, net.members[k], a);
    assert later.Honest() == net.Honest() && net.issued <= later.issued;
    forall q | q in later.members
      ensures Genuine(e, later, later.members[q])
    {
      GenuinePersists(e, net, later, later.members[q]);
    }
  }

  /** Over every run: what a member has stored as a proof can be shown, and what it has stored as a block it
  voted for. */
  lemma {:induction false} RunKeepsGenuine(e: Epoch, run: seq<Network>, i: nat)
    requires IsRun(e, run) && i < |run|
    ensures AllGenuine(e, run[i])
  {
    if i > 0 {
      RunKeepsGenuine(e, run, i - 1);
      assert IsStep(e, run[i - 1], run[i]);
      var k, a :| k in run[i - 1].members && Possible(run[i - 1], a) && run[i] == Apply(e, run[i - 1], k, a);
      StepKeepsGenuine(e, run[i - 1], k, a);
    }
  }
}
