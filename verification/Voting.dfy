/** Finalization voting inside one epoch.

A quorum member votes for blocks of the current leader (an aggregated finalization proof, AFP, gathers such votes) and,
once voting for a leader is locked, signs that leader's last index (an aggregated leader finalization proof, ALFP,
gathers those). This module holds the records a member keeps and what each request handler does to them. */
module Voting {
  import opened Wrappers
  import opened Signatures

  /** The part of an epoch handler that no step changes. */
  datatype Epoch = Epoch(id: int, hash: Hash, quorum: seq<Key>, leaders: seq<Key>) {
    function Ref(): EpochRef {
      EpochRef(hash, id)
    }

    function Id(leader: Key, index: int): BlockId {
      BlockId(id, leader, index)
    }
  }

  /** The fields of a block that voting looks at; its content is represented by its hash. */
  datatype Block = Block(creator: Key, index: int, epoch: EpochRef, hash: Hash, signatureOk: bool)

  datatype Afp = Afp(prevHash: Hash, blockId: BlockId, blockHash: Hash, proofs: Signatures)

  const EMPTY_AFP := Afp("", OtherText(""), "", map[])

  datatype VotingStat = VotingStat(index: int, hash: Hash, afp: Afp)

  const TEMPLATE := VotingStat(-1, ZERO_HASH, EMPTY_AFP)

  datatype Alfp = Alfp(epochIndex: int, leader: Key, stat: VotingStat, signatures: Signatures)

  predicate VerifyAfp(afp: Afp, e: Epoch) {
    VerifyAggregate(afp.proofs, e.quorum, AfpVote(afp.prevHash, afp.blockId, afp.blockHash, e.Ref()))
  }

  /** The AFP inside a voting stat names this leader's block at the stat's own index and hash, and verifies. */
  predicate CarriesOwnAfp(stat: VotingStat, e: Epoch, leader: Key) {
    && stat.afp.blockId == e.Id(leader, stat.index)
    && stat.hash == stat.afp.blockHash
    && VerifyAfp(stat.afp, e)
  }

  predicate VerifyAlfp(proof: Alfp, e: Epoch) {
    && proof.epochIndex == e.id
    && (proof.stat.index >= 0 ==> CarriesOwnAfp(proof.stat, e, proof.leader))
    && VerifyAggregate(proof.signatures, e.quorum, LeaderEnd(proof.leader, proof.stat.index, proof.stat.hash, e.Ref()))
  }

  // ---------------------------------------------------------------------------------------------
  // A member and its request handlers
  // ---------------------------------------------------------------------------------------------

  /** What one member stores for the epoch; `active` turns false when it moves on to the next epoch. */
  datatype Member = Member(
    active: bool,
    currentLeader: nat,
    finished: bool,
    votes: map<BlockId, Hash>,
    stats: map<Key, VotingStat>,
    blocks: map<BlockId, Block>,
    afps: map<BlockId, Afp>)

  const FRESH := Member(true, 0, false, map[], map[], map[], map[])

  function StatOf(m: Member, leader: Key): VotingStat {
    if leader in m.stats then m.stats[leader] else TEMPLATE
  }

  datatype VoteRequest = VoteRequest(block: Block, previousAfp: Afp)

  predicate ItsLeader(e: Epoch, m: Member, creator: Key) {
    m.currentLeader < |e.leaders| && e.leaders[m.currentLeader] == creator
  }

  /** What the stored stat must look like for the block to extend the same chain segment. */
  predicate SameChainSegment(stat: VotingStat, block: Block) {
    stat.index < block.index || (stat.index == block.index && block.hash == stat.hash)
  }

  function FutureStat(stat: VotingStat, block: Block, previousAfp: Afp): VotingStat {
    if stat.index == block.index then stat
    else if block.index == 0 then TEMPLATE
    else VotingStat(block.index - 1, previousAfp.blockHash, previousAfp)
  }

  function Vote(e: Epoch, m: Member, r: VoteRequest): (Member, Option<Payload>) {
    var b := r.block;
    var id := e.Id(b.creator, b.index);
    var previousId := e.Id(b.creator, b.index - 1);
    var stat := StatOf(m, b.creator);
    if !m.active || !ItsLeader(e, m, b.creator) || b.epoch != e.Ref() || !b.signatureOk || m.finished then
      (m, None)
    else if !SameChainSegment(stat, b) || (id in m.votes && m.votes[id] != b.hash) then
      (m, None)
    else
      var voted := m.(votes := m.votes[id := b.hash]);
      if b.index != 0 && !(previousId == r.previousAfp.blockId && VerifyAfp(r.previousAfp, e)) then
        (voted, None)
      else
        var stored := voted.(
          blocks := m.blocks[id := b],
          afps := if b.index == 0 then m.afps else m.afps[r.previousAfp.blockId := r.previousAfp],
          stats := m.stats[b.creator := FutureStat(stat, b, r.previousAfp)]);
        var previousHash := if b.index == 0 then ZERO_HASH else r.previousAfp.blockHash;
        (stored, Some(AfpVote(previousHash, id, b.hash, e.Ref())))
  }

  /** A request to sign the last index of the leader at position `leaderIndex` of this epoch. */
  datatype EndRequest = EndRequest(leaderIndex: int, skipData: VotingStat)

  datatype EndReply = NotReady | NoReply | Upgrade(stat: VotingStat) | Ok(payload: Payload)

  /** The gates of the leader-finalization route, in the order of the code. */
  predicate EndAllowed(e: Epoch, m: Member, leaderIndex: int) {
    var pastEpoch := !m.active;
    var isLastLeader := leaderIndex == |e.leaders| - 1 && m.currentLeader == |e.leaders| - 1;
    && 0 <= leaderIndex < |e.leaders|
    && (pastEpoch || m.currentLeader >= leaderIndex)
    && (pastEpoch || !isLastLeader || m.finished)
    && (pastEpoch || m.currentLeader > leaderIndex || isLastLeader)
  }

  function SignLeaderEnd(e: Epoch, m: Member, r: EndRequest): EndReply {
    if !EndAllowed(e, m, r.leaderIndex) then
      NotReady
    else
      var leader := e.leaders[r.leaderIndex];
      var stat := StatOf(m, leader);
      var skip := r.skipData;
      var signed := Ok(LeaderEnd(leader, skip.index, skip.hash, e.Ref()));
      if stat.index > skip.index then
        Upgrade(stat)
      else if skip.index <= -1 then
        signed
      else if skip.afp.blockId.BlockId? && skip.afp.blockId.index == skip.index
              && skip.hash == skip.afp.blockHash && VerifyAfp(skip.afp, e) then
        signed
      else
        NoReply
  }

  // ---------------------------------------------------------------------------------------------
  // All honest members together
  // ---------------------------------------------------------------------------------------------

  /** The honest members' records and every signature an honest member has issued so far. */
  datatype Network = Network(members: map<Key, Member>, issued: Issued) {
    function Honest(): set<Key> {
      members.Keys
    }
  }

  datatype Action =
    | HandleVote(vote: VoteRequest)
    | HandleEnd(end: EndRequest)
    | RotateLeader
    | RaiseFinish
    | EnterNextEpoch

  /** Requests come from anyone, but carry no forged signature of an honest member. */
  predicate Possible(net: Network, a: Action) {
    match a
    case HandleVote(r) => Unforged(r.previousAfp.proofs, net.Honest(), net.issued)
    case HandleEnd(r) => Unforged(r.skipData.afp.proofs, net.Honest(), net.issued)
    case _ => true
  }

  function MemberAfter(e: Epoch, m: Member, a: Action): Member {
    match a
    case HandleVote(r) => Vote(e, m, r).0
    case HandleEnd(_) => m
    case RotateLeader => if m.active && m.currentLeader + 1 < |e.leaders| then m.(currentLeader := m.currentLeader + 1)
      else m
    case RaiseFinish => if m.active then m.(finished := true) else m
    case EnterNextEpoch => if m.finished then m.(active := false) else m
  }

  function SignedBySome(e: Epoch, m: Member, a: Action): Option<Payload> {
    match a
    case HandleVote(r) => Vote(e, m, r).1
    case HandleEnd(r) => (match SignLeaderEnd(e, m, r) case Ok(p) => Some(p) case _ => None)
    case _ => None
  }

  function Apply(e: Epoch, net: Network, k: Key, a: Action): Network
    requires k in net.members
  {
    var m := net.members[k];
    Network(
      net.members[k := MemberAfter(e, m, a)],
      match SignedBySome(e, m, a) case Some(p) => net.issued + {(k, p)} case None => net.issued)
  }

  predicate Initial(net: Network) {
    net.issued == {} && forall k | k in net.members :: net.members[k] == FRESH
  }

  ghost predicate IsStep(e: Epoch, before: Network, after: Network) {
    exists k, a | k in before.members && Possible(before, a) :: after == Apply(e, before, k, a)
  }

  /** A run: the networks before, between and after the steps. */
  ghost predicate IsRun(e: Epoch, run: seq<Network>) {
    && run != [] && Initial(run[0])
    && forall i | 0 < i < |run| :: IsStep(e, run[i - 1], run[i])
  }

  predicate DistinctLeaders(e: Epoch) {
    forall i, j | 0 <= i < j < |e.leaders| :: e.leaders[i] != e.leaders[j]
  }
}
