/** The last-mile sequencer: one turn of its loop, the fast-forward over rotation proofs, and the two height routes. */
module LastMile {
  import opened Wrappers
  import opened Signatures
  import opened Voting
  import opened Sequencing

  datatype Tracker = Tracker(epoch: int, leaderIndex: int, blockIndex: int, nextHeight: int, heightInEpoch: int) {
    function AdvanceToNextEpoch(): Tracker {
      Tracker(epoch + 1, 0, 0, nextHeight, 0)
    }

    function NextLeader(): Tracker {
      this.(leaderIndex := leaderIndex + 1, blockIndex := 0)
    }
  }

  datatype Boundary = Boundary(epoch: int, finishedOnHeight: int, finishedOnId: BlockId, finishedOnHash: Hash)

  const NO_ID: BlockId := OtherText("")

  function NewBoundary(epoch: int, height: int, id: BlockId, hash: Hash): Boundary {
    Boundary(epoch, height, id, if hash == "" then ZERO_HASH else hash)
  }

  datatype RotationProof = RotationProof(
    epochId: int,
    nextEpochId: int,
    dataHash: Hash,
    recomputedHash: Hash,
    finishedOnHeight: int,
    finishedOnId: BlockId,
    finishedOnHash: Hash,
    proofs: Signatures) {
    function ToSign(): Payload {
      RotationOf(epochId, nextEpochId, dataHash, finishedOnHeight, finishedOnId, finishedOnHash)
    }
  }

  datatype HeightProof = HeightProof(height: int, id: BlockId, hash: Hash, epochId: int, heightInEpoch: int,
    proofs: Signatures) {
    function ToSign(): Payload {
      HeightOf(height, id, hash, epochId, heightInEpoch)
    }
  }

  predicate VerifyRotationProof(proof: RotationProof, e: Epoch) {
    && proof.nextEpochId == proof.epochId + 1 && proof.finishedOnHeight >= -1 && proof.finishedOnHash != ""
    && proof.recomputedHash != "" && proof.recomputedHash == proof.dataHash
    && VerifyAggregate(proof.proofs, e.quorum, proof.ToSign())
  }

  predicate VerifyHeightProof(proof: HeightProof, e: Epoch) {
    VerifyAggregate(proof.proofs, e.quorum, proof.ToSign())
  }

  /** The sequencer's own tracker, and what it has written: the persisted tracker, height maps and boundaries. */
  datatype Store = Store(
    tracker: Tracker,
    stored: Tracker,
    heights: map<int, BlockId>,
    inEpoch: map<int, int>,
    boundaries: map<int, Boundary>)

  const START := Tracker(0, 0, 0, 0, 0)
  const EMPTY_STORE := Store(START, START, map[], map[], map[])

  /** An epoch handler as the node sees it now. */
  datatype Handler = Handler(epoch: Epoch, currentLeader: int)

  /** What one turn reads from outside: handlers, proofs, block hashes, AFPs and two alignment snapshots. */
  datatype View = View(
    approvementEpoch: int,
    rotationProofs: map<int, RotationProof>,
    handlers: map<int, Handler>,
    alignment: map<Key, Sealed>,
    alignmentLater: map<Key, Sealed>,
    hashes: map<BlockId, Hash>,
    localHashes: map<BlockId, Hash>,
    afps: map<BlockId, Afp>)

  function HashIn(hashes: map<BlockId, Hash>, id: BlockId): Hash {
    if id in hashes then hashes[id] else ""
  }

  // ---------------------------------------------------------------------------------------------
  // Fast-forward
  // ---------------------------------------------------------------------------------------------

  /** Follows verified rotation proofs from `next`; each step is persisted, the tracker itself moves only at the end. */
  function FollowProofs(s: Store, next: Tracker, v: View): (Store, bool)
    decreases v.approvementEpoch - next.epoch
  {
    if next.epoch >= v.approvementEpoch then
      (s.(tracker := next), true)
    else if next.epoch !in v.rotationProofs then
      (s, false)
    else
      var p := v.rotationProofs[next.epoch];
      if p.nextEpochId != next.epoch + 1 || p.finishedOnHeight + 1 < next.nextHeight then
        (s, false)
      else
        var further := Tracker(p.nextEpochId, 0, 0, p.finishedOnHeight + 1, 0);
        var boundary := NewBoundary(p.epochId, p.finishedOnHeight, p.finishedOnId, p.finishedOnHash);
        FollowProofs(s.(stored := further, boundaries := s.boundaries[p.epochId := boundary]), further, v)
  }

  function SyncToEpochStart(s: Store, v: View): (Store, bool) {
    if v.approvementEpoch <= 0 || s.tracker.epoch >= v.approvementEpoch then (s, false)
    else FollowProofs(s, s.tracker, v)
  }

  // ---------------------------------------------------------------------------------------------
  // Sequencing
  // ---------------------------------------------------------------------------------------------

  /** Moves the tracker without mapping a height. */
  function MoveTo(s: Store, t: Tracker): Store {
    s.(tracker := t, stored := t)
  }

  function CompletedBoundary(s: Store, v: View): Option<Boundary> {
    var t := s.tracker;
    var height := t.nextHeight - 1;
    if height < 0 then
      Some(NewBoundary(t.epoch, -1, NO_ID, ZERO_HASH))
    else if height !in s.heights || s.heights[height] == NO_ID then
      None
    else if HashIn(v.localHashes, s.heights[height]) == "" then
      None
    else
      Some(NewBoundary(t.epoch, height, s.heights[height], HashIn(v.localHashes, s.heights[height])))
  }

  function FinishEpoch(s: Store, v: View): Store {
    var boundary := CompletedBoundary(s, v);
    if boundary == None then
      s
    else
      var finished := s.(stored := s.tracker, boundaries := s.boundaries[boundary.value.epoch := boundary.value]);
      if s.tracker.epoch + 1 in v.handlers then MoveTo(finished, s.tracker.AdvanceToNextEpoch()) else finished
  }

  /** Maps the tracker's block to the next height; a last block also closes the leader, maybe the epoch. */
  function MapBlock(s: Store, e: Epoch, id: BlockId, hash: Hash, isLastBlock: bool): Store {
    var t := s.tracker;
    var moved := if isLastBlock then t.NextLeader() else t.(blockIndex := t.blockIndex + 1);
    var next := moved.(nextHeight := t.nextHeight + 1, heightInEpoch := t.heightInEpoch + 1);
    var mapped := MoveTo(s, next).(heights := s.heights[t.nextHeight := id],
      inEpoch := s.inEpoch[t.nextHeight := t.heightInEpoch]);
    if next.leaderIndex >= |e.leaders| then
      mapped.(boundaries := s.boundaries[e.id := NewBoundary(e.id, t.nextHeight, id, hash)])
    else
      mapped
  }

  /** Whether the block at the tracker is confirmed, and whether it is known to be its leader's last one. */
  function Confirmed(s: Store, v: View, handler: Handler, leader: Key, hash: Hash): (bool, bool) {
    var t := s.tracker;
    var nextId := BlockId(t.epoch, leader, t.blockIndex + 1);
    if leader in v.alignmentLater && v.alignmentLater[leader] == Sealed(t.blockIndex, hash) then
      (true, t.leaderIndex < handler.currentLeader)
    else
      (nextId in v.afps && VerifyAfp(v.afps[nextId], handler.epoch), false)
  }

  function SequenceBlock(s: Store, v: View): Store {
    var t := s.tracker;
    if t.epoch !in v.handlers then
      s
    else
      var handler := v.handlers[t.epoch];
      if t.leaderIndex >= |handler.epoch.leaders| then
        FinishEpoch(s, v)
      else if t.leaderIndex < 0 then
        s
      else
        var leader := handler.epoch.leaders[t.leaderIndex];
        var id := BlockId(t.epoch, leader, t.blockIndex);
        var hash := HashIn(v.hashes, id);
        if leader in v.alignment && t.blockIndex > v.alignment[leader].index then
          MoveTo(s, t.NextLeader())
        else if hash == "" then
          if leader in v.alignment && v.alignment[leader].index < 0 then MoveTo(s, t.NextLeader()) else s
        else
          var (confirmed, isLastBlock) := Confirmed(s, v, handler, leader, hash);
          if confirmed then MapBlock(s, handler.epoch, id, hash, isLastBlock) else s
  }

  /** One turn of the loop. */
  function Turn(s: Store, v: View): Store {
    var (synced, done) := SyncToEpochStart(s, v);
    if done then synced else SequenceBlock(synced, v)
  }

  // ---------------------------------------------------------------------------------------------
  // The signing routes that read what was written
  // ---------------------------------------------------------------------------------------------

  predicate HeightAllowed(s: Store, p: HeightProof, ackAvailable: bool, blockHash: Hash) {
    && (p.epochId > 0 ==> ackAvailable)
    && p.height in s.heights && s.heights[p.height] == p.id && p.id != NO_ID
    && p.height in s.inEpoch && s.inEpoch[p.height] == p.heightInEpoch
    && blockHash != "" && blockHash == p.hash
  }

  predicate RotationAllowed(s: Store, p: RotationProof, handlerKnown: bool, localDataHash: Option<Hash>) {
    && handlerKnown
    && p.epochId in s.boundaries
    && s.boundaries[p.epochId].finishedOnHeight == p.finishedOnHeight
    && s.boundaries[p.epochId].finishedOnId == p.finishedOnId
    && s.boundaries[p.epochId].finishedOnHash == p.finishedOnHash
    && localDataHash == Some(p.dataHash)
  }

  // ---------------------------------------------------------------------------------------------
  // All honest sequencers together
  // ---------------------------------------------------------------------------------------------

  datatype Sequencers = Sequencers(nodes: map<Key, Store>, issued: Issued) {
    function Honest(): set<Key> {
      nodes.Keys
    }
  }

  datatype Action =
    | TakeTurn(view: View)
    | Restart
    | SignHeight(height: HeightProof, ackAvailable: bool, blockHash: Hash)
    | SignRotation(rotation: RotationProof, handlerKnown: bool, localDataHash: Option<Hash>)

  function StoreAfter(s: Store, a: Action): Store {
    match a
    case TakeTurn(v) => Turn(s, v)
    case Restart => s.(tracker := s.stored)
    case _ => s
  }

  function SignedBySome(s: Store, a: Action): Option<Payload> {
    match a
    case SignHeight(p, ack, hash) => if HeightAllowed(s, p, ack, hash) then Some(p.ToSign()) else None
    case SignRotation(p, known, local) => if RotationAllowed(s, p, known, local) then Some(p.ToSign()) else None
    case _ => None
  }

  function Apply(net: Sequencers, k: Key, a: Action): Sequencers
    requires k in net.nodes
  {
    var s := net.nodes[k];
    Sequencers(
      net.nodes[k := StoreAfter(s, a)],
      match SignedBySome(s, a) case Some(p) => net.issued + {(k, p)} case None => net.issued)
  }

  /** The snapshot's entries are the agreed ones. */
  predicate AlignmentOk(w: World, e: int, alignment: map<Key, Sealed>) {
    e >= 0 ==> forall l | l in alignment :: Closed(w, e, l) && alignment[l] == Last(w, e, l)
  }

  /** The outside of a turn as the world provides it: agreed leaders, sealed entries, shown AFPs, verified proofs. */
  ghost predicate ViewOk(w: World, net: Sequencers, s: Store, v: View) {
    && (forall e | e in v.handlers :: e >= 0 && v.handlers[e].epoch == w.epoch(e))
    && AlignmentOk(w, s.tracker.epoch, v.alignment) && AlignmentOk(w, s.tracker.epoch, v.alignmentLater)
    && (forall id | id in v.afps && id.BlockId? && id.epoch >= 0 && VerifyAfp(v.afps[id], w.epoch(id.epoch)) ::
          v.afps[id].blockId == id && AfpShownInRun(w, id.epoch, v.afps[id]))
    && (forall e | e in v.rotationProofs && e >= 0 ::
          VerifyRotationProof(v.rotationProofs[e], w.epoch(e))
            && Unforged(v.rotationProofs[e].proofs, net.Honest(), net.issued))
  }

  ghost predicate Possible(w: World, net: Sequencers, k: Key, a: Action)
    requires k in net.nodes
  {
    a.TakeTurn? ==> ViewOk(w, net, net.nodes[k], a.view)
  }

  predicate Initial(net: Sequencers) {
    net.issued == {} && forall k | k in net.nodes :: net.nodes[k] == EMPTY_STORE
  }

  ghost predicate IsStep(w: World, before: Sequencers, after: Sequencers) {
    exists k, a | k in before.nodes && Possible(w, before, k, a) :: after == Apply(before, k, a)
  }

  ghost predicate StepAt(w: World, run: seq<Sequencers>, i: nat)
    requires 0 < i < |run|
  {
    IsStep(w, run[i - 1], run[i])
  }

  ghost predicate IsRun(w: World, run: seq<Sequencers>) {
    && run != [] && Initial(run[0])
    && forall i | 0 < i < |run| :: StepAt(w, run, i)
  }

  /** Every epoch's quorum is mostly made of these honest sequencers. */
  ghost predicate HonestQuorums(w: World, net: Sequencers) {
    forall e: nat :: MostlyHonest(w.epoch(e).quorum, net.Honest())
  }
}
