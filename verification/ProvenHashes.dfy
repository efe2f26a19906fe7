/** The hashes in height and rotation proofs: what a sequencer signs carries the hash it holds itself, and over a run
whose local hashes are those of finalized blocks all proofs of one height, or of one epoch, carry one hash. */
module ProvenHashes {
  import opened Wrappers
  import opened Signatures
  import Voting
  import VotingSafety
  import opened Sequencing
  import opened LastMile
  import opened LastMileSafety
  import opened LastMileAgreement

  // ---------------------------------------------------------------------------------------------
  // What a route signs
  // ---------------------------------------------------------------------------------------------

  /** A height is signed exactly when the request names the member's own mapping, height in epoch and block hash. */
  lemma SignsExactlyOwnHeight(s: Store, p: HeightProof, ackAvailable: bool, blockHash: Hash)
    ensures var signed := SignedBySome(s, SignHeight(p, ackAvailable, blockHash));
            && (signed.Some? <==>
                && (p.epochId <= 0 || ackAvailable)
                && p.height in s.heights && p.height in s.inEpoch && blockHash != "" && s.heights[p.height] != NO_ID
                && (p.id, p.heightInEpoch, p.hash) == (s.heights[p.height], s.inEpoch[p.height], blockHash))
            && (signed.Some? ==>
                  signed.value == HeightOf(p.height, s.heights[p.height], blockHash, p.epochId, s.inEpoch[p.height]))
  {
  }

  /** A rotation is signed exactly when the request names the member's own boundary and next-epoch data. */
  lemma SignsExactlyOwnRotation(s: Store, p: RotationProof, handlerKnown: bool, localDataHash: Option<Hash>)
    ensures var signed := SignedBySome(s, SignRotation(p, handlerKnown, localDataHash));
            && (signed.Some? <==>
                && handlerKnown && p.epochId in s.boundaries && localDataHash.Some?
                && s.boundaries[p.epochId] ==
                   Boundary(s.boundaries[p.epochId].epoch, p.finishedOnHeight, p.finishedOnId, p.finishedOnHash)
                && p.dataHash == localDataHash.value)
            && (signed.Some? ==>
                  var b := s.boundaries[p.epochId];
                  signed.value == RotationOf(p.epochId, p.nextEpochId, localDataHash.value, b.finishedOnHeight,
                                             b.finishedOnId, b.finishedOnHash))
  {
  }

  // ---------------------------------------------------------------------------------------------
  // Hashes of finalized blocks
  // ---------------------------------------------------------------------------------------------

  /** Some AFP shown in the run of its epoch is for this block and this hash. */
  ghost predicate ProvenHash(w: World, id: BlockId, hash: Hash) {
    && id.BlockId? && id.epoch >= 0
    && exists afp: Voting.Afp :: afp.blockId == id && afp.blockHash == hash && AfpShownInRun(w, id.epoch, afp)
  }

  ghost predicate Proven(w: World, id: BlockId) {
    exists hash :: ProvenHash(w, id, hash)
  }

  /** A hash that a node holds of a block: for a finalized block it is the finalized one. */
  ghost predicate LocalHash(w: World, id: BlockId, hash: Hash) {
    hash != "" && Proven(w, id) ==> ProvenHash(w, id, hash)
  }

  lemma ProvenHashUnique(w: World, id: BlockId, a: Hash, b: Hash)
    requires WorldOk(w) && ProvenHash(w, id, a) && ProvenHash(w, id, b)
    ensures a == b
  {
    var p: Voting.Afp :| p.blockId == id && p.blockHash == a && AfpShownInRun(w, id.epoch, p);
    var q: Voting.Afp :| q.blockId == id && q.blockHash == b && AfpShownInRun(w, id.epoch, q);
    assert EpochOk(w, id.epoch);
    var epoch, run := w.epoch(id.epoch), w.run(id.epoch);
    var i :| 0 <= i < |run| && VotingSafety.AfpShown(epoch, run[i], p);
    var j :| 0 <= j < |run| && VotingSafety.AfpShown(epoch, run[j], q);
    VotingSafety.AfpUniqueOverRun(epoch, run, i, j, p, q);
  }

  lemma SealIsProven(w: World, e: nat, l: Key)
    requires EpochOk(w, e) && Closed(w, e, l) && Last(w, e, l).index >= 0
    ensures ProvenHash(w, BlockId(e, l, Last(w, e, l).index), Last(w, e, l).hash)
  {
    var t :| 0 <= t < |w.run(e)| && VotingSafety.AlfpShown(w.epoch(e), w.run(e)[t], w.alfps(e)[l]);
    var afp := w.alfps(e)[l].stat.afp;
    assert VotingSafety.AfpShown(w.epoch(e), w.run(e)[t], afp);
    assert AfpShownInRun(w, e, afp);
  }

  /** A block whose successor has an AFP has one itself. */
  lemma PredecessorIsProven(w: World, e: nat, l: Key, k: nat, afp: Voting.Afp)
    requires EpochOk(w, e) && AfpShownInRun(w, e, afp) && afp.blockId == BlockId(e, l, k + 1)
    ensures Proven(w, BlockId(e, l, k))
  {
    var t :| 0 <= t < |w.run(e)| && VotingSafety.AfpShown(w.epoch(e), w.run(e)[t], afp);
    VotingSafety.RunKeepsInvariant(w.epoch(e), w.run(e), t, t);
    var previous := VotingSafety.AfpHasPredecessor(w.epoch(e), w.run(e)[t], afp);
    assert AfpShownInRun(w, e, previous);
    assert ProvenHash(w, BlockId(e, l, k), previous.blockHash);
  }

  // ---------------------------------------------------------------------------------------------
  // The invariant
  // ---------------------------------------------------------------------------------------------

  /** An epoch without blocks so far ends on no block and the zero hash, every other on a finalized block's hash. */
  ghost predicate BoundaryHash(w: World, height: int, id: BlockId, hash: Hash) {
    if height < 0 then id == NO_ID && hash == ZERO_HASH else ProvenHash(w, id, hash)
  }

  ghost predicate StoreHashed(w: World, s: Store) {
    && (forall h | h in s.heights :: Proven(w, s.heights[h]))
    && (forall e | e in s.boundaries ::
          var b := s.boundaries[e]; BoundaryHash(w, b.finishedOnHeight, b.finishedOnId, b.finishedOnHash))
  }

  /** `data` gives the hash of the next epoch's data that the nodes agree on. */
  ghost predicate PayloadHashed(w: World, data: int -> Hash, p: Payload) {
    match p
    case HeightOf(_, id, hash, _, _) => ProvenHash(w, id, hash)
    case RotationOf(e, _, dataHash, h, id, hash) => dataHash == data(e) && BoundaryHash(w, h, id, hash)
    case _ => false
  }

  ghost predicate NetHashed(w: World, data: int -> Hash, net: Sequencers) {
    && (forall k | k in net.nodes :: StoreHashed(w, net.nodes[k]))
    && (forall k, p | (k, p) in net.issued :: PayloadHashed(w, data, p))
  }

  ghost predicate ViewHashed(w: World, v: View) {
    && (forall id | id in v.hashes :: LocalHash(w, id, v.hashes[id]))
    && (forall id | id in v.localHashes :: LocalHash(w, id, v.localHashes[id]))
  }

  /** What the acting node reads locally: block hashes of finalized blocks, and the agreed data of the next epoch. */
  ghost predicate LocalData(w: World, data: int -> Hash, a: Action) {
    match a
    case TakeTurn(v) => ViewHashed(w, v)
    case SignHeight(p, _, blockHash) => LocalHash(w, p.id, blockHash)
    case SignRotation(p, _, localDataHash) => localDataHash.Some? ==> localDataHash.value == data(p.epochId)
    case Restart => true
  }

  ghost predicate ProofHashed(w: World, p: RotationProof) {
    BoundaryHash(w, p.finishedOnHeight, p.finishedOnId, p.finishedOnHash) && p.finishedOnHash != ""
  }

  ghost predicate ProofsHashed(w: World, v: View) {
    forall e | e in v.rotationProofs && e >= 0 :: ProofHashed(w, v.rotationProofs[e])
  }

  lemma {:induction false} FollowProofsHashed(w: World, s: Store, next: Tracker, v: View)
    requires StoreHashed(w, s) && ProofsHashed(w, v) && next.epoch >= 0
    ensures StoreHashed(w, FollowProofs(s, next, v).0)
    decreases v.approvementEpoch - next.epoch
  {
    FollowUnfolds(s, next, v);
    if next.epoch < v.approvementEpoch && next.epoch in v.rotationProofs
       && v.rotationProofs[next.epoch].nextEpochId == next.epoch + 1 {
      var p := v.rotationProofs[next.epoch];
      assert ProofHashed(w, p);
      FollowProofsHashed(w, AfterProof(s, p), FurtherTracker(p), v);
    }
  }

  lemma FinishEpochHashed(w: World, s: Store, v: View)
    requires StoreHashed(w, s) && ViewHashed(w, v)
    ensures StoreHashed(w, FinishEpoch(s, v))
  {
    var height := s.tracker.nextHeight - 1;
    if CompletedBoundary(s, v).Some? && height >= 0 {
      assert Proven(w, s.heights[height]) && LocalHash(w, s.heights[height], HashIn(v.localHashes, s.heights[height]));
    }
  }

  lemma MapBlockHashed(w: World, s: Store, e: Voting.Epoch, id: BlockId, hash: Hash, isLastBlock: bool)
    requires StoreHashed(w, s) && Proven(w, id) && LocalHash(w, id, hash) && hash != "" && s.tracker.nextHeight >= 0
    ensures StoreHashed(w, MapBlock(s, e, id, hash, isLastBlock))
  {
  }

  predicate NextConfirms(w: World, t: Tracker, v: View, l: Key)
    requires t.epoch >= 0
  {
    var nextId := BlockId(t.epoch, l, t.blockIndex + 1);
    nextId in v.afps && Voting.VerifyAfp(v.afps[nextId], w.epoch(t.epoch))
  }

  /** What a view can confirm the tracker's block by is genuine. */
  ghost predicate ConfirmsShown(w: World, t: Tracker, v: View)
    requires t.epoch >= 0
  {
    && (t.epoch in v.handlers ==> v.handlers[t.epoch].epoch == w.epoch(t.epoch))
    && AlignmentOk(w, t.epoch, v.alignmentLater)
    && forall l :: NextConfirms(w, t, v, l) ==>
         var afp := v.afps[BlockId(t.epoch, l, t.blockIndex + 1)];
         afp.blockId == BlockId(t.epoch, l, t.blockIndex + 1) && AfpShownInRun(w, t.epoch, afp)
  }

  lemma ViewConfirmsShown(w: World, net: Sequencers, s: Store, v: View)
    requires s.tracker.epoch >= 0 && ViewOk(w, net, s, v)
    ensures ConfirmsShown(w, s.tracker, v)
  {
  }

  lemma ConfirmedBySeal(w: World, t: Tracker, v: View, l: Key, hash: Hash)
    requires t.epoch >= 0 && t.blockIndex >= 0 && EpochOk(w, t.epoch) && AlignmentOk(w, t.epoch, v.alignmentLater)
    requires l in v.alignmentLater && v.alignmentLater[l] == Sealed(t.blockIndex, hash)
    ensures Proven(w, BlockId(t.epoch, l, t.blockIndex))
  {
    SealIsProven(w, t.epoch, l);
  }

  lemma ConfirmedByNext(w: World, t: Tracker, v: View, l: Key)
    requires t.epoch >= 0 && t.blockIndex >= 0 && EpochOk(w, t.epoch) && ConfirmsShown(w, t, v)
    requires NextConfirms(w, t, v, l)
    ensures Proven(w, BlockId(t.epoch, l, t.blockIndex))
  {
    PredecessorIsProven(w, t.epoch, l, t.blockIndex, v.afps[BlockId(t.epoch, l, t.blockIndex + 1)]);
  }

  lemma ConfirmedBySealOrNext(w: World, s: Store, v: View, l: Key, hash: Hash)
    requires s.tracker.epoch >= 0 && ConfirmsShown(w, s.tracker, v) && s.tracker.epoch in v.handlers
    requires Confirmed(s, v, v.handlers[s.tracker.epoch], l, hash).0
    ensures (l in v.alignmentLater && v.alignmentLater[l] == Sealed(s.tracker.blockIndex, hash))
            || NextConfirms(w, s.tracker, v, l)
  {
  }

  /** A confirmed block is a finalized one: its leader's seal or its successor's AFP shows it. */
  lemma ConfirmedIsProven(w: World, s: Store, v: View, l: Key, hash: Hash)
    requires s.tracker.epoch >= 0 && s.tracker.blockIndex >= 0 && EpochOk(w, s.tracker.epoch)
    requires ConfirmsShown(w, s.tracker, v) && s.tracker.epoch in v.handlers
    requires Confirmed(s, v, v.handlers[s.tracker.epoch], l, hash).0
    ensures Proven(w, BlockId(s.tracker.epoch, l, s.tracker.blockIndex))
  {
    ConfirmedBySealOrNext(w, s, v, l, hash);
    if l in v.alignmentLater && v.alignmentLater[l] == Sealed(s.tracker.blockIndex, hash) {
      ConfirmedBySeal(w, s.tracker, v, l, hash);
    } else {
      ConfirmedByNext(w, s.tracker, v, l);
    }
  }

  lemma SequenceHashed(w: World, s: Store, v: View)
    requires OnTrack(w, s.tracker) && EpochOk(w, s.tracker.epoch) && ConfirmsShown(w, s.tracker, v)
    requires StoreHashed(w, s) && ViewHashed(w, v)
    ensures StoreHashed(w, SequenceBlock(s, v))
  {
    var t := s.tracker;
    if t.epoch in v.handlers {
      if t.leaderIndex == |Leaders(w, t.epoch)| {
        FinishEpochHashed(w, s, v);
      } else {
        var l := Leaders(w, t.epoch)[t.leaderIndex];
        var id := BlockId(t.epoch, l, t.blockIndex);
        var hash := HashIn(v.hashes, id);
        if hash != "" && Confirmed(s, v, v.handlers[t.epoch], l, hash).0 {
          ConfirmedIsProven(w, s, v, l, hash);
          MapBlockHashed(w, s, w.epoch(t.epoch), id, hash, Confirmed(s, v, v.handlers[t.epoch], l, hash).1);
        }
      }
    }
  }

  lemma VerifiedPayloadHashed(w: World, data: int -> Hash, net: Sequencers, e: nat, signatures: Signatures, p: Payload)
    requires HonestQuorums(w, net) && NetHashed(w, data, net)
    requires VerifyAggregate(signatures, w.epoch(e).quorum, p) && Unforged(signatures, net.Honest(), net.issued)
    ensures PayloadHashed(w, data, p)
  {
    VerifiedImpliesBacked(signatures, w.epoch(e).quorum, net.Honest(), net.issued, p);
    var _ := BackedHasHonestSigner(w.epoch(e).quorum, net.Honest(), net.issued, p);
  }

  lemma ViewProofsHashed(w: World, data: int -> Hash, net: Sequencers, s: Store, v: View)
    requires HonestQuorums(w, net) && NetHashed(w, data, net) && ViewOk(w, net, s, v)
    ensures ProofsHashed(w, v)
  {
    forall e | e in v.rotationProofs && e >= 0
      ensures ProofHashed(w, v.rotationProofs[e])
    {
      VerifiedPayloadHashed(w, data, net, e, v.rotationProofs[e].proofs, v.rotationProofs[e].ToSign());
    }
  }

  lemma TurnHashed(w: World, data: int -> Hash, net: Sequencers, s: Store, v: View)
    requires WorldOk(w) && HonestQuorums(w, net) && NetHashed(w, data, net)
    requires OnTrack(w, s.tracker) && StoreHashed(w, s) && ViewOk(w, net, s, v) && ViewHashed(w, v)
    ensures StoreHashed(w, Turn(s, v))
  {
    ViewProofsHashed(w, data, net, s, v);
    FollowProofsHashed(w, s, s.tracker, v);
    FollowProofsShape(s, s.tracker, v);
    var (synced, done) := SyncToEpochStart(s, v);
    if !done {
      assert EpochOk(w, s.tracker.epoch);
      ViewConfirmsShown(w, net, s, v);
      SequenceHashed(w, synced, v);
    }
  }

  lemma SignedIsHashed(w: World, data: int -> Hash, s: Store, a: Action)
    requires StoreHashed(w, s) && LocalData(w, data, a) && SignedBySome(s, a).Some?
    ensures PayloadHashed(w, data, SignedBySome(s, a).value)
  {
  }

  lemma StoreAfterHashed(w: World, data: int -> Hash, net: Sequencers, k: Key, a: Action)
    requires WorldOk(w) && HonestQuorums(w, net) && NetHashed(w, data, net)
    requires k in net.nodes && OnTrack(w, net.nodes[k].tracker) && Possible(w, net, k, a) && LocalData(w, data, a)
    ensures StoreHashed(w, StoreAfter(net.nodes[k], a))
  {
    assert StoreHashed(w, net.nodes[k]);
    if a.TakeTurn? {
      TurnHashed(w, data, net, net.nodes[k], a.view);
    }
  }

  lemma NetUpdatedHashed(w: World, data: int -> Hash, net: Sequencers, k: Key, a: Action)
    requires NetHashed(w, data, net) && k in net.nodes && StoreHashed(w, StoreAfter(net.nodes[k], a))
    requires SignedBySome(net.nodes[k], a).Some? ==> PayloadHashed(w, data, SignedBySome(net.nodes[k], a).value)
    ensures NetHashed(w, data, Apply(net, k, a))
  {
    var later := Apply(net, k, a);
    forall q | q in later.nodes
      ensures StoreHashed(w, later.nodes[q])
    {
      assert q != k ==> StoreHashed(w, net.nodes[q]);
    }
  }

  lemma StepKeepsHashed(w: World, data: int -> Hash, net: Sequencers, k: Key, a: Action)
    requires WorldOk(w) && HonestQuorums(w, net) && NetHashed(w, data, net)
    requires k in net.nodes && OnTrack(w, net.nodes[k].tracker) && Possible(w, net, k, a) && LocalData(w, data, a)
    ensures NetHashed(w, data, Apply(net, k, a))
  {
    StoreAfterHashed(w, data, net, k, a);
    if SignedBySome(net.nodes[k], a).Some? {
      assert StoreHashed(w, net.nodes[k]);
      SignedIsHashed(w, data, net.nodes[k], a);
    }
    NetUpdatedHashed(w, data, net, k, a);
  }

  // ---------------------------------------------------------------------------------------------
  // Over runs
  // ---------------------------------------------------------------------------------------------

  ghost predicate LocalStep(w: World, data: int -> Hash, before: Sequencers, after: Sequencers) {
    exists k, a | k in before.nodes && Possible(w, before, k, a) ::
      LocalData(w, data, a) && after == Apply(before, k, a)
  }

  ghost predicate LocalStepAt(w: World, data: int -> Hash, run: seq<Sequencers>, i: nat)
    requires 0 < i < |run|
  {
    LocalStep(w, data, run[i - 1], run[i])
  }

  /** A run in which every node holds finalized blocks' hashes and the agreed data of the next epoch. */
  ghost predicate LocalRun(w: World, data: int -> Hash, run: seq<Sequencers>) {
    IsRun(w, run) && forall i | 0 < i < |run| :: LocalStepAt(w, data, run, i)
  }

  lemma LocalStepKeepsHashed(w: World, data: int -> Hash, before: Sequencers, after: Sequencers)
    requires WorldOk(w) && HonestQuorums(w, before) && NetOk(w, before) && NetHashed(w, data, before)
    requires LocalStep(w, data, before, after)
    ensures NetHashed(w, data, after)
  {
    var k, a :| k in before.nodes && Possible(w, before, k, a) && LocalData(w, data, a) && after == Apply(before, k, a);
    assert StoreOk(w, before.nodes[k]);
    StepKeepsHashed(w, data, before, k, a);
  }

  ghost predicate KeepsHashedAt(w: World, data: int -> Hash, run: seq<Sequencers>, i: nat)
    requires 0 < i < |run|
  {
    NetHashed(w, data, run[i - 1]) ==> NetHashed(w, data, run[i])
  }

  lemma EveryPointKeepsHashed(w: World, data: int -> Hash, run: seq<Sequencers>, i: nat)
    requires WorldOk(w) && LocalRun(w, data, run) && HonestQuorums(w, run[0]) && 0 < i < |run|
    ensures KeepsHashedAt(w, data, run, i)
  {
    if NetHashed(w, data, run[i - 1]) {
      RunKeepsNetOk(w, run, i - 1);
      HonestStaysHonest(w, run[0], run[i - 1]);
      assert LocalStepAt(w, data, run, i);
      LocalStepKeepsHashed(w, data, run[i - 1], run[i]);
    }
  }

  lemma {:induction false} HashedByInduction(w: World, data: int -> Hash, run: seq<Sequencers>, i: nat)
    requires i < |run| && NetHashed(w, data, run[0])
    requires forall m | 0 < m < |run| :: KeepsHashedAt(w, data, run, m)
    ensures NetHashed(w, data, run[i])
  {
    if i > 0 {
      HashedByInduction(w, data, run, i - 1);
      assert KeepsHashedAt(w, data, run, i);
    }
  }

  /** Over every such run all mapped blocks are finalized ones, and all boundaries and signatures carry their hashes. */
  lemma RunKeepsHashed(w: World, data: int -> Hash, run: seq<Sequencers>, i: nat)
    requires WorldOk(w) && LocalRun(w, data, run) && HonestQuorums(w, run[0]) && i < |run|
    ensures NetHashed(w, data, run[i])
  {
    forall m | 0 < m < |run|
      ensures KeepsHashedAt(w, data, run, m)
    {
      EveryPointKeepsHashed(w, data, run, m);
    }
    HashedByInduction(w, data, run, i);
  }

  lemma ShownHeightHashed(w: World, data: int -> Hash, run: seq<Sequencers>, i: nat, e: nat, p: HeightProof)
    requires WorldOk(w) && LocalRun(w, data, run) && HonestQuorums(w, run[0])
    requires i < |run| && HeightProofShown(w, run[i], e, p)
    ensures ProvenHash(w, p.id, p.hash)
  {
    RunKeepsHashed(w, data, run, i);
    RunKeepsNetOk(w, run, i);
    HonestStaysHonest(w, run[0], run[i]);
    VerifiedPayloadHashed(w, data, run[i], e, p.proofs, p.ToSign());
  }

  /** Two height proofs for one height agree on the block id and on its hash, which is the finalized one. */
  lemma HeightProofsAgreeOnHash(
      w: World, data: int -> Hash, run: seq<Sequencers>, i: nat, d: nat, p: HeightProof, j: nat, e: nat, q: HeightProof)
    requires WorldOk(w) && LocalRun(w, data, run) && HonestQuorums(w, run[0])
    requires i < |run| && j < |run| && HeightProofShown(w, run[i], d, p) && HeightProofShown(w, run[j], e, q)
    requires p.height == q.height
    ensures p.id == q.id && p.hash == q.hash && ProvenHash(w, p.id, p.hash)
  {
    HeightProofUnique(w, run, i, d, p, j, e, q);
    ShownHeightHashed(w, data, run, i, d, p);
    ShownHeightHashed(w, data, run, j, e, q);
    ProvenHashUnique(w, p.id, p.hash, q.hash);
  }

  lemma ShownRotationHashed(w: World, data: int -> Hash, run: seq<Sequencers>, i: nat, p: RotationProof)
    requires WorldOk(w) && LocalRun(w, data, run) && HonestQuorums(w, run[0])
    requires i < |run| && RotationProofShown(w, run[i], p)
    ensures p.dataHash == data(p.epochId) && BoundaryHash(w, p.finishedOnHeight, p.finishedOnId, p.finishedOnHash)
  {
    RunKeepsHashed(w, data, run, i);
    RunKeepsNetOk(w, run, i);
    HonestStaysHonest(w, run[0], run[i]);
    VerifiedPayloadHashed(w, data, run[i], p.epochId, p.proofs, p.ToSign());
  }

  /** Two rotation proofs of one epoch agree on the block it ended on, on its hash and on the next epoch's data. */
  lemma RotationProofsAgreeOnHash(
      w: World, data: int -> Hash, run: seq<Sequencers>, i: nat, p: RotationProof, j: nat, q: RotationProof)
    requires WorldOk(w) && LocalRun(w, data, run) && HonestQuorums(w, run[0])
    requires i < |run| && j < |run| && RotationProofShown(w, run[i], p) && RotationProofShown(w, run[j], q)
    requires p.epochId == q.epochId
    ensures p.finishedOnId == q.finishedOnId && p.finishedOnHash == q.finishedOnHash
    ensures p.dataHash == q.dataHash == data(p.epochId)
  {
    RotationProofUnique(w, run, i, p, j, q);
    ShownRotationHashed(w, data, run, i, p);
    ShownRotationHashed(w, data, run, j, q);
    if p.finishedOnHeight >= 0 {
      ProvenHashUnique(w, p.finishedOnId, p.finishedOnHash, q.finishedOnHash);
    }
  }
}
