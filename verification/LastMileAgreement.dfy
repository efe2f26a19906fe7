/** Agreement of all honest sequencers over every run, and what fast-forward does and does not preserve. */
module LastMileAgreement {
  import opened Wrappers
  import opened Signatures
  import Voting
  import opened Sequencing
  import opened LastMile
  import opened LastMileSafety

  // ---------------------------------------------------------------------------------------------
  // The invariant of all sequencers together
  // ---------------------------------------------------------------------------------------------

  ghost predicate IssuedOk(w: World, p: Payload) {
    match p
    case HeightOf(h, id, _, _, heightInEpoch) => MappingOk(w, h, id, heightInEpoch)
    case RotationOf(e, _, _, h, id, _) => BoundaryOk(w, e, h, id)
    case _ => false
  }

  ghost predicate NetOk(w: World, net: Sequencers) {
    && (forall k | k in net.nodes :: StoreOk(w, net.nodes[k]))
    && (forall k, p | (k, p) in net.issued :: IssuedOk(w, p))
  }

  lemma AllSealsOk(w: World)
    requires WorldOk(w)
    ensures forall e: nat :: SealsOk(w, e)
  {
    forall e: nat
      ensures SealsOk(w, e)
    {
      assert EpochOk(w, e);
      SealsAreAtLeastMinusOne(w, e);
    }
  }

  lemma VerifiedPayloadIssued(w: World, net: Sequencers, e: nat, signatures: Signatures, p: Payload)
    requires HonestQuorums(w, net) && NetOk(w, net)
    requires VerifyAggregate(signatures, w.epoch(e).quorum, p) && Unforged(signatures, net.Honest(), net.issued)
    ensures IssuedOk(w, p)
  {
    VerifiedImpliesBacked(signatures, w.epoch(e).quorum, net.Honest(), net.issued, p);
    var _ := BackedHasHonestSigner(w.epoch(e).quorum, net.Honest(), net.issued, p);
  }

  lemma ViewProofsOk(w: World, net: Sequencers, s: Store, v: View)
    requires HonestQuorums(w, net) && NetOk(w, net) && ViewOk(w, net, s, v)
    ensures ProofsOk(w, v)
  {
    forall e | e in v.rotationProofs && e >= 0
      ensures ProofOk(w, v.rotationProofs[e])
    {
      VerifiedPayloadIssued(w, net, e, v.rotationProofs[e].proofs, v.rotationProofs[e].ToSign());
    }
  }

  /** Fast-forward moves the tracker all the way to the wanted epoch or not at all; it maps no height. */
  lemma {:induction false} FollowProofsShape(s: Store, next: Tracker, v: View)
    ensures FollowProofs(s, next, v).0.heights == s.heights && FollowProofs(s, next, v).0.inEpoch == s.inEpoch
    ensures !FollowProofs(s, next, v).1 ==> FollowProofs(s, next, v).0.tracker == s.tracker
    ensures FollowProofs(s, next, v).1 && next.epoch <= v.approvementEpoch ==>
            FollowProofs(s, next, v).0.tracker.epoch == v.approvementEpoch
    ensures FollowProofs(s, next, v).1 && next.epoch < v.approvementEpoch ==>
              var t := FollowProofs(s, next, v).0.tracker; t.leaderIndex == 0 && t.blockIndex == 0
    decreases v.approvementEpoch - next.epoch
  {
    FollowUnfolds(s, next, v);
    if next.epoch < v.approvementEpoch && next.epoch in v.rotationProofs
       && v.rotationProofs[next.epoch].nextEpochId == next.epoch + 1
       && v.rotationProofs[next.epoch].finishedOnHeight + 1 >= next.nextHeight {
      var p := v.rotationProofs[next.epoch];
      FollowProofsShape(AfterProof(s, p), FurtherTracker(p), v);
      FollowUnfolds(AfterProof(s, p), FurtherTracker(p), v);
    }
  }

  lemma TurnOk(w: World, net: Sequencers, k: Key, v: View)
    requires WorldOk(w) && HonestQuorums(w, net) && NetOk(w, net)
    requires k in net.nodes && ViewOk(w, net, net.nodes[k], v)
    ensures StoreOk(w, Turn(net.nodes[k], v))
    ensures Turn(net.nodes[k], v).tracker.nextHeight >= net.nodes[k].tracker.nextHeight
  {
    var s := net.nodes[k];
    assert StoreOk(w, s);
    AllSealsOk(w);
    ViewProofsOk(w, net, s, v);
    ViewIsWithinSeals(w, net, s, v);
    var (synced, done) := SyncToEpochStart(s, v);
    if v.approvementEpoch > 0 && s.tracker.epoch < v.approvementEpoch {
      FollowProofsOk(w, s, s.tracker, v);
      FollowProofsShape(s, s.tracker, v);
    }
    if !done {
      assert EpochOk(w, s.tracker.epoch);
      SequenceBlockOk(w, synced, v);
    }
  }

  lemma RestartOk(w: World, s: Store)
    requires StoreOk(w, s)
    ensures StoreOk(w, s.(tracker := s.stored))
  {
  }

  lemma SignedIsOk(w: World, s: Store, a: Action)
    requires StoreOk(w, s) && SignedBySome(s, a).Some?
    ensures IssuedOk(w, SignedBySome(s, a).value)
  {
  }

  lemma StoreAfterOk(w: World, net: Sequencers, k: Key, a: Action)
    requires WorldOk(w) && HonestQuorums(w, net) && NetOk(w, net)
    requires k in net.nodes && Possible(w, net, k, a)
    ensures StoreOk(w, StoreAfter(net.nodes[k], a))
    ensures SignedBySome(net.nodes[k], a).Some? ==> IssuedOk(w, SignedBySome(net.nodes[k], a).value)
  {
    if a.TakeTurn? {
      TurnOk(w, net, k, a.view);
    } else {
      assert StoreOk(w, net.nodes[k]);
      RestartOk(w, net.nodes[k]);
      if SignedBySome(net.nodes[k], a).Some? {
        SignedIsOk(w, net.nodes[k], a);
      }
    }
  }

  lemma NetUpdatedOk(w: World, net: Sequencers, k: Key, a: Action)
    requires NetOk(w, net) && k in net.nodes && StoreOk(w, StoreAfter(net.nodes[k], a))
    requires SignedBySome(net.nodes[k], a).Some? ==> IssuedOk(w, SignedBySome(net.nodes[k], a).value)
    ensures NetOk(w, Apply(net, k, a)) && Apply(net, k, a).Honest() == net.Honest()
  {
    var later := Apply(net, k, a);
    assert later.nodes.Keys == net.nodes.Keys;
    forall q | q in later.nodes
      ensures StoreOk(w, later.nodes[q])
    {
      assert q != k ==> StoreOk(w, net.nodes[q]);
    }
  }

  lemma StepKeepsNetOk(w: World, net: Sequencers, k: Key, a: Action)
    requires WorldOk(w) && HonestQuorums(w, net) && NetOk(w, net)
    requires k in net.nodes && Possible(w, net, k, a)
    ensures NetOk(w, Apply(net, k, a)) && Apply(net, k, a).Honest() == net.Honest()
  {
    StoreAfterOk(w, net, k, a);
    NetUpdatedOk(w, net, k, a);
  }

  lemma EmptyStoreOk(w: World)
    ensures StoreOk(w, EMPTY_STORE)
  {
  }

  lemma HonestStaysHonest(w: World, net: Sequencers, later: Sequencers)
    requires HonestQuorums(w, net) && later.Honest() == net.Honest()
    ensures HonestQuorums(w, later)
  {
  }

  lemma {:induction false} RunKeepsNetOk(w: World, run: seq<Sequencers>, i: nat)
    requires WorldOk(w) && IsRun(w, run) && HonestQuorums(w, run[0])
    requires i < |run|
    ensures NetOk(w, run[i]) && run[i].Honest() == run[0].Honest()
  {
    if i == 0 {
      EmptyStoreOk(w);
    } else {
      RunKeepsNetOk(w, run, i - 1);
      HonestStaysHonest(w, run[0], run[i - 1]);
      assert StepAt(w, run, i);
      var k, a :| k in run[i - 1].nodes && Possible(w, run[i - 1], k, a) && run[i] == Apply(run[i - 1], k, a);
      StepKeepsNetOk(w, run[i - 1], k, a);
    }
  }

  ghost predicate AllNetOk(w: World, run: seq<Sequencers>) {
    forall i | 0 <= i < |run| :: NetOk(w, run[i])
  }

  lemma RunIsOk(w: World, run: seq<Sequencers>)
    requires WorldOk(w) && IsRun(w, run) && HonestQuorums(w, run[0])
    ensures AllNetOk(w, run)
  {
    forall i | 0 <= i < |run|
      ensures NetOk(w, run[i])
    {
      RunKeepsNetOk(w, run, i);
    }
  }

  // ---------------------------------------------------------------------------------------------
  // Agreement
  // ---------------------------------------------------------------------------------------------

  lemma StoresAgree(w: World, s: Store, t: Store, h: int)
    requires MapsOk(w, s) && MapsOk(w, t) && h in s.heights && h in t.heights
    ensures h in s.inEpoch && h in t.inEpoch && s.heights[h] == t.heights[h] && s.inEpoch[h] == t.inEpoch[h]
  {
    assert MappingOk(w, h, s.heights[h], s.inEpoch[h]) && MappingOk(w, h, t.heights[h], t.inEpoch[h]);
    CanonicalUnique(w, h, s.heights[h], t.heights[h]);
  }

  /** Any two honest sequencers, at any two points of a run, give one height the same block id and place in
  its epoch. */
  lemma HeightsAgree(w: World, run: seq<Sequencers>, i: nat, a: Key, j: nat, b: Key, h: int)
    requires WorldOk(w) && IsRun(w, run) && HonestQuorums(w, run[0])
    requires i < |run| && a in run[i].nodes && h in run[i].nodes[a].heights
    requires j < |run| && b in run[j].nodes && h in run[j].nodes[b].heights
    ensures run[i].nodes[a].heights[h] == run[j].nodes[b].heights[h]
    ensures h in run[i].nodes[a].inEpoch && h in run[j].nodes[b].inEpoch
    ensures run[i].nodes[a].inEpoch[h] == run[j].nodes[b].inEpoch[h]
  {
    RunKeepsNetOk(w, run, i);
    RunKeepsNetOk(w, run, j);
    assert StoreOk(w, run[i].nodes[a]) && StoreOk(w, run[j].nodes[b]);
    StoresAgree(w, run[i].nodes[a], run[j].nodes[b], h);
  }

  ghost predicate HeightProofShown(w: World, net: Sequencers, e: nat, p: HeightProof) {
    VerifyHeightProof(p, w.epoch(e)) && Unforged(p.proofs, net.Honest(), net.issued)
  }

  /** A height proof that can be shown states the canonical block of its height. */
  lemma ShownHeightIsTrue(w: World, run: seq<Sequencers>, i: nat, e: nat, p: HeightProof)
    requires WorldOk(w) && IsRun(w, run) && HonestQuorums(w, run[0])
    requires i < |run| && HeightProofShown(w, run[i], e, p)
    ensures MappingOk(w, p.height, p.id, p.heightInEpoch)
  {
    RunKeepsNetOk(w, run, i);
    HonestStaysHonest(w, run[0], run[i]);
    VerifiedPayloadIssued(w, run[i], e, p.proofs, p.ToSign());
  }

  /** At most one block id per height gathers a height proof, whichever epochs' quorums signed. */
  lemma HeightProofUnique(
      w: World, run: seq<Sequencers>, i: nat, d: nat, p: HeightProof, j: nat, e: nat, q: HeightProof)
    requires WorldOk(w) && IsRun(w, run) && HonestQuorums(w, run[0])
    requires i < |run| && j < |run| && HeightProofShown(w, run[i], d, p) && HeightProofShown(w, run[j], e, q)
    requires p.height == q.height
    ensures p.id == q.id && p.heightInEpoch == q.heightInEpoch
  {
    ShownHeightIsTrue(w, run, i, d, p);
    ShownHeightIsTrue(w, run, j, e, q);
    CanonicalUnique(w, p.height, p.id, q.id);
  }

  ghost predicate RotationProofShown(w: World, net: Sequencers, p: RotationProof) {
    p.epochId >= 0 && VerifyRotationProof(p, w.epoch(p.epochId)) && Unforged(p.proofs, net.Honest(), net.issued)
  }

  /** A rotation proof that can be shown states where its epoch really ended. */
  lemma ShownRotationIsTrue(w: World, run: seq<Sequencers>, i: nat, p: RotationProof)
    requires WorldOk(w) && IsRun(w, run) && HonestQuorums(w, run[0])
    requires i < |run| && RotationProofShown(w, run[i], p)
    ensures BoundaryOk(w, p.epochId, p.finishedOnHeight, p.finishedOnId)
  {
    RunKeepsNetOk(w, run, i);
    HonestStaysHonest(w, run[0], run[i]);
    VerifiedPayloadIssued(w, run[i], p.epochId, p.proofs, p.ToSign());
  }

  /** Rotation proofs of one epoch agree on where it ended. */
  lemma RotationProofUnique(w: World, run: seq<Sequencers>, i: nat, p: RotationProof, j: nat, q: RotationProof)
    requires WorldOk(w) && IsRun(w, run) && HonestQuorums(w, run[0])
    requires i < |run| && j < |run| && RotationProofShown(w, run[i], p) && RotationProofShown(w, run[j], q)
    requires p.epochId == q.epochId
    ensures p.finishedOnHeight == q.finishedOnHeight == Start(w, p.epochId + 1) - 1
    ensures p.finishedOnHeight >= 0 ==> p.finishedOnId == q.finishedOnId
  {
    ShownRotationIsTrue(w, run, i, p);
    ShownRotationIsTrue(w, run, j, q);
    if p.finishedOnHeight >= 0 {
      CanonicalUnique(w, p.finishedOnHeight, p.finishedOnId, q.finishedOnId);
    }
  }

  lemma SitsBelowEpochEnd(w: World, d: nat, i: nat, k: nat, h: int, e: nat)
    requires Sits(w, d, i, k, h) && Reached(w, e, |Leaders(w, e)|)
    ensures h < Start(w, e + 1) <==> d <= e
  {
    if d <= e {
      assert EpochClosed(w, d);
      BeforeMonotone(w, d, i + 1, |Leaders(w, d)|);
      StartMonotone(w, d + 1, e + 1);
    } else {
      StartMonotone(w, e + 1, d);
    }
  }

  lemma CanonicalBelowEpochEnd(w: World, h: int, id: BlockId, e: nat)
    requires Canonical(w, h, id) && Reached(w, e, |Leaders(w, e)|)
    ensures h < Start(w, e + 1) <==> id.epoch <= e
  {
    var i: nat :| i < |Leaders(w, id.epoch)| && Leaders(w, id.epoch)[i] == id.creator
      && Sits(w, id.epoch, i, id.index, h);
    SitsBelowEpochEnd(w, id.epoch, i, id.index, h, e);
  }

  /** A height proof is above the end that a rotation proof states exactly when its block is of a later epoch. */
  lemma LaterEpochsAreAbove(w: World, run: seq<Sequencers>, i: nat, p: RotationProof, j: nat, e: nat, q: HeightProof)
    requires WorldOk(w) && IsRun(w, run) && HonestQuorums(w, run[0])
    requires i < |run| && j < |run| && RotationProofShown(w, run[i], p) && HeightProofShown(w, run[j], e, q)
    ensures q.id.BlockId? && (q.height > p.finishedOnHeight <==> q.id.epoch > p.epochId)
  {
    ShownRotationIsTrue(w, run, i, p);
    ShownHeightIsTrue(w, run, j, e, q);
    CanonicalBelowEpochEnd(w, q.height, q.id, p.epochId);
  }

  /** Following verified proofs to an epoch gives the very tracker that sequencing every block up to it gives. */
  lemma FastForwardMatchesSequencing(w: World, run: seq<Sequencers>, i: nat, a: Key, v: View, j: nat, b: Key)
    requires WorldOk(w) && IsRun(w, run) && HonestQuorums(w, run[0])
    requires i < |run| && a in run[i].nodes && ViewOk(w, run[i], run[i].nodes[a], v)
    requires SyncToEpochStart(run[i].nodes[a], v).1
    requires j < |run| && b in run[j].nodes
    requires var t := run[j].nodes[b].tracker; t.epoch == v.approvementEpoch && t.leaderIndex == 0 && t.blockIndex == 0
    ensures SyncToEpochStart(run[i].nodes[a], v).0.tracker == run[j].nodes[b].tracker
  {
    RunKeepsNetOk(w, run, i);
    RunKeepsNetOk(w, run, j);
    HonestStaysHonest(w, run[0], run[i]);
    var s := run[i].nodes[a];
    assert StoreOk(w, s) && StoreOk(w, run[j].nodes[b]);
    TurnOk(w, run[i], a, v);
    FollowProofsShape(s, s.tracker, v);
    assert Turn(s, v) == SyncToEpochStart(s, v).0;
    OnTrackDetermined(w, Turn(s, v).tracker, run[j].nodes[b].tracker);
  }

  /** With every proof of the missing epochs at hand the fast-forward always succeeds: its regression guard
  never fires. */
  lemma {:induction false} FastForwardSucceeds(w: World, s: Store, next: Tracker, v: View)
    requires ProofsOk(w, v) && forall e: nat :: SealsOk(w, e)
    requires OnTrack(w, next)
    requires forall e | next.epoch <= e < v.approvementEpoch ::
             e in v.rotationProofs && v.rotationProofs[e].epochId == e
    ensures FollowProofs(s, next, v).1
    decreases v.approvementEpoch - next.epoch
  {
    FollowUnfolds(s, next, v);
    if next.epoch < v.approvementEpoch {
      var p := v.rotationProofs[next.epoch];
      assert ProofOk(w, p);
      TrueProofNeverRegresses(w, next, p);
      FastForwardSucceeds(w, AfterProof(s, p), FurtherTracker(p), v);
    }
  }

  // ---------------------------------------------------------------------------------------------
  // Heights are written once and without gaps
  // ---------------------------------------------------------------------------------------------

  /** Nothing is mapped, or exactly the tracker's next height is. */
  predicate MapsNextOrNothing(s: Store, after: Store) {
    || (after.heights == s.heights && after.tracker.nextHeight == s.tracker.nextHeight)
    || (s.tracker.nextHeight in after.heights
        && after.heights == s.heights[s.tracker.nextHeight := after.heights[s.tracker.nextHeight]]
        && after.tracker.nextHeight == s.tracker.nextHeight + 1)
  }

  lemma MapBlockMapsNext(s: Store, e: Voting.Epoch, id: BlockId, hash: Hash, isLastBlock: bool)
    ensures MapsNextOrNothing(s, MapBlock(s, e, id, hash, isLastBlock))
  {
  }

  lemma SequenceBlockMapsNext(s: Store, v: View)
    ensures MapsNextOrNothing(s, SequenceBlock(s, v))
  {
    if s.tracker.epoch in v.handlers && 0 <= s.tracker.leaderIndex < |v.handlers[s.tracker.epoch].epoch.leaders| {
      var handler := v.handlers[s.tracker.epoch];
      var leader := handler.epoch.leaders[s.tracker.leaderIndex];
      var id := BlockId(s.tracker.epoch, leader, s.tracker.blockIndex);
      var hash := HashIn(v.hashes, id);
      MapBlockMapsNext(s, handler.epoch, id, hash, Confirmed(s, v, handler, leader, hash).1);
    }
  }

  lemma NextHeightIsFree(w: World, s: Store)
    requires MapsOk(w, s)
    ensures s.tracker.nextHeight !in s.heights
  {
  }

  predicate OnlyAddsNext(s: Store, after: Store) {
    && (forall h | h in s.heights :: h in after.heights && after.heights[h] == s.heights[h])
    && (forall h | h in after.heights && h !in s.heights :: h == s.tracker.nextHeight)
  }

  lemma TurnOnlyAddsNext(s: Store, v: View)
    requires s.tracker.nextHeight !in s.heights
    ensures OnlyAddsNext(s, Turn(s, v))
  {
    FollowProofsShape(s, s.tracker, v);
    var (synced, done) := SyncToEpochStart(s, v);
    SequenceBlockMapsNext(synced, v);
  }

  /** Over any turn of a reachable sequencer: no mapped height changes, and the tracker's next height never
  goes back. */
  lemma HeightsWrittenOnce(w: World, net: Sequencers, k: Key, v: View)
    requires WorldOk(w) && HonestQuorums(w, net) && NetOk(w, net)
    requires k in net.nodes && ViewOk(w, net, net.nodes[k], v)
    ensures Turn(net.nodes[k], v).tracker.nextHeight >= net.nodes[k].tracker.nextHeight
    ensures OnlyAddsNext(net.nodes[k], Turn(net.nodes[k], v))
  {
    TurnOk(w, net, k, v);
    assert StoreOk(w, net.nodes[k]);
    NextHeightIsFree(w, net.nodes[k]);
    TurnOnlyAddsNext(net.nodes[k], v);
  }

  predicate GapFree(s: Store, from: int) {
    forall h | from <= h < s.tracker.nextHeight :: h in s.heights
  }

  lemma SequencingKeepsGapFree(s: Store, v: View, from: int)
    requires GapFree(s, from)
    ensures GapFree(SequenceBlock(s, v), from)
  {
  }

  lemma MappingAt(w: World, s: Store, h: int)
    requires MapsOk(w, s) && h in s.heights
    ensures h in s.inEpoch && MappingOk(w, h, s.heights[h], s.inEpoch[h])
  {
  }

  lemma MappedIsListed(w: World, e: nat, blocks: seq<BlockId>, j: nat, id: BlockId, heightInEpoch: int)
    requires Reached(w, e, |Leaders(w, e)|) && j < EpochSize(w, e) && MappingOk(w, Start(w, e) + j, id, heightInEpoch)
    requires blocks == EpochBlocks(w, e)
    ensures j < |blocks| && id == blocks[j]
  {
    CanonicalIsListed(w, e, j, id);
  }

  lemma EarlierEpochIsReached(w: World, later: nat, i: nat, e: nat)
    requires Reached(w, later, i) && e < later
    ensures Reached(w, e, |Leaders(w, e)|)
  {
    assert EpochClosed(w, e);
  }

  lemma PastEpochIsReached(w: World, t: Tracker, e: nat)
    requires OnTrack(w, t) && e < t.epoch
    ensures Reached(w, e, |Leaders(w, e)|) && Start(w, e) + EpochSize(w, e) <= t.nextHeight
  {
    EarlierEpochIsReached(w, t.epoch, t.leaderIndex, e);
    StartMonotone(w, e + 1, t.epoch);
    assert Start(w, e + 1) == Start(w, e) + EpochSize(w, e);
  }

  lemma CompletedHeightIsMapped(w: World, s: Store, e: nat, j: nat)
    requires OnTrack(w, s.tracker) && GapFree(s, Start(w, e)) && e < s.tracker.epoch && j < EpochSize(w, e)
    ensures Start(w, e) + j in s.heights
  {
    PastEpochIsReached(w, s.tracker, e);
  }

  predicate HoldsFrom(heights: map<int, BlockId>, start: int, blocks: seq<BlockId>, j: nat) {
    j < |blocks| ==> start + j in heights && heights[start + j] == blocks[j]
  }

  lemma MappedHeightIsExact(
      w: World, heights: map<int, BlockId>, e: nat, blocks: seq<BlockId>, j: nat, heightInEpoch: int)
    requires Reached(w, e, |Leaders(w, e)|) && j < EpochSize(w, e) && Start(w, e) + j in heights
    requires MappingOk(w, Start(w, e) + j, heights[Start(w, e) + j], heightInEpoch)
    requires blocks == EpochBlocks(w, e)
    ensures HoldsFrom(heights, Start(w, e), blocks, j)
  {
    MappedIsListed(w, e, blocks, j, heights[Start(w, e) + j], heightInEpoch);
  }

  lemma CompletedMapping(w: World, s: Store, e: nat, j: nat) returns (heightInEpoch: int)
    requires OnTrack(w, s.tracker) && MapsOk(w, s) && GapFree(s, Start(w, e)) && e < s.tracker.epoch
             && j < EpochSize(w, e)
    ensures Start(w, e) + j in s.heights && MappingOk(w, Start(w, e) + j, s.heights[Start(w, e) + j], heightInEpoch)
  {
    CompletedHeightIsMapped(w, s, e, j);
    MappingAt(w, s, Start(w, e) + j);
    heightInEpoch := s.inEpoch[Start(w, e) + j];
  }

  /** A completed epoch that was sequenced block by block holds exactly blocks 0..last of every leader, in
  leader order. */
  lemma CompletedEpochIsExact(w: World, s: Store, e: nat, blocks: seq<BlockId>)
    requires StoreOk(w, s) && GapFree(s, Start(w, e)) && e < s.tracker.epoch
    requires blocks == EpochBlocks(w, e)
    ensures |blocks| == EpochSize(w, e) && forall j: nat :: HoldsFrom(s.heights, Start(w, e), blocks, j)
  {
    PastEpochIsReached(w, s.tracker, e);
    forall j: nat
      ensures HoldsFrom(s.heights, Start(w, e), blocks, j)
    {
      if j < EpochSize(w, e) {
        var heightInEpoch := CompletedMapping(w, s, e, j);
        MappedHeightIsExact(w, s.heights, e, blocks, j, heightInEpoch);
      }
    }
  }

  // ---------------------------------------------------------------------------------------------
  // The same over a run
  // ---------------------------------------------------------------------------------------------

  /** An action by which a sequencer goes on block by block: no completed fast-forward, and no restart from
  elsewhere. */
  predicate GoesOn(s: Store, a: Action) {
    match a
    case TakeTurn(v) => !SyncToEpochStart(s, v).1
    case Restart => s.stored == s.tracker
    case _ => true
  }

  /** A step of some sequencer by which this one, if it is its own, goes on block by block. */
  ghost predicate GoesOnBy(w: World, before: Sequencers, after: Sequencers, k: Key, q: Key, a: Action) {
    && q in before.nodes && Possible(w, before, q, a) && after == Apply(before, q, a)
    && (q == k ==> GoesOn(before.nodes[q], a))
  }

  ghost predicate GoesOnStep(w: World, before: Sequencers, after: Sequencers, k: Key) {
    exists q, a :: GoesOnBy(w, before, after, k, q, a)
  }

  ghost predicate GoesOnAt(w: World, run: seq<Sequencers>, i: nat, k: Key)
    requires 0 < i < |run|
  {
    GoesOnStep(w, run[i - 1], run[i], k)
  }

  ghost predicate GoesOnBetween(w: World, run: seq<Sequencers>, i: nat, j: nat, k: Key)
    requires i <= j < |run|
  {
    forall m | i < m <= j :: GoesOnAt(w, run, m, k)
  }

  lemma GoingOnKeepsGapFree(s: Store, a: Action, from: int)
    requires GapFree(s, from) && GoesOn(s, a)
    ensures GapFree(StoreAfter(s, a), from)
  {
    if a.TakeTurn? {
      FollowProofsShape(s, s.tracker, a.view);
      SequencingKeepsGapFree(SyncToEpochStart(s, a.view).0, a.view, from);
    }
  }

  lemma GapFreeAtNextPoint(w: World, run: seq<Sequencers>, i: nat, k: Key, from: int)
    requires 0 < i < |run| && k in run[i - 1].nodes && GapFree(run[i - 1].nodes[k], from) && GoesOnAt(w, run, i, k)
    ensures k in run[i].nodes && GapFree(run[i].nodes[k], from)
  {
    var q, a :| GoesOnBy(w, run[i - 1], run[i], k, q, a);
    if q == k {
      GoingOnKeepsGapFree(run[i - 1].nodes[k], a, from);
    }
  }

  lemma {:induction false} GapFreeBetween(w: World, run: seq<Sequencers>, i: nat, j: nat, k: Key, from: int)
    requires i <= j < |run| && k in run[i].nodes && GapFree(run[i].nodes[k], from) && GoesOnBetween(w, run, i, j, k)
    ensures k in run[j].nodes && GapFree(run[j].nodes[k], from)
  {
    if i < j {
      GapFreeBetween(w, run, i, j - 1, k, from);
      GapFreeAtNextPoint(w, run, j, k, from);
    }
  }

  predicate KeepsHeights(s: Store, later: Store) {
    forall h | h in s.heights :: h in later.heights && later.heights[h] == s.heights[h]
  }

  lemma ActionKeepsHeights(w: World, s: Store, a: Action)
    requires MapsOk(w, s)
    ensures KeepsHeights(s, StoreAfter(s, a))
  {
    if a.TakeTurn? {
      NextHeightIsFree(w, s);
      TurnOnlyAddsNext(s, a.view);
    }
  }

  lemma StepKeepsHeights(w: World, before: Sequencers, after: Sequencers, k: Key)
    requires NetOk(w, before) && IsStep(w, before, after) && k in before.nodes
    ensures k in after.nodes && KeepsHeights(before.nodes[k], after.nodes[k])
  {
    var q, a :| q in before.nodes && Possible(w, before, q, a) && after == Apply(before, q, a);
    assert StoreOk(w, before.nodes[k]);
    if q == k {
      ActionKeepsHeights(w, before.nodes[k], a);
    }
  }

  lemma KeepsHeightsTransitive(a: Store, b: Store, c: Store)
    requires KeepsHeights(a, b) && KeepsHeights(b, c)
    ensures KeepsHeights(a, c)
  {
  }

  predicate KeepsAt(run: seq<Sequencers>, i: nat, k: Key)
    requires 0 < i < |run|
  {
    k in run[i - 1].nodes ==> k in run[i].nodes && KeepsHeights(run[i - 1].nodes[k], run[i].nodes[k])
  }

  lemma RunKeepsAt(w: World, run: seq<Sequencers>, i: nat, k: Key)
    requires IsRun(w, run) && AllNetOk(w, run) && 0 < i < |run|
    ensures KeepsAt(run, i, k)
  {
    if k in run[i - 1].nodes {
      assert StepAt(w, run, i);
      StepKeepsHeights(w, run[i - 1], run[i], k);
    }
  }

  lemma {:induction false} KeepsBetween(run: seq<Sequencers>, i: nat, j: nat, k: Key)
    requires i <= j < |run| && k in run[i].nodes
    requires forall m | i < m <= j :: KeepsAt(run, m, k)
    ensures k in run[j].nodes && KeepsHeights(run[i].nodes[k], run[j].nodes[k])
  {
    if i < j {
      KeepsBetween(run, i, j - 1, k);
      assert KeepsAt(run, j, k);
      KeepsHeightsTransitive(run[i].nodes[k], run[j - 1].nodes[k], run[j].nodes[k]);
    }
  }

  /** Over every run: what a sequencer has mapped it keeps, through turns, fast-forwards and restarts. */
  lemma RunKeepsHeights(w: World, run: seq<Sequencers>, i: nat, j: nat, k: Key)
    requires WorldOk(w) && IsRun(w, run) && HonestQuorums(w, run[0])
    requires i <= j < |run| && k in run[i].nodes
    ensures k in run[j].nodes && KeepsHeights(run[i].nodes[k], run[j].nodes[k])
  {
    RunIsOk(w, run);
    forall m | i < m <= j
      ensures KeepsAt(run, m, k)
    {
      RunKeepsAt(w, run, m, k);
    }
    KeepsBetween(run, i, j, k);
  }

  lemma GapFreeAtEpochStart(w: World, s: Store)
    requires OnTrack(w, s.tracker) && s.tracker.leaderIndex == 0 && s.tracker.blockIndex == 0
    ensures GapFree(s, Start(w, s.tracker.epoch))
  {
  }

  lemma CompletedAt(w: World, run: seq<Sequencers>, i: nat, j: nat, k: Key, e: nat)
    requires AllNetOk(w, run) && i <= j < |run| && k in run[i].nodes && GoesOnBetween(w, run, i, j, k)
    requires var t := run[i].nodes[k].tracker; t.epoch == e && t.leaderIndex == 0 && t.blockIndex == 0
    requires k in run[j].nodes && run[j].nodes[k].tracker.epoch > e
    ensures |EpochBlocks(w, e)| == EpochSize(w, e)
    ensures forall h: nat :: HoldsFrom(run[j].nodes[k].heights, Start(w, e), EpochBlocks(w, e), h)
  {
    assert StoreOk(w, run[i].nodes[k]) && StoreOk(w, run[j].nodes[k]);
    GapFreeAtEpochStart(w, run[i].nodes[k]);
    GapFreeBetween(w, run, i, j, k, Start(w, e));
    CompletedEpochIsExact(w, run[j].nodes[k], e, EpochBlocks(w, e));
  }

  lemma KeptHeightsHold(s: Store, later: Store, start: int, blocks: seq<BlockId>)
    requires KeepsHeights(s, later) && forall h: nat :: HoldsFrom(s.heights, start, blocks, h)
    ensures forall h: nat :: HoldsFrom(later.heights, start, blocks, h)
  {
    forall h: nat
      ensures HoldsFrom(later.heights, start, blocks, h)
    {
      assert HoldsFrom(s.heights, start, blocks, h);
    }
  }

  /** A sequencer that starts an epoch at point i and goes on block by block until it is past it at point j holds
  exactly blocks 0..last of every leader of that epoch, in leader order, at j and ever after. */
  lemma SequencedEpochIsExact(w: World, run: seq<Sequencers>, i: nat, j: nat, later: nat, k: Key, e: nat)
    requires WorldOk(w) && IsRun(w, run) && HonestQuorums(w, run[0])
    requires i <= j <= later < |run| && k in run[i].nodes && GoesOnBetween(w, run, i, j, k)
    requires var t := run[i].nodes[k].tracker; t.epoch == e && t.leaderIndex == 0 && t.blockIndex == 0
    requires k in run[j].nodes && run[j].nodes[k].tracker.epoch > e
    ensures k in run[later].nodes && |EpochBlocks(w, e)| == EpochSize(w, e)
    ensures forall h: nat :: HoldsFrom(run[later].nodes[k].heights, Start(w, e), EpochBlocks(w, e), h)
  {
    RunIsOk(w, run);
    CompletedAt(w, run, i, j, k, e);
    RunKeepsHeights(w, run, j, later, k);
    KeptHeightsHold(run[j].nodes[k], run[later].nodes[k], Start(w, e), EpochBlocks(w, e));
  }
}
