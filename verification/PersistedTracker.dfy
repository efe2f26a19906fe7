/** The persisted tracker against the sequencer's own: when they differ, and exactly when the persisted one
can go back. */
module PersistedTracker {
  import opened Wrappers
  import opened Signatures
  import Voting
  import VotingSafety
  import opened Sequencing
  import opened LastMile
  import opened LastMileSafety
  import opened LastMileAgreement

  /** The tracker `after` is in an earlier epoch or at a lower height than `before`. */
  predicate GoesBack(before: Tracker, after: Tracker) {
    after.epoch < before.epoch || after.nextHeight < before.nextHeight
  }

  predicate AtEpochStart(t: Tracker) {
    t.leaderIndex == 0 && t.blockIndex == 0
  }

  /** The persisted tracker is the sequencer's own, or at the start of a later epoch. */
  predicate SameOrAhead(s: Store) {
    s.stored == s.tracker || (s.stored.epoch > s.tracker.epoch && AtEpochStart(s.stored))
  }

  /** When it is ahead, a rotation proof of the epoch of the sequencer's own tracker can be shown. */
  ghost predicate AheadByProof(w: World, net: Sequencers, s: Store) {
    && SameOrAhead(s)
    && (s.stored != s.tracker ==> exists p: RotationProof ::
       p.epochId == s.tracker.epoch && RotationProofShown(w, net, p))
  }

  // ---------------------------------------------------------------------------------------------
  // The two trackers differ only after a fast-forward that was cut short
  // ---------------------------------------------------------------------------------------------

  predicate FollowsFirst(next: Tracker, v: View) {
    && next.epoch < v.approvementEpoch && next.epoch in v.rotationProofs
    && v.rotationProofs[next.epoch].nextEpochId == next.epoch + 1
    && v.rotationProofs[next.epoch].finishedOnHeight + 1 >= next.nextHeight
  }

  lemma {:induction false} FollowProofsStored(s: Store, next: Tracker, v: View)
    ensures var (after, done) := FollowProofs(s, next, v);
            && (done && (next.epoch < v.approvementEpoch || s.stored == next) ==> after.stored == after.tracker)
            && (!done ==>
                  || after.stored == s.stored
                  || (FollowsFirst(next, v) && AtEpochStart(after.stored) && after.stored.epoch > next.epoch))
    decreases v.approvementEpoch - next.epoch
  {
    FollowUnfolds(s, next, v);
    if FollowsFirst(next, v) {
      var p := v.rotationProofs[next.epoch];
      FollowProofsStored(AfterProof(s, p), FurtherTracker(p), v);
    }
  }

  lemma SequencingStoresTracker(s: Store, v: View)
    ensures var after := SequenceBlock(s, v);
            && after.tracker.epoch >= s.tracker.epoch
            && (after.stored == after.tracker || (after.stored == s.stored && after.tracker == s.tracker))
  {
  }

  /** A turn leaves both trackers equal, or its own alone; then what it persists comes from a proof of its epoch. */
  lemma TurnStores(s: Store, v: View)
    ensures Turn(s, v).tracker.epoch >= s.tracker.epoch
    ensures var after := Turn(s, v);
            || after.stored == after.tracker
            || (after.tracker == s.tracker
                && (|| after.stored == s.stored
                    || (FollowsFirst(s.tracker, v) && AtEpochStart(after.stored)
                       && after.stored.epoch > s.tracker.epoch)))
  {
    FollowProofsStored(s, s.tracker, v);
    FollowProofsShape(s, s.tracker, v);
    SequencingStoresTracker(SyncToEpochStart(s, v).0, v);
  }

  lemma FollowedProofIsShown(w: World, net: Sequencers, s: Store, v: View)
    requires s.tracker.epoch >= 0 && ViewOk(w, net, s, v) && FollowsFirst(s.tracker, v)
    ensures var p := v.rotationProofs[s.tracker.epoch]; p.epochId == s.tracker.epoch && RotationProofShown(w, net, p)
  {
  }

  lemma StoreAfterIsAhead(w: World, net: Sequencers, k: Key, a: Action)
    requires k in net.nodes && Possible(w, net, k, a)
    requires net.nodes[k].tracker.epoch >= 0 && AheadByProof(w, net, net.nodes[k])
    ensures AheadByProof(w, net, StoreAfter(net.nodes[k], a))
  {
    var s := net.nodes[k];
    if a.TakeTurn? {
      TurnStores(s, a.view);
      if FollowsFirst(s.tracker, a.view) {
        FollowedProofIsShown(w, net, s, a.view);
      }
    }
  }

  lemma ShownPersists(w: World, net: Sequencers, later: Sequencers, s: Store)
    requires later.Honest() == net.Honest() && net.issued <= later.issued && AheadByProof(w, net, s)
    ensures AheadByProof(w, later, s)
  {
    if s.stored != s.tracker {
      var p: RotationProof :| p.epochId == s.tracker.epoch && RotationProofShown(w, net, p);
      assert RotationProofShown(w, later, p);
    }
  }

  ghost predicate AllAheadByProof(w: World, net: Sequencers) {
    forall k | k in net.nodes :: AheadByProof(w, net, net.nodes[k])
  }

  lemma StepKeepsAhead(w: World, net: Sequencers, k: Key, a: Action)
    requires NetOk(w, net) && AllAheadByProof(w, net) && k in net.nodes && Possible(w, net, k, a)
    ensures AllAheadByProof(w, Apply(net, k, a))
  {
    var later := Apply(net, k, a);
    assert StoreOk(w, net.nodes[k]);
    StoreAfterIsAhead(w, net, k, a);
    assert later.Honest() == net.Honest() && net.issued <= later.issued;
    forall q | q in later.nodes
      ensures AheadByProof(w, later, later.nodes[q])
    {
      ShownPersists(w, net, later, later.nodes[q]);
    }
  }

  lemma SomeStepKeepsAhead(w: World, before: Sequencers, after: Sequencers)
    requires NetOk(w, before) && AllAheadByProof(w, before) && IsStep(w, before, after)
    ensures AllAheadByProof(w, after)
  {
    var k, a :| k in before.nodes && Possible(w, before, k, a) && after == Apply(before, k, a);
    StepKeepsAhead(w, before, k, a);
  }

  lemma InitialIsAhead(w: World, net: Sequencers)
    requires Initial(net)
    ensures AllAheadByProof(w, net)
  {
  }

  lemma StepAtKeepsAhead(w: World, run: seq<Sequencers>, i: nat)
    requires IsRun(w, run) && AllNetOk(w, run) && 0 < i < |run|
    ensures AllAheadByProof(w, run[i - 1]) ==> AllAheadByProof(w, run[i])
  {
    assert StepAt(w, run, i);
    if AllAheadByProof(w, run[i - 1]) {
      SomeStepKeepsAhead(w, run[i - 1], run[i]);
    }
  }

  lemma {:induction false} OkRunKeepsAhead(w: World, run: seq<Sequencers>, i: nat)
    requires IsRun(w, run) && AllNetOk(w, run) && i < |run|
    ensures AllAheadByProof(w, run[i])
  {
    if i == 0 {
      InitialIsAhead(w, run[i]);
    } else {
      OkRunKeepsAhead(w, run, i - 1);
      StepAtKeepsAhead(w, run, i);
      assert AllAheadByProof(w, run[i - 1]);
    }
    assert AllAheadByProof(w, run[i]);
  }

  /** Over every run: a persisted tracker that differs from the sequencer's own is at the start of a later epoch, and it
  got there by a rotation proof of the epoch the sequencer is still in. */
  lemma RunKeepsAhead(w: World, run: seq<Sequencers>, i: nat)
    requires WorldOk(w) && IsRun(w, run) && HonestQuorums(w, run[0])
    requires i < |run|
    ensures AllAheadByProof(w, run[i])
  {
    RunIsOk(w, run);
    OkRunKeepsAhead(w, run, i);
  }

  // ---------------------------------------------------------------------------------------------
  // Where sequencing cannot move
  // ---------------------------------------------------------------------------------------------

  ghost predicate NextAfpShown(w: World, e: nat, l: Key, k: int) {
    exists afp: Voting.Afp :: afp.blockId == BlockId(e, l, k + 1) && AfpShownInRun(w, e, afp)
  }

  /** Past the last leader with the epoch's last height unmapped; or at a sealed block that carries the empty hash, with
  no AFP of the block after it. */
  ghost predicate Stuck(w: World, s: Store)
    requires OnTrack(w, s.tracker)
  {
    var t := s.tracker;
    if t.leaderIndex == |Leaders(w, t.epoch)| then
      t.nextHeight > 0 && t.nextHeight - 1 !in s.heights
    else
      var l := Leaders(w, t.epoch)[t.leaderIndex];
      && Closed(w, t.epoch, l) && Last(w, t.epoch, l) == Sealed(t.blockIndex, "")
      && !NextAfpShown(w, t.epoch, l, t.blockIndex)
  }

  predicate VerifyAfpIn(w: World, e: nat, afp: Voting.Afp) {
    Voting.VerifyAfp(afp, w.epoch(e))
  }

  lemma ViewAfpIsShown(w: World, net: Sequencers, s: Store, v: View, l: Key)
    requires s.tracker.epoch >= 0 && ViewOk(w, net, s, v)
    ensures var t := s.tracker; var nextId := BlockId(t.epoch, l, t.blockIndex + 1);
            nextId in v.afps && VerifyAfpIn(w, t.epoch, v.afps[nextId]) ==> NextAfpShown(w, t.epoch, l, t.blockIndex)
  {
  }

  /** No view lets a stuck sequencer move by sequencing. */
  lemma StuckStays(w: World, net: Sequencers, s: Store, synced: Store, v: View)
    requires OnTrack(w, s.tracker) && ViewOk(w, net, s, v) && Stuck(w, s)
    requires synced.tracker == s.tracker && synced.heights == s.heights
    ensures SequenceBlock(synced, v) == synced
  {
    var t := s.tracker;
    if t.epoch in v.handlers && t.leaderIndex < |Leaders(w, t.epoch)| {
      var l := Leaders(w, t.epoch)[t.leaderIndex];
      ViewAfpIsShown(w, net, s, v, l);
    }
  }

  // ---------------------------------------------------------------------------------------------
  // Everywhere else some view moves it
  // ---------------------------------------------------------------------------------------------

  /** Some possible turn leaves a persisted tracker of this epoch. */
  ghost predicate CanPersist(w: World, net: Sequencers, s: Store, e: int) {
    exists v :: ViewOk(w, net, s, v) && Turn(s, v).stored.epoch == e
  }

  /** A view without fast-forward, of one epoch and without the next one's handler. */
  function SequencingView(
      e: int, epoch: Voting.Epoch, alignment: map<Key, Sealed>, hashes: map<BlockId, Hash>, afps: map<BlockId,
        Voting.Afp>): View {
    View(0, map[], map[e := Handler(epoch, 0)], alignment, alignment, hashes, hashes, afps)
  }

  lemma SequencingViewOk(
      w: World, net: Sequencers, s: Store, alignment: map<Key, Sealed>, hashes: map<BlockId, Hash>, afps: map<BlockId,
        Voting.Afp>)
    requires s.tracker.epoch >= 0 && AlignmentOk(w, s.tracker.epoch, alignment)
    requires forall id | id in afps ::
             id.BlockId? && id.epoch >= 0 && afps[id].blockId == id && AfpShownInRun(w, id.epoch, afps[id])
    ensures ViewOk(w, net, s, SequencingView(s.tracker.epoch, w.epoch(s.tracker.epoch), alignment, hashes, afps))
  {
  }

  /** Below the seal the next block's AFP can be shown: the seal's own AFP closes a chain through it. */
  lemma NextAfpExists(w: World, e: nat, l: Key, k: nat)
    requires EpochOk(w, e) && Closed(w, e, l) && k < Last(w, e, l).index
    ensures NextAfpShown(w, e, l, k)
  {
    var epoch, run := w.epoch(e), w.run(e);
    var t :| 0 <= t < |run| && VotingSafety.AlfpShown(epoch, run[t], w.alfps(e)[l]);
    VotingSafety.RunKeepsInvariant(epoch, run, t, t);
    var chain := VotingSafety.AfpClosesChain(epoch, run[t], w.alfps(e)[l].stat.afp);
    assert VotingSafety.ChainLink(epoch, run[t], l, chain, k + 1);
    assert chain[k + 1].blockId == BlockId(e, l, k + 1) && AfpShownInRun(w, e, chain[k + 1]);
  }

  /** At or past the seal an alignment entry moves the sequencer: past the seal to the next leader, at it by
  one block. */
  lemma SealMoves(w: World, net: Sequencers, s: Store)
    requires OnTrack(w, s.tracker) && s.tracker.leaderIndex < |Leaders(w, s.tracker.epoch)|
    requires var l := Leaders(w, s.tracker.epoch)[s.tracker.leaderIndex];
             && Closed(w, s.tracker.epoch, l) && s.tracker.blockIndex >= Last(w, s.tracker.epoch, l).index
             && (s.tracker.blockIndex == Last(w, s.tracker.epoch, l).index ==> Last(w, s.tracker.epoch, l).hash != "")
    ensures CanPersist(w, net, s, s.tracker.epoch)
  {
    var t := s.tracker;
    var l := Leaders(w, t.epoch)[t.leaderIndex];
    var hashes := map[BlockId(t.epoch, l, t.blockIndex) := Last(w, t.epoch, l).hash];
    var v := SequencingView(t.epoch, w.epoch(t.epoch), map[l := Last(w, t.epoch, l)], hashes, map[]);
    SequencingViewOk(w, net, s, map[l := Last(w, t.epoch, l)], hashes, map[]);
    assert Turn(s, v).stored.epoch == t.epoch;
  }

  lemma AfpMoves(w: World, net: Sequencers, s: Store)
    requires OnTrack(w, s.tracker) && s.tracker.leaderIndex < |Leaders(w, s.tracker.epoch)|
    requires NextAfpShown(w, s.tracker.epoch, Leaders(w, s.tracker.epoch)[s.tracker.leaderIndex], s.tracker.blockIndex)
    ensures CanPersist(w, net, s, s.tracker.epoch)
  {
    var t := s.tracker;
    var l := Leaders(w, t.epoch)[t.leaderIndex];
    var afp: Voting.Afp :| afp.blockId == BlockId(t.epoch, l, t.blockIndex + 1) && AfpShownInRun(w, t.epoch, afp);
    var hashes := map[BlockId(t.epoch, l, t.blockIndex) := "hash"];
    var v := SequencingView(t.epoch, w.epoch(t.epoch), map[], hashes, map[afp.blockId := afp]);
    SequencingViewOk(w, net, s, map[], hashes, map[afp.blockId := afp]);
    assert Turn(s, v).stored.epoch == t.epoch;
  }

  lemma FinishMoves(w: World, net: Sequencers, s: Store, hashes: map<BlockId, Hash>)
    requires OnTrack(w, s.tracker) && s.tracker.leaderIndex == |Leaders(w, s.tracker.epoch)|
    requires var h := s.tracker.nextHeight - 1;
             h < 0 || (h in s.heights && s.heights[h] != NO_ID && HashIn(hashes, s.heights[h]) != "")
    ensures CanPersist(w, net, s, s.tracker.epoch)
  {
    var v := SequencingView(s.tracker.epoch, w.epoch(s.tracker.epoch), map[], hashes, map[]);
    SequencingViewOk(w, net, s, map[], hashes, map[]);
    assert CompletedBoundary(s, v).Some? && Turn(s, v).stored.epoch == s.tracker.epoch;
  }

  lemma MappedFinishMoves(w: World, net: Sequencers, s: Store)
    requires OnTrack(w, s.tracker) && MapsOk(w, s) && s.tracker.leaderIndex == |Leaders(w, s.tracker.epoch)|
    requires s.tracker.nextHeight == 0 || s.tracker.nextHeight - 1 in s.heights
    ensures CanPersist(w, net, s, s.tracker.epoch)
  {
    if s.tracker.nextHeight == 0 {
      FinishMoves(w, net, s, map[]);
    } else {
      MappingAt(w, s, s.tracker.nextHeight - 1);
      FinishMoves(w, net, s, map[s.heights[s.tracker.nextHeight - 1] := "hash"]);
    }
  }

  lemma LeaderMoves(w: World, net: Sequencers, s: Store)
    requires OnTrack(w, s.tracker) && EpochOk(w, s.tracker.epoch)
             && s.tracker.leaderIndex < |Leaders(w, s.tracker.epoch)|
    requires Closed(w, s.tracker.epoch, Leaders(w, s.tracker.epoch)[s.tracker.leaderIndex]) && !Stuck(w, s)
    ensures CanPersist(w, net, s, s.tracker.epoch)
  {
    var t := s.tracker;
    var l := Leaders(w, t.epoch)[t.leaderIndex];
    if t.blockIndex < Last(w, t.epoch, l).index {
      NextAfpExists(w, t.epoch, l, t.blockIndex);
      AfpMoves(w, net, s);
    } else if Last(w, t.epoch, l) == Sealed(t.blockIndex, "") {
      AfpMoves(w, net, s);
    } else {
      SealMoves(w, net, s);
    }
  }

  lemma LastHeightIsMapped(w: World, s: Store)
    requires OnTrack(w, s.tracker) && s.tracker.leaderIndex == |Leaders(w, s.tracker.epoch)| && !Stuck(w, s)
    ensures s.tracker.nextHeight == 0 || s.tracker.nextHeight - 1 in s.heights
  {
  }

  /** A sequencer that is not stuck in a closed epoch can persist a tracker of its own epoch again. */
  lemma SomeViewMoves(w: World, net: Sequencers, s: Store)
    requires OnTrack(w, s.tracker) && MapsOk(w, s) && EpochOk(w, s.tracker.epoch) && EpochClosed(w, s.tracker.epoch)
    requires !Stuck(w, s)
    ensures CanPersist(w, net, s, s.tracker.epoch)
  {
    if s.tracker.leaderIndex == |Leaders(w, s.tracker.epoch)| {
      LastHeightIsMapped(w, s);
      MappedFinishMoves(w, net, s);
    } else {
      LeaderMoves(w, net, s);
    }
  }

  /** Following the proof of its own epoch and no further one persists the start of the next epoch. */
  lemma ProofMoves(w: World, net: Sequencers, s: Store, p: RotationProof)
    requires OnTrack(w, s.tracker) && SealsOk(w, s.tracker.epoch) && ProofOk(w, p)
    requires p.epochId == s.tracker.epoch && RotationProofShown(w, net, p)
    ensures CanPersist(w, net, s, s.tracker.epoch + 1)
  {
    var e := s.tracker.epoch;
    var v := View(e + 2, map[e := p], map[], map[], map[], map[], map[], map[]);
    TrueProofNeverRegresses(w, s.tracker, p);
    FollowUnfolds(s, s.tracker, v);
    FollowUnfolds(AfterProof(s, p), FurtherTracker(p), v);
    assert ViewOk(w, net, s, v) && Turn(s, v).stored.epoch == e + 1;
  }

  // ---------------------------------------------------------------------------------------------
  // The exact condition
  // ---------------------------------------------------------------------------------------------

  ghost predicate CanGoBack(w: World, net: Sequencers, s: Store) {
    exists v :: ViewOk(w, net, s, v) && GoesBack(s.stored, Turn(s, v).stored)
  }

  lemma EpochStartsInOrder(w: World, a: Tracker, b: Tracker)
    requires OnTrack(w, a) && OnTrack(w, b) && AtEpochStart(a) && a.epoch <= b.epoch
    ensures a.nextHeight <= b.nextHeight
  {
    StartMonotone(w, a.epoch, b.epoch);
  }

  /** With equal trackers no turn takes the persisted one back. */
  lemma EqualStaysForward(w: World, net: Sequencers, k: Key, v: View)
    requires WorldOk(w) && HonestQuorums(w, net) && NetOk(w, net)
    requires k in net.nodes && ViewOk(w, net, net.nodes[k], v) && net.nodes[k].stored == net.nodes[k].tracker
    ensures !GoesBack(net.nodes[k].stored, Turn(net.nodes[k], v).stored)
  {
    TurnOk(w, net, k, v);
    TurnStores(net.nodes[k], v);
    assert StoreOk(w, Turn(net.nodes[k], v));
  }

  lemma StuckTurn(w: World, net: Sequencers, s: Store, v: View)
    requires OnTrack(w, s.tracker) && ViewOk(w, net, s, v) && Stuck(w, s)
    ensures Turn(s, v) == SyncToEpochStart(s, v).0
  {
    FollowProofsShape(s, s.tracker, v);
    if !SyncToEpochStart(s, v).1 {
      StuckStays(w, net, s, SyncToEpochStart(s, v).0, v);
    }
  }

  lemma SyncStoresAhead(s: Store, v: View)
    ensures var after := SyncToEpochStart(s, v).0; after.stored == s.stored || after.stored.epoch > s.tracker.epoch
  {
    FollowProofsStored(s, s.tracker, v);
    FollowProofsShape(s, s.tracker, v);
  }

  /** A stuck sequencer whose persisted tracker is just one epoch ahead cannot take it back. */
  lemma StuckStaysForward(w: World, net: Sequencers, k: Key, v: View)
    requires WorldOk(w) && HonestQuorums(w, net) && NetOk(w, net) && k in net.nodes
             && AheadByProof(w, net, net.nodes[k])
    requires var s := net.nodes[k];
             && OnTrack(w, s.tracker) && ViewOk(w, net, s, v) && Stuck(w, s)
             && s.stored.epoch == s.tracker.epoch + 1
    ensures !GoesBack(net.nodes[k].stored, Turn(net.nodes[k], v).stored)
  {
    TurnOk(w, net, k, v);
    StuckTurn(w, net, net.nodes[k], v);
    SyncStoresAhead(net.nodes[k], v);
    assert OnTrack(w, net.nodes[k].stored) && OnTrack(w, Turn(net.nodes[k], v).stored);
    EpochStartsInOrder(w, net.nodes[k].stored, Turn(net.nodes[k], v).stored);
  }

  lemma AheadCanGoBack(w: World, net: Sequencers, s: Store)
    requires WorldOk(w) && HonestQuorums(w, net) && NetOk(w, net) && StoreOk(w, s) && AheadByProof(w, net, s)
    requires s.stored != s.tracker && !(s.stored.epoch == s.tracker.epoch + 1 && Stuck(w, s))
    ensures CanGoBack(w, net, s)
  {
    var e := s.tracker.epoch;
    assert EpochOk(w, e) && EpochClosed(w, e);
    if Stuck(w, s) {
      var p: RotationProof :| p.epochId == s.tracker.epoch && RotationProofShown(w, net, p);
      SealsAreAtLeastMinusOne(w, e);
      VerifiedPayloadIssued(w, net, e, p.proofs, p.ToSign());
      ProofMoves(w, net, s, p);
    } else {
      SomeViewMoves(w, net, s);
    }
    var v :| ViewOk(w, net, s, v) && Turn(s, v).stored.epoch == if Stuck(w, s) then e + 1 else e;
    assert GoesBack(s.stored, Turn(s, v).stored);
  }

  /** Over every run, some possible turn takes the persisted tracker back exactly when it is ahead of the
  sequencer's own, which only a fast-forward that was cut short brings about, unless it is one epoch ahead and the
  sequencer is stuck. */
  lemma CanGoBackIff(w: World, run: seq<Sequencers>, i: nat, k: Key)
    requires WorldOk(w) && IsRun(w, run) && HonestQuorums(w, run[0])
    requires i < |run| && k in run[i].nodes
    ensures var s := run[i].nodes[k];
            && OnTrack(w, s.tracker)
            && (CanGoBack(w, run[i], s) <==>
                s.stored != s.tracker && !(s.stored.epoch == s.tracker.epoch + 1 && Stuck(w, s)))
  {
    var net, s := run[i], run[i].nodes[k];
    RunKeepsNetOk(w, run, i);
    RunKeepsAhead(w, run, i);
    HonestStaysHonest(w, run[0], net);
    assert StoreOk(w, s) && AheadByProof(w, net, s);
    if CanGoBack(w, net, s) {
      var v :| ViewOk(w, net, s, v) && GoesBack(s.stored, Turn(s, v).stored);
      if s.stored == s.tracker {
        EqualStaysForward(w, net, k, v);
      } else if s.stored.epoch == s.tracker.epoch + 1 && Stuck(w, s) {
        StuckStaysForward(w, net, k, v);
      }
    }
    if s.stored != s.tracker && !(s.stored.epoch == s.tracker.epoch + 1 && Stuck(w, s)) {
      AheadCanGoBack(w, net, s);
    }
  }
}
