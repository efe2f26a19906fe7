/** When a turn of the last-mile sequencer moves, and what exactly it writes then. */
module SequencingSteps {
  import opened Wrappers
  import opened Signatures
  import opened Voting
  import opened Sequencing
  import opened LastMile
  import opened LastMileSafety

  // ---------------------------------------------------------------------------------------------
  // Sequencing
  // ---------------------------------------------------------------------------------------------

  /** The tracker stands at a leader of an epoch that the node knows. */
  predicate AtLeader(s: Store, v: View) {
    s.tracker.epoch in v.handlers && 0 <= s.tracker.leaderIndex < |v.handlers[s.tracker.epoch].epoch.leaders|
  }

  function LeaderAt(s: Store, v: View): Key
    requires AtLeader(s, v)
  {
    v.handlers[s.tracker.epoch].epoch.leaders[s.tracker.leaderIndex]
  }

  function BlockAt(s: Store, v: View): BlockId
    requires AtLeader(s, v)
  {
    BlockId(s.tracker.epoch, LeaderAt(s, v), s.tracker.blockIndex)
  }

  /** The first snapshot says that the leader ended before the tracker's block. */
  predicate PastSeal(s: Store, v: View)
    requires AtLeader(s, v)
  {
    LeaderAt(s, v) in v.alignment && v.alignment[LeaderAt(s, v)].index < s.tracker.blockIndex
  }

  /** The second snapshot says that the leader ended with exactly this block. */
  predicate SealedHere(s: Store, v: View)
    requires AtLeader(s, v)
  {
    LeaderAt(s, v) in v.alignmentLater && v.alignmentLater[LeaderAt(s, v)].index == s.tracker.blockIndex
    && v.alignmentLater[LeaderAt(s, v)].hash == HashIn(v.hashes, BlockAt(s, v))
  }

  /** The block after this one has an AFP. */
  predicate Succeeded(s: Store, v: View)
    requires AtLeader(s, v)
  {
    var next := BlockId(s.tracker.epoch, LeaderAt(s, v), s.tracker.blockIndex + 1);
    next in v.afps && VerifyAfp(v.afps[next], v.handlers[s.tracker.epoch].epoch)
  }

  /** The block at the tracker is known and finalized, by its leader's seal or by its successor. */
  predicate Ready(s: Store, v: View) {
    AtLeader(s, v) && !PastSeal(s, v) && HashIn(v.hashes, BlockAt(s, v)) != "" && (SealedHere(s, v) || Succeeded(s, v))
  }

  /** The leader is over: its blocks are all behind the tracker, or it is sealed without any and none is known. */
  predicate Over(s: Store, v: View) {
    AtLeader(s, v)
    && (PastSeal(s, v)
        || (HashIn(v.hashes, BlockAt(s, v)) == "" && LeaderAt(s, v) in v.alignment
            && v.alignment[LeaderAt(s, v)].index < 0))
  }

  /** The block to map is the last one of a leader whose time is over. */
  predicate Closes(s: Store, v: View) {
    Ready(s, v) && SealedHere(s, v) && s.tracker.leaderIndex < v.handlers[s.tracker.epoch].currentLeader
  }

  /** A turn maps a height exactly when the tracker's block is ready: then it writes the next height for that block,
  with its height in the epoch, and no other mapping; otherwise it writes none. */
  lemma MapsIffReady(s: Store, v: View)
    ensures var after := SequenceBlock(s, v);
            && (Ready(s, v) ==>
                 && after.heights == s.heights[s.tracker.nextHeight := BlockAt(s, v)]
                 && after.inEpoch == s.inEpoch[s.tracker.nextHeight := s.tracker.heightInEpoch]
                 && after.tracker.nextHeight == s.tracker.nextHeight + 1
                 && after.tracker.heightInEpoch == s.tracker.heightInEpoch + 1
                 && after.tracker.epoch == s.tracker.epoch)
            && (!Ready(s, v) ==>
                 && after.heights == s.heights && after.inEpoch == s.inEpoch
                 && after.tracker.nextHeight == s.tracker.nextHeight)
  {
  }

  lemma ConfirmedIff(s: Store, v: View)
    requires AtLeader(s, v)
    ensures var handler := v.handlers[s.tracker.epoch];
            Confirmed(s, v, handler, LeaderAt(s, v), HashIn(v.hashes, BlockAt(s, v))) ==
            (SealedHere(s, v) || Succeeded(s, v), SealedHere(s, v) && s.tracker.leaderIndex < handler.currentLeader)
  {
  }

  lemma MapBlockMoves(s: Store, e: Voting.Epoch, id: BlockId, hash: Hash, isLastBlock: bool)
    ensures var t := MapBlock(s, e, id, hash, isLastBlock).tracker;
            && t.epoch == s.tracker.epoch
            && t.leaderIndex == s.tracker.leaderIndex + (if isLastBlock then 1 else 0)
            && t.blockIndex == (if isLastBlock then 0 else s.tracker.blockIndex + 1)
  {
  }

  /** The tracker goes on to the next leader exactly when the leader is over or the mapped block closes it, to the next
  block exactly when another block is mapped, and otherwise stays with both. */
  lemma LeaderMovesIff(s: Store, v: View)
    requires AtLeader(s, v)
    ensures var t := SequenceBlock(s, v).tracker;
            && t.epoch == s.tracker.epoch
            && t.leaderIndex == s.tracker.leaderIndex + (if Over(s, v) || Closes(s, v) then 1 else 0)
            && t.blockIndex ==
               (if Over(s, v) || Closes(s, v) then 0
                else s.tracker.blockIndex + if Ready(s, v) then 1 else 0)
  {
    ConfirmedIff(s, v);
    var handler := v.handlers[s.tracker.epoch];
    MapBlockMoves(s, handler.epoch, BlockAt(s, v), HashIn(v.hashes, BlockAt(s, v)),
      Confirmed(s, v, handler, LeaderAt(s, v), HashIn(v.hashes, BlockAt(s, v))).1);
  }

  /** All leaders of the epoch are behind the tracker. */
  predicate LeadersDone(s: Store, v: View) {
    s.tracker.epoch in v.handlers && s.tracker.leaderIndex >= |v.handlers[s.tracker.epoch].epoch.leaders|
  }

  /** The last height is mapped to a block of which the hash is known, or there is none. */
  predicate EndKnown(s: Store, v: View) {
    var last := s.tracker.nextHeight - 1;
    last < 0 || (last in s.heights && s.heights[last] != NO_ID && HashIn(v.localHashes, s.heights[last]) != "")
  }

  /** The epoch is left exactly when its leaders are done, its end is known, and so is the next epoch: then the tracker
  stands at the start of that one, at the same height. */
  lemma EpochMovesIff(s: Store, v: View)
    ensures var t := SequenceBlock(s, v).tracker;
            if LeadersDone(s, v) && EndKnown(s, v) && s.tracker.epoch + 1 in v.handlers then
              t == Tracker(s.tracker.epoch + 1, 0, 0, s.tracker.nextHeight, 0)
            else t.epoch == s.tracker.epoch
  {
  }

  /** The mapped block is the last one of the last leader. */
  predicate ClosesEpoch(s: Store, v: View) {
    Closes(s, v) && s.tracker.leaderIndex + 1 == |v.handlers[s.tracker.epoch].epoch.leaders|
  }

  /** Where the epoch ends, when the turn ends it: at the block just mapped, at the last mapped one, or at none. */
  function End(s: Store, v: View): Option<Boundary> {
    var epoch, last := s.tracker.epoch, s.tracker.nextHeight - 1;
    if ClosesEpoch(s, v) then
      Some(Boundary(epoch, s.tracker.nextHeight, BlockAt(s, v), HashIn(v.hashes, BlockAt(s, v))))
    else if LeadersDone(s, v) && EndKnown(s, v) then
      if last < 0 then Some(Boundary(epoch, -1, NO_ID, ZERO_HASH))
      else Some(Boundary(epoch, last, s.heights[last], HashIn(v.localHashes, s.heights[last])))
    else
      None
  }

  lemma LeaderRecordsEnd(s: Store, v: View)
    requires AtLeader(s, v) && v.handlers[s.tracker.epoch].epoch.id == s.tracker.epoch
    ensures SequenceBlock(s, v).boundaries ==
            if ClosesEpoch(s, v) then s.boundaries[s.tracker.epoch := End(s, v).value] else s.boundaries
  {
  }

  /** A turn records a boundary exactly when it ends the epoch, and records where it ends. */
  lemma RecordsEndIff(s: Store, v: View)
    requires s.tracker.epoch in v.handlers ==> v.handlers[s.tracker.epoch].epoch.id == s.tracker.epoch
    ensures SequenceBlock(s, v).boundaries ==
            if End(s, v).Some? then s.boundaries[s.tracker.epoch := End(s, v).value] else s.boundaries
  {
    if AtLeader(s, v) {
      LeaderRecordsEnd(s, v);
    }
  }

  // ---------------------------------------------------------------------------------------------
  // Fast-forward
  // ---------------------------------------------------------------------------------------------

  /** The height that the tracker has at the start of an epoch it follows proofs to. */
  function HeightAt(t: Tracker, v: View, e: int): int {
    if e > t.epoch && e - 1 in v.rotationProofs then v.rotationProofs[e - 1].finishedOnHeight + 1 else t.nextHeight
  }

  /** The proof of this epoch leads on: it names the next epoch and does not go back. */
  predicate LeadsOn(t: Tracker, v: View, e: int) {
    e in v.rotationProofs && v.rotationProofs[e].nextEpochId == e + 1
    && v.rotationProofs[e].finishedOnHeight + 1 >= HeightAt(t, v, e)
  }

  /** What a proof records. */
  function ProvenEnd(p: RotationProof): Boundary {
    Boundary(p.epochId, p.finishedOnHeight, p.finishedOnId,
      if p.finishedOnHash == "" then ZERO_HASH else p.finishedOnHash)
  }

  /** From tracker t the proofs lead to the start of `reached`, and no further or to the approved epoch. */
  ghost predicate LeadsTo(t: Tracker, v: View, reached: int) {
    && t.epoch <= reached <= v.approvementEpoch
    && (forall e | t.epoch <= e < reached :: LeadsOn(t, v, e))
    && (reached < v.approvementEpoch ==> !LeadsOn(t, v, reached))
  }

  /** The start of the epoch `reached`. */
  function StartOf(t: Tracker, v: View, reached: int): Tracker {
    if reached == t.epoch then t else Tracker(reached, 0, 0, HeightAt(t, v, reached), 0)
  }

  /** What the fast-forward from tracker t has written when it has reached an epoch: the boundaries of the epochs on the
  way, and the start of that epoch. */
  ghost predicate Wrote(before: Store, after: Store, t: Tracker, v: View, reached: int) {
    && after.heights == before.heights && after.inEpoch == before.inEpoch
    && after.stored == (if reached == t.epoch then before.stored else StartOf(t, v, reached))
    && (forall e | t.epoch <= e < reached ::
         e in v.rotationProofs && e in after.boundaries && after.boundaries[e] == ProvenEnd(v.rotationProofs[e]))
    && (forall e :: !(t.epoch <= e < reached) ==>
         (e in after.boundaries <==> e in before.boundaries)
         && (e in before.boundaries ==> after.boundaries[e] == before.boundaries[e]))
  }

  /** Every proof names the epoch after its own, as its verification demands. */
  ghost predicate ProofsNameNext(v: View) {
    forall e | e in v.rotationProofs :: v.rotationProofs[e].nextEpochId == v.rotationProofs[e].epochId + 1
  }

  lemma StartIsAhead(t: Tracker, v: View, reached: int)
    requires t.epoch <= reached
    ensures StartOf(t, v, reached).epoch == reached && StartOf(t, v, reached).nextHeight == HeightAt(t, v, reached)
  {
  }

  lemma WroteOneMore(before: Store, s: Store, t: Tracker, v: View, e: int)
    requires t.epoch <= e && ProofsNameNext(v) && LeadsOn(t, v, e) && Wrote(before, s, t, v, e)
    ensures Wrote(before, AfterProof(s, v.rotationProofs[e]), t, v, e + 1)
    ensures FurtherTracker(v.rotationProofs[e]) == StartOf(t, v, e + 1)
  {
  }

  lemma {:induction false} FollowsFrom(before: Store, s: Store, t: Tracker, v: View, e: int) returns (reached: int)
    requires ProofsNameNext(v) && t.epoch <= e <= v.approvementEpoch && Wrote(before, s, t, v, e)
    requires forall d | t.epoch <= d < e :: LeadsOn(t, v, d)
    ensures LeadsTo(t, v, reached)
    ensures var (after, done) := FollowProofs(s, StartOf(t, v, e), v);
            && Wrote(before, after, t, v, reached) && (done <==> reached == v.approvementEpoch)
            && after.tracker == if done then StartOf(t, v, reached) else s.tracker
    decreases v.approvementEpoch - e
  {
    var next := StartOf(t, v, e);
    StartIsAhead(t, v, e);
    FollowUnfolds(s, next, v);
    if e < v.approvementEpoch && LeadsOn(t, v, e) {
      WroteOneMore(before, s, t, v, e);
      reached := FollowsFrom(before, AfterProof(s, v.rotationProofs[e]), t, v, e + 1);
    } else {
      reached := e;
    }
  }

  /** A fast-forward follows the proofs as far as they lead on: it records a boundary for each epoch on the way and
  stores the start of the one it reaches. The sequencer's own tracker moves there only if that is the approved epoch. */
  lemma FastForwardReaches(s: Store, v: View) returns (reached: int)
    requires ProofsNameNext(v) && 0 < v.approvementEpoch && s.tracker.epoch < v.approvementEpoch
    ensures LeadsTo(s.tracker, v, reached)
    ensures var (after, done) := SyncToEpochStart(s, v);
            && Wrote(s, after, s.tracker, v, reached) && (done <==> reached == v.approvementEpoch)
            && after.tracker == if done then StartOf(s.tracker, v, reached) else s.tracker
  {
    reached := FollowsFrom(s, s, s.tracker, v, s.tracker.epoch);
  }

  /** What the proofs lead to is determined by them. */
  lemma ReachedIsUnique(t: Tracker, v: View, a: int, b: int)
    requires LeadsTo(t, v, a) && LeadsTo(t, v, b)
    ensures a == b
  {
  }
}
