/** The one sequence of absolute heights that the sealed leaders of every epoch determine. */
module Sequencing {
  import opened Wrappers
  import opened Signatures
  import opened Voting
  import opened VotingSafety

  /** What the alignment data records of a leader: its last block's index (-1 for none) and hash. */
  datatype Sealed = Sealed(index: int, hash: Hash)

  /** The epochs of one network, the voting run of each, and the ALFP each alignment entry was taken from. */
  datatype World = World(epoch: nat -> Epoch, run: nat -> seq<Network>, alfps: nat -> map<Key, Alfp>)

  ghost predicate ShownInRun(w: World, e: nat, proof: Alfp) {
    exists t | 0 <= t < |w.run(e)| :: AlfpShown(w.epoch(e), w.run(e)[t], proof)
  }

  ghost predicate AfpShownInRun(w: World, e: nat, afp: Afp) {
    exists t | 0 <= t < |w.run(e)| :: AfpShown(w.epoch(e), w.run(e)[t], afp)
  }

  ghost predicate EpochOk(w: World, e: nat) {
    && w.epoch(e).id == e
    && DistinctLeaders(w.epoch(e))
    && IsRun(w.epoch(e), w.run(e)) && MostlyHonest(w.epoch(e).quorum, w.run(e)[0].Honest())
    && forall l | l in w.alfps(e) :: w.alfps(e)[l].leader == l && ShownInRun(w, e, w.alfps(e)[l])
  }

  ghost predicate WorldOk(w: World) {
    forall e: nat :: EpochOk(w, e)
  }

  function Leaders(w: World, e: nat): seq<Key> {
    w.epoch(e).leaders
  }

  predicate Closed(w: World, e: nat, leader: Key) {
    leader in w.alfps(e)
  }

  function Last(w: World, e: nat, leader: Key): Sealed
    requires Closed(w, e, leader)
  {
    Sealed(w.alfps(e)[leader].stat.index, w.alfps(e)[leader].stat.hash)
  }

  /** How many blocks the leader at position i contributes once it is closed. */
  function Blocks(w: World, e: nat, i: nat): nat
    requires i < |Leaders(w, e)|
  {
    if Closed(w, e, Leaders(w, e)[i]) && Last(w, e, Leaders(w, e)[i]).index >= 0 then
      Last(w, e, Leaders(w, e)[i]).index + 1
    else 0
  }

  function Before(w: World, e: nat, i: nat): nat
    requires i <= |Leaders(w, e)|
  {
    if i == 0 then 0 else Before(w, e, i - 1) + Blocks(w, e, i - 1)
  }

  function EpochSize(w: World, e: nat): nat {
    Before(w, e, |Leaders(w, e)|)
  }

  /** The height of the first block of the epoch, if it has one. */
  function Start(w: World, e: nat): nat {
    if e == 0 then 0 else Start(w, e - 1) + EpochSize(w, e - 1)
  }

  predicate ClosedUpTo(w: World, e: nat, i: nat)
    requires i <= |Leaders(w, e)|
  {
    forall j | 0 <= j < i :: Closed(w, e, Leaders(w, e)[j])
  }

  predicate EpochClosed(w: World, e: nat) {
    ClosedUpTo(w, e, |Leaders(w, e)|)
  }

  /** Everything before the leader at position i of epoch e is closed. */
  predicate Reached(w: World, e: nat, i: nat) {
    && i <= |Leaders(w, e)|
    && (forall d: nat | d < e :: EpochClosed(w, d))
    && ClosedUpTo(w, e, i)
  }

  /** Block k of the leader at position i of epoch e belongs to the sequence, at height h. */
  predicate Sits(w: World, e: nat, i: nat, k: nat, h: int) {
    && Reached(w, e, i) && i < |Leaders(w, e)|
    && (Closed(w, e, Leaders(w, e)[i]) ==> k < Blocks(w, e, i))
    && h == Start(w, e) + Before(w, e, i) + k
  }

  ghost predicate Canonical(w: World, h: int, id: BlockId) {
    && id.BlockId? && id.epoch >= 0 && id.index >= 0
    && exists i: nat | i < |Leaders(w, id.epoch)| && Leaders(w, id.epoch)[i] == id.creator ::
       Sits(w, id.epoch, i, id.index, h)
  }

  // ---------------------------------------------------------------------------------------------
  // At most one block id per height
  // ---------------------------------------------------------------------------------------------

  lemma {:induction false} BeforeMonotone(w: World, e: nat, i: nat, j: nat)
    requires i <= j <= |Leaders(w, e)|
    ensures Before(w, e, i) <= Before(w, e, j)
  {
    if i < j {
      BeforeMonotone(w, e, i, j - 1);
    }
  }

  lemma {:induction false} StartMonotone(w: World, d: nat, e: nat)
    requires d <= e
    ensures Start(w, d) <= Start(w, e)
  {
    if d < e {
      StartMonotone(w, d, e - 1);
    }
  }

  /** Positions are numbered in order: an earlier leader's block sits strictly below a later leader's. */
  lemma EarlierSitsLower(w: World, e: nat, i: nat, k: nat, h: int, e': nat, i': nat, k': nat, h': int)
    requires Sits(w, e, i, k, h) && Sits(w, e', i', k', h')
    requires e < e' || (e == e' && i < i')
    ensures h < h'
  {
    if e < e' {
      assert EpochClosed(w, e);
      BeforeMonotone(w, e, i + 1, |Leaders(w, e)|);
      StartMonotone(w, e + 1, e');
    } else {
      BeforeMonotone(w, e, i + 1, i');
    }
  }

  lemma CanonicalUnique(w: World, h: int, a: BlockId, b: BlockId)
    requires Canonical(w, h, a) && Canonical(w, h, b)
    ensures a == b
  {
    var i: nat :| i < |Leaders(w, a.epoch)| && Leaders(w, a.epoch)[i] == a.creator && Sits(w, a.epoch, i, a.index, h);
    var j: nat :| j < |Leaders(w, b.epoch)| && Leaders(w, b.epoch)[j] == b.creator && Sits(w, b.epoch, j, b.index, h);
    if a.epoch < b.epoch || (a.epoch == b.epoch && i < j) {
      EarlierSitsLower(w, a.epoch, i, a.index, h, b.epoch, j, b.index, h);
    } else if b.epoch < a.epoch || (a.epoch == b.epoch && j < i) {
      EarlierSitsLower(w, b.epoch, j, b.index, h, a.epoch, i, a.index, h);
    }
  }

  // ---------------------------------------------------------------------------------------------
  // The sequence written out
  // ---------------------------------------------------------------------------------------------

  function LeaderBlocks(w: World, e: nat, i: nat): (ids: seq<BlockId>)
    requires i < |Leaders(w, e)|
  {
    seq(Blocks(w, e, i), k requires k >= 0 => BlockId(e, Leaders(w, e)[i], k))
  }

  /** Blocks 0..last of the leaders at positions 0..i-1, in leader order. */
  function BlocksBefore(w: World, e: nat, i: nat): (ids: seq<BlockId>)
    requires i <= |Leaders(w, e)|
    ensures |ids| == Before(w, e, i)
  {
    if i == 0 then [] else BlocksBefore(w, e, i - 1) + LeaderBlocks(w, e, i - 1)
  }

  function EpochBlocks(w: World, e: nat): seq<BlockId> {
    BlocksBefore(w, e, |Leaders(w, e)|)
  }

  lemma {:induction false} ListedBlockSits(w: World, e: nat, i: nat, j: nat)
    requires Reached(w, e, i) && j < Before(w, e, i)
    ensures Canonical(w, Start(w, e) + j, BlocksBefore(w, e, i)[j])
    ensures BlocksBefore(w, e, i)[j].epoch == e
  {
    if j < Before(w, e, i - 1) {
      ListedBlockSits(w, e, i - 1, j);
    } else {
      var k := j - Before(w, e, i - 1);
      assert BlocksBefore(w, e, i)[j] == BlockId(e, Leaders(w, e)[i - 1], k);
      assert Sits(w, e, i - 1, k, Start(w, e) + j);
    }
  }

  /** Inside a closed epoch the canonical block of each height is the one in the written-out list. */
  lemma CanonicalIsListed(w: World, e: nat, j: nat, id: BlockId)
    requires Reached(w, e, |Leaders(w, e)|) && j < EpochSize(w, e)
    requires Canonical(w, Start(w, e) + j, id)
    ensures id == EpochBlocks(w, e)[j]
  {
    ListedBlockSits(w, e, |Leaders(w, e)|, j);
    CanonicalUnique(w, Start(w, e) + j, id, EpochBlocks(w, e)[j]);
  }

  // ---------------------------------------------------------------------------------------------
  // What voting guarantees about sealed leaders
  // ---------------------------------------------------------------------------------------------

  /** An AFP of a block past the first unsealed one cannot exist, so a block confirmed by it is within the seal. */
  lemma SuccessorAfpStaysWithinSeal(w: World, e: nat, leader: Key, k: int, afp: Afp)
    requires EpochOk(w, e) && Closed(w, e, leader)
    requires AfpShownInRun(w, e, afp) && afp.blockId == BlockId(e, leader, k + 1)
    ensures k <= Last(w, e, leader).index
  {
    var i :| 0 <= i < |w.run(e)| && AlfpShown(w.epoch(e), w.run(e)[i], w.alfps(e)[leader]);
    var j :| 0 <= j < |w.run(e)| && AfpShown(w.epoch(e), w.run(e)[j], afp);
    TailSafety(w.epoch(e), w.run(e), i, j, w.alfps(e)[leader], afp);
  }

  predicate SealsOk(w: World, e: nat) {
    forall l | l in w.alfps(e) :: w.alfps(e)[l].stat.index >= -1
  }

  lemma SealsAreAtLeastMinusOne(w: World, e: nat)
    requires EpochOk(w, e)
    ensures SealsOk(w, e)
  {
    forall l | l in w.alfps(e)
      ensures w.alfps(e)[l].stat.index >= -1
    {
      var i :| 0 <= i < |w.run(e)| && AlfpShown(w.epoch(e), w.run(e)[i], w.alfps(e)[l]);
      AlfpIndexBound(w.epoch(e), w.run(e), i, w.alfps(e)[l]);
    }
  }
}
