/** Which last indices of a leader can still be signed: exactly when the members' records let a majority sign one. */
module AlfpIndices {
  import opened Wrappers
  import opened Sets
  import opened Signatures
  import opened Voting
  import opened VotingSafety

  /** The quorum members that may stand behind a last index: the faulty ones and those whose stat is not past it. */
  function MaySign(e: Epoch, net: Network, leader: Key, index: int): set<Key> {
    set k | k in Members(e.quorum) && (k in net.members ==> StatOf(net.members[k], leader).index <= index)
  }

  /** Voting for the leader is over at every honest quorum member, as its route's gates see it. */
  predicate AllAllowEnd(e: Epoch, net: Network, leaderIndex: nat) {
    && leaderIndex < |e.leaders|
    && forall k | k in net.members && k in e.quorum :: EndAllowed(e, net.members[k], leaderIndex)
  }

  /** A stat that a request may carry: no last block, or a last block with its own AFP. */
  predicate Requestable(e: Epoch, net: Network, leader: Key, stat: VotingStat) {
    && Unforged(stat.afp.proofs, net.Honest(), net.issued)
    && (stat.index == -1 || (stat.index >= 0 && CarriesOwnAfp(stat, e, leader)))
  }

  function LastOf(run: seq<Network>): Network
    requires run != []
  {
    run[|run| - 1]
  }

  /** An ALFP of the leader that states this stat can be shown in some continuation of the run. */
  ghost predicate CanBeSealedAt(e: Epoch, run: seq<Network>, leader: Key, stat: VotingStat) {
    exists longer, proof: Alfp ::
      && run <= longer && IsRun(e, longer) && proof.leader == leader && proof.stat == stat
      && AlfpShown(e, LastOf(longer), proof)
  }

  // ---------------------------------------------------------------------------------------------
  // Only those members can have signed
  // ---------------------------------------------------------------------------------------------

  /** The member has closed voting for the leader and holds this stat. */
  predicate Holds(e: Epoch, net: Network, k: Key, leader: Key, stat: VotingStat) {
    k in net.members && Locked(e, net.members[k], leader) && StatOf(net.members[k], leader) == stat
  }

  lemma StepKeepsHeld(e: Epoch, before: Network, after: Network, k: Key, leader: Key, stat: VotingStat)
    requires DistinctLeaders(e) && IsStep(e, before, after) && Holds(e, before, k, leader, stat)
    ensures Holds(e, after, k, leader, stat)
  {
    var q, a :| q in before.members && Possible(before, a) && after == Apply(e, before, q, a);
    if q == k {
      LockFreezesStat(e, before.members[k], a, leader);
    }
  }

  lemma {:induction false} RunKeepsHeld(
      e: Epoch, run: seq<Network>, i: nat, j: nat, k: Key, leader: Key, stat: VotingStat)
    requires DistinctLeaders(e) && IsRun(e, run) && i <= j < |run| && Holds(e, run[i], k, leader, stat)
    ensures Holds(e, run[j], k, leader, stat)
  {
    if i < j {
      RunKeepsHeld(e, run, i, j - 1, k, leader, stat);
      StepKeepsHeld(e, run[j - 1], run[j], k, leader, stat);
    }
  }

  lemma SignerMaySign(e: Epoch, run: seq<Network>, i: nat, j: nat, leaderIndex: nat, k: Key, p: Payload)
    requires DistinctLeaders(e) && IsRun(e, run) && MostlyHonest(e.quorum, run[0].Honest())
    requires i <= j < |run| && AllAllowEnd(e, run[i], leaderIndex)
    requires k in e.quorum && k in run[j].members && (k, p) in run[j].issued && p.LeaderEnd?
             && p.leader == e.leaders[leaderIndex]
    ensures k in MaySign(e, run[i], p.leader, p.lastIndex)
  {
    RunKeepsInvariant(e, run, i, j);
    assert k in run[i].Honest() && EndRecorded(e, run[j].members[k], p);
    EndAllowedMeansLocked(e, run[i].members[k], leaderIndex);
    RunKeepsHeld(e, run, i, j, k, p.leader, StatOf(run[i].members[k], p.leader));
  }

  lemma ShownNeedsMajority(e: Epoch, run: seq<Network>, i: nat, j: nat, leaderIndex: nat, proof: Alfp)
    requires DistinctLeaders(e) && IsRun(e, run) && MostlyHonest(e.quorum, run[0].Honest())
    requires i <= j < |run| && AllAllowEnd(e, run[i], leaderIndex)
    requires AlfpShown(e, run[j], proof) && proof.leader == e.leaders[leaderIndex]
    ensures IsMajority(e.quorum, MaySign(e, run[i], proof.leader, proof.stat.index))
  {
    var p := LeaderEnd(proof.leader, proof.stat.index, proof.stat.hash, e.Ref());
    var net := run[j];
    RunKeepsInvariant(e, run, i, j);
    VerifiedImpliesBacked(proof.signatures, e.quorum, net.Honest(), net.issued, p);
    var supporters := Supporters(e.quorum, net.Honest(), net.issued, p);
    forall k | k in supporters
      ensures k in MaySign(e, run[i], proof.leader, proof.stat.index)
    {
      if k in net.members {
        SignerMaySign(e, run, i, j, leaderIndex, k, p);
      } else {
        assert k !in run[i].Honest();
      }
    }
    SubsetCount(supporters, MaySign(e, run[i], proof.leader, proof.stat.index));
  }

  lemma SealedNeedsMajority(e: Epoch, run: seq<Network>, leaderIndex: nat, stat: VotingStat)
    requires DistinctLeaders(e) && IsRun(e, run) && MostlyHonest(e.quorum, run[0].Honest())
    requires AllAllowEnd(e, LastOf(run), leaderIndex) && CanBeSealedAt(e, run, e.leaders[leaderIndex], stat)
    ensures IsMajority(e.quorum, MaySign(e, LastOf(run), e.leaders[leaderIndex], stat.index))
  {
    var longer, proof: Alfp :| run <= longer && IsRun(e, longer) && proof.leader == e.leaders[leaderIndex]
      && proof.stat == stat && AlfpShown(e, LastOf(longer), proof);
    ShownNeedsMajority(e, longer, |run| - 1, |longer| - 1, leaderIndex, proof);
  }

  // ---------------------------------------------------------------------------------------------
  // All of them can sign
  // ---------------------------------------------------------------------------------------------

  /** The same records, and more signatures. */
  predicate Grown(net: Network, later: Network) {
    later.members == net.members && net.issued <= later.issued
  }

  lemma RunExtends(e: Epoch, run: seq<Network>, next: Network)
    requires IsRun(e, run) && IsStep(e, LastOf(run), next)
    ensures IsRun(e, run + [next]) && LastOf(run + [next]) == next && run <= run + [next]
  {
    forall i | 0 < i < |run| + 1
      ensures IsStep(e, (run + [next])[i - 1], (run + [next])[i])
    {
    }
  }

  /** Every one of these members handles the same request. */
  lemma {:induction false} EveryoneSigns(e: Epoch, run: seq<Network>, signers: set<Key>, r: EndRequest, p: Payload)
    returns (longer: seq<Network>)
    requires IsRun(e, run) && signers <= LastOf(run).Honest() && Possible(LastOf(run), HandleEnd(r))
    requires forall k | k in signers :: SignLeaderEnd(e, LastOf(run).members[k], r) == Ok(p)
    ensures run <= longer && IsRun(e, longer) && LastOf(longer).members == LastOf(run).members
    ensures LastOf(longer).issued == LastOf(run).issued + set k | k in signers :: (k, p)
    decreases |signers|
  {
    if signers == {} {
      longer := run;
    } else {
      var k :| k in signers;
      var net := LastOf(run);
      var next := Apply(e, net, k, HandleEnd(r));
      assert next.members == net.members && next.issued == net.issued + {(k, p)};
      RunExtends(e, run, next);
      longer := EveryoneSigns(e, run + [next], signers - {k}, r, p);
    }
  }

  lemma MajorityCanShow(e: Epoch, run: seq<Network>, leaderIndex: nat, stat: VotingStat)
    returns (longer: seq<Network>, proof: Alfp)
    requires IsRun(e, run) && AllAllowEnd(e, LastOf(run), leaderIndex)
    requires Requestable(e, LastOf(run), e.leaders[leaderIndex], stat)
    requires IsMajority(e.quorum, MaySign(e, LastOf(run), e.leaders[leaderIndex], stat.index))
    ensures run <= longer && IsRun(e, longer) && Grown(LastOf(run), LastOf(longer))
    ensures proof.leader == e.leaders[leaderIndex] && proof.stat == stat && AlfpShown(e, LastOf(longer), proof)
  {
    var leader, net := e.leaders[leaderIndex], LastOf(run);
    var p := LeaderEnd(leader, stat.index, stat.hash, e.Ref());
    var may := MaySign(e, net, leader, stat.index);
    longer := EveryoneSigns(e, run, may * net.Honest(), EndRequest(leaderIndex, stat), p);
    var last := LastOf(longer);
    assert may <= Supporters(e.quorum, last.Honest(), last.issued, p);
    SubsetCount(may, Supporters(e.quorum, last.Honest(), last.issued, p));
    AggregateExistsIffBacked(e.quorum, last.Honest(), last.issued, p);
    var signatures: Signatures :| Unforged(signatures, last.Honest(), last.issued)
      && VerifyAggregate(signatures, e.quorum, p);
    proof := Alfp(e.id, leader, stat, signatures);
  }

  /** Once voting for a leader is over, an ALFP with a given last index can still be gathered exactly when a majority is
  faulty or holds a stat that is not past it. */
  lemma CanBeSealedIff(e: Epoch, run: seq<Network>, leaderIndex: nat, stat: VotingStat)
    requires DistinctLeaders(e) && IsRun(e, run) && MostlyHonest(e.quorum, run[0].Honest())
    requires AllAllowEnd(e, LastOf(run), leaderIndex) && Requestable(e, LastOf(run), e.leaders[leaderIndex], stat)
    ensures CanBeSealedAt(e, run, e.leaders[leaderIndex], stat) <==>
            IsMajority(e.quorum, MaySign(e, LastOf(run), e.leaders[leaderIndex], stat.index))
  {
    if CanBeSealedAt(e, run, e.leaders[leaderIndex], stat) {
      SealedNeedsMajority(e, run, leaderIndex, stat);
    }
    if IsMajority(e.quorum, MaySign(e, LastOf(run), e.leaders[leaderIndex], stat.index)) {
      var _, _ := MajorityCanShow(e, run, leaderIndex, stat);
    }
  }

  // ---------------------------------------------------------------------------------------------
  // Two different indices
  // ---------------------------------------------------------------------------------------------

  ghost predicate BothShown(e: Epoch, net: Network, leader: Key, p: VotingStat, q: VotingStat) {
    exists a: Alfp, b: Alfp ::
      && a.leader == b.leader == leader && a.stat == p && b.stat == q && AlfpShown(e, net, a) && AlfpShown(e, net, b)
  }

  /** Some continuation of the run shows an ALFP of the leader for each of the two stats. */
  ghost predicate CanDiffer(e: Epoch, run: seq<Network>, leader: Key, p: VotingStat, q: VotingStat) {
    exists longer :: run <= longer && IsRun(e, longer) && BothShown(e, LastOf(longer), leader, p, q)
  }

  lemma MoreMaySign(e: Epoch, net: Network, leader: Key, lower: int, higher: int)
    requires lower <= higher && IsMajority(e.quorum, MaySign(e, net, leader, lower))
    ensures IsMajority(e.quorum, MaySign(e, net, leader, higher))
  {
    SubsetCount(MaySign(e, net, leader, lower), MaySign(e, net, leader, higher));
  }

  lemma BothCanBeShown(e: Epoch, run: seq<Network>, leaderIndex: nat, p: VotingStat, q: VotingStat)
    requires IsRun(e, run) && AllAllowEnd(e, LastOf(run), leaderIndex) && p.index <= q.index
    requires Requestable(e, LastOf(run), e.leaders[leaderIndex], p)
    requires Requestable(e, LastOf(run), e.leaders[leaderIndex], q)
    requires IsMajority(e.quorum, MaySign(e, LastOf(run), e.leaders[leaderIndex], p.index))
    ensures CanDiffer(e, run, e.leaders[leaderIndex], p, q)
  {
    var longer, a := MajorityCanShow(e, run, leaderIndex, p);
    MoreMaySign(e, LastOf(longer), e.leaders[leaderIndex], p.index, q.index);
    var longest, b := MajorityCanShow(e, longer, leaderIndex, q);
    assert AlfpShown(e, LastOf(longest), a);
    assert BothShown(e, LastOf(longest), e.leaders[leaderIndex], p, q);
  }

  lemma DifferNeedsSealed(e: Epoch, run: seq<Network>, leader: Key, p: VotingStat, q: VotingStat)
    requires CanDiffer(e, run, leader, p, q)
    ensures CanBeSealedAt(e, run, leader, p)
  {
  }

  /** Once voting for a leader is over, two ALFPs of it with different last indices can be gathered in one continuation
  exactly when a majority is faulty or holds a stat that is not past the lower one. */
  lemma CanDifferIff(e: Epoch, run: seq<Network>, leaderIndex: nat, p: VotingStat, q: VotingStat)
    requires DistinctLeaders(e) && IsRun(e, run) && MostlyHonest(e.quorum, run[0].Honest())
    requires AllAllowEnd(e, LastOf(run), leaderIndex) && p.index < q.index
    requires Requestable(e, LastOf(run), e.leaders[leaderIndex], p)
    requires Requestable(e, LastOf(run), e.leaders[leaderIndex], q)
    ensures CanDiffer(e, run, e.leaders[leaderIndex], p, q) <==>
            IsMajority(e.quorum, MaySign(e, LastOf(run), e.leaders[leaderIndex], p.index))
  {
    if CanDiffer(e, run, e.leaders[leaderIndex], p, q) {
      DifferNeedsSealed(e, run, e.leaders[leaderIndex], p, q);
      SealedNeedsMajority(e, run, leaderIndex, p);
    }
    if IsMajority(e.quorum, MaySign(e, LastOf(run), e.leaders[leaderIndex], p.index)) {
      BothCanBeShown(e, run, leaderIndex, p, q);
    }
  }
}
