/** What a member answers to a leader-end request, and what a collector makes of honest answers: it ends with the
highest stat among the members it asked and with the signature of every one of them. */
module LeaderEndReplies {
  import opened Wrappers
  import opened Sets
  import opened Signatures
  import opened Voting
  import opened VotingSafety
  import opened AlfpIndices
  import opened LeaderFinalization

  // ---------------------------------------------------------------------------------------------
  // One answer
  // ---------------------------------------------------------------------------------------------

  /** The gates open exactly when voting for the leader is locked at the member. */
  lemma GatesOpenIffLocked(e: Epoch, m: Member, leaderIndex: nat)
    requires DistinctLeaders(e) && leaderIndex < |e.leaders|
    ensures EndAllowed(e, m, leaderIndex) <==> Locked(e, m, e.leaders[leaderIndex])
  {
  }

  /** Moving on to the next leader, and for the last leader the finish signal, opens them; leaving the epoch
  opens all. */
  lemma StepsOpenGates(e: Epoch, m: Member, leaderIndex: nat)
    requires leaderIndex < |e.leaders|
    ensures m.active && m.currentLeader == leaderIndex < |e.leaders| - 1 ==>
              EndAllowed(e, MemberAfter(e, m, RotateLeader), leaderIndex)
    ensures m.active && m.currentLeader == leaderIndex == |e.leaders| - 1 ==>
              EndAllowed(e, MemberAfter(e, m, RaiseFinish), leaderIndex)
    ensures m.finished ==> EndAllowed(e, MemberAfter(e, m, EnterNextEpoch), leaderIndex)
  {
  }

  /** The request's stat may be signed: it claims no block, or it has the AFP of the block it claims. */
  predicate Provable(e: Epoch, stat: VotingStat) {
    stat.index >= 0 ==>
      && stat.afp.blockId.BlockId? && stat.afp.blockId.index == stat.index
      && stat.afp.blockHash == stat.hash && VerifyAfp(stat.afp, e)
  }

  /** With open gates a member that knows a higher block answers with its own stat, and otherwise signs the very stat of
  the request, if that can be proved. It answers nothing else, and with closed gates it is not ready. */
  lemma AnswersExactly(e: Epoch, m: Member, r: EndRequest)
    requires 0 <= r.leaderIndex < |e.leaders|
    ensures var leader := e.leaders[r.leaderIndex]; var own := StatOf(m, leader); var reply := SignLeaderEnd(e, m, r);
            && (reply == NotReady <==> !EndAllowed(e, m, r.leaderIndex))
            && (reply.Upgrade? <==> EndAllowed(e, m, r.leaderIndex) && own.index > r.skipData.index)
            && (reply.Upgrade? ==> reply.stat == own)
            && (reply.Ok? <==>
                EndAllowed(e, m, r.leaderIndex) && own.index <= r.skipData.index && Provable(e, r.skipData))
            && (reply.Ok? ==> reply.payload == EndPayload(e, leader, r.skipData))
  {
  }

  /** Over any run, what an upgrade carries is a stat that a collector accepts, is higher than what was asked, and would
  itself be signed by the replying member, then and at every later point of the run. */
  lemma UpgradeServes(e: Epoch, run: seq<Network>, i: nat, j: nat, k: Key, r: EndRequest)
    requires DistinctLeaders(e) && IsRun(e, run) && MostlyHonest(e.quorum, run[0].Honest())
    requires i <= j < |run| && k in run[i].members && SignLeaderEnd(e, run[i].members[k], r).Upgrade?
    ensures k in run[j].members && 0 <= r.leaderIndex < |e.leaders|
    ensures var leader, stat := e.leaders[r.leaderIndex], SignLeaderEnd(e, run[i].members[k], r).stat;
            && stat == StatOf(run[i].members[k], leader) && stat.index > r.skipData.index && UpgradeOk(stat, e, leader)
            && SignLeaderEnd(e, run[j].members[k], EndRequest(r.leaderIndex, stat)) == Ok(EndPayload(e, leader, stat))
  {
    var leader := e.leaders[r.leaderIndex];
    var stat := StatOf(run[i].members[k], leader);
    AnswersExactly(e, run[i].members[k], r);
    RunKeepsInvariant(e, run, i, i);
    StoredStatStartsOk(e, run[i], k, leader);
    GatesOpenIffLocked(e, run[i].members[k], r.leaderIndex);
    RunKeepsHeld(e, run, i, j, k, leader, stat);
    GatesOpenIffLocked(e, run[j].members[k], r.leaderIndex);
    AnswersExactly(e, run[j].members[k], EndRequest(r.leaderIndex, stat));
  }

  // ---------------------------------------------------------------------------------------------
  // One reply at the collector
  // ---------------------------------------------------------------------------------------------

  /** A valid signature is stored and replaces no other; a valid upgrade is adopted and the signatures over the old
  proposal are dropped; every other reply changes nothing. */
  lemma ReplyOutcome(e: Epoch, leader: Key, cache: Cache, reply: Reply)
    ensures var after := AfterReply(e, leader, cache, reply);
            match reply
            case OkReply(forLeader, voter, signature) =>
              && after.skipData == cache.skipData
              && (forLeader == leader && voter in e.quorum
                  && signature == SignedBy(voter, EndPayload(e, leader, cache.skipData)) ==>
                    voter in after.proofs && after.proofs[voter] == signature)
              && (forall other | other in cache.proofs && other != voter ::
                    other in after.proofs && after.proofs[other] == cache.proofs[other])
              && (forall other | other in after.proofs :: other in cache.proofs || other == voter)
              && ((forLeader != leader || voter !in e.quorum
                   || signature != SignedBy(voter, EndPayload(e, leader, cache.skipData))) ==> after == cache)
            case UpgradeReply(forLeader, stat) =>
              if forLeader == leader && UpgradeOk(stat, e, leader) then
                after.skipData == stat && after.proofs == map[]
              else after == cache
  {
  }

  // ---------------------------------------------------------------------------------------------
  // Honest members asked in turn
  // ---------------------------------------------------------------------------------------------

  function Sent(leader: Key, k: Key, reply: EndReply): Option<Reply> {
    match reply
    case Upgrade(stat) => Some(UpgradeReply(leader, stat))
    case Ok(p) => Some(OkReply(leader, k, SignedBy(k, p)))
    case _ => None
  }

  /** The collector asks a member for its current proposal and handles the answer. */
  function Ask(e: Epoch, net: Network, leaderIndex: nat, cache: Cache, k: Key): Cache
    requires leaderIndex < |e.leaders| && k in net.members
  {
    var leader := e.leaders[leaderIndex];
    var reply := Sent(leader, k, SignLeaderEnd(e, net.members[k], EndRequest(leaderIndex, cache.skipData)));
    if reply.Some? then AfterReply(e, leader, cache, reply.value) else cache
  }

  function AskAll(e: Epoch, net: Network, leaderIndex: nat, cache: Cache, members: seq<Key>): Cache
    requires leaderIndex < |e.leaders| && forall k | k in members :: k in net.members
  {
    if members == [] then cache
    else
      var last := members[|members| - 1];
      Ask(e, net, leaderIndex, AskAll(e, net, leaderIndex, cache, members[..|members| - 1]), last)
  }

  /** The members are honest quorum members at which voting for the leader is over. */
  predicate Ready(e: Epoch, net: Network, leaderIndex: nat, members: seq<Key>) {
    && leaderIndex < |e.leaders|
    && forall k | k in members :: k in net.members && k in e.quorum && EndAllowed(e, net.members[k], leaderIndex)
  }

  /** A collector that hears from a member ends with the higher of the two stats, and has the member's signature over it
  unless it has just adopted the member's own stat. */
  lemma AskOnce(e: Epoch, net: Network, leaderIndex: nat, cache: Cache, k: Key)
    requires Invariant(e, net) && Ready(e, net, leaderIndex, [k]) && CacheOk(e, e.leaders[leaderIndex], cache)
    ensures var after := Ask(e, net, leaderIndex, cache, k);
            var own := StatOf(net.members[k], e.leaders[leaderIndex]);
            && CacheOk(e, e.leaders[leaderIndex], after)
            && after.skipData == (if own.index > cache.skipData.index then own else cache.skipData)
            && (own.index > cache.skipData.index ==> after.proofs == map[])
            && (own.index <= cache.skipData.index ==>
                  && k in after.proofs && forall other | other in cache.proofs :: other in after.proofs)
  {
    var leader := e.leaders[leaderIndex];
    assert k in [k];
    AnswersExactly(e, net.members[k], EndRequest(leaderIndex, cache.skipData));
    StoredStatStartsOk(e, net, k, leader);
  }

  /** Over a reachable network, a collector that handles a member's upgrade holds that member's stat. */
  lemma UpgradeIsAdopted(e: Epoch, run: seq<Network>, i: nat, k: Key, leaderIndex: nat, cache: Cache)
    requires DistinctLeaders(e) && IsRun(e, run) && MostlyHonest(e.quorum, run[0].Honest()) && i < |run|
    requires Ready(e, run[i], leaderIndex, [k]) && CacheOk(e, e.leaders[leaderIndex], cache)
    requires k in run[i].members
             && SignLeaderEnd(e, run[i].members[k], EndRequest(leaderIndex, cache.skipData)).Upgrade?
    ensures Ask(e, run[i], leaderIndex, cache, k) == Cache(StatOf(run[i].members[k], e.leaders[leaderIndex]), map[])
  {
    RunKeepsInvariant(e, run, i, i);
    AnswersExactly(e, run[i].members[k], EndRequest(leaderIndex, cache.skipData));
    AskOnce(e, run[i], leaderIndex, cache, k);
  }

  /** No member that was asked knows more than the proposal. */
  predicate Tops(e: Epoch, net: Network, leader: Key, members: seq<Key>, index: int) {
    forall k | k in members :: k in net.members && StatOf(net.members[k], leader).index <= index
  }

  lemma {:induction false} FirstPassTops(e: Epoch, net: Network, leaderIndex: nat, cache: Cache, members: seq<Key>)
    requires Invariant(e, net) && Ready(e, net, leaderIndex, members) && CacheOk(e, e.leaders[leaderIndex], cache)
    ensures var after := AskAll(e, net, leaderIndex, cache, members);
            && CacheOk(e, e.leaders[leaderIndex], after) && after.skipData.index >= cache.skipData.index
            && Tops(e, net, e.leaders[leaderIndex], members, after.skipData.index)
            && (after.skipData == cache.skipData
                || exists k :: k in members && after.skipData == StatOf(net.members[k], e.leaders[leaderIndex]))
  {
    if members != [] {
      var front, last := members[..|members| - 1], members[|members| - 1];
      assert members == front + [last];
      FirstPassTops(e, net, leaderIndex, cache, front);
      AskOnce(e, net, leaderIndex, AskAll(e, net, leaderIndex, cache, front), last);
    }
  }

  lemma {:induction false} SecondPassCollects(e: Epoch, net: Network, leaderIndex: nat, cache: Cache, members: seq<Key>)
    requires Invariant(e, net) && Ready(e, net, leaderIndex, members) && CacheOk(e, e.leaders[leaderIndex], cache)
    requires Tops(e, net, e.leaders[leaderIndex], members, cache.skipData.index)
    ensures var after := AskAll(e, net, leaderIndex, cache, members);
            && CacheOk(e, e.leaders[leaderIndex], after) && after.skipData == cache.skipData
            && forall k | k in members :: k in after.proofs
  {
    if members != [] {
      var front, last := members[..|members| - 1], members[|members| - 1];
      assert members == front + [last];
      SecondPassCollects(e, net, leaderIndex, cache, front);
      AskOnce(e, net, leaderIndex, AskAll(e, net, leaderIndex, cache, front), last);
    }
  }

  // ---------------------------------------------------------------------------------------------
  // The honest members are enough
  // ---------------------------------------------------------------------------------------------

  /** The majority is the largest number of signatures that a quorum without its faulty members can still give. */
  lemma MajorityLeavesOutTheFaulty(n: nat)
    ensures Majority(n) == n - MaxFaulty(n)
  {
  }

  ghost predicate NoRepeats(quorum: seq<Key>) {
    forall i, j | 0 <= i < j < |quorum| :: quorum[i] != quorum[j]
  }

  lemma {:induction false} MembersAllCount(quorum: seq<Key>)
    requires NoRepeats(quorum)
    ensures |Members(quorum)| == |quorum|
  {
    if quorum != [] {
      assert NoRepeats(quorum[1..]);
      MembersAllCount(quorum[1..]);
      assert Members(quorum) == Members(quorum[1..]) + {quorum[0]};
      assert quorum[0] !in Members(quorum[1..]);
    }
  }

  lemma HonestAreMajority(quorum: seq<Key>, honest: set<Key>, signers: set<Key>)
    requires NoRepeats(quorum) && MostlyHonest(quorum, honest) && Members(quorum) * honest <= signers
    ensures |signers| >= Majority(|quorum|)
  {
    MembersAllCount(quorum);
    MajorityLeavesOutTheFaulty(|quorum|);
    assert Members(quorum) == Members(quorum) * honest + (Members(quorum) - honest);
    SubsetCount(Members(quorum) * honest, signers);
  }

  /** In any reachable network in which voting for a leader is over at the honest quorum members, a collector that asks
  them in turn, twice, holds an ALFP that verifies; its stat is the collector's own or one of theirs. */
  lemma AskingTwiceSeals(e: Epoch, run: seq<Network>, i: nat, leaderIndex: nat, cache: Cache, members: seq<Key>)
    requires DistinctLeaders(e) && IsRun(e, run) && MostlyHonest(e.quorum, run[0].Honest()) && i < |run|
    requires NoRepeats(e.quorum) && Ready(e, run[i], leaderIndex, members)
    requires CacheOk(e, e.leaders[leaderIndex], cache)
    requires forall k | k in e.quorum && k in run[i].members :: k in members
    ensures var leader, net := e.leaders[leaderIndex], run[i];
            var after := AskAll(e, net, leaderIndex, AskAll(e, net, leaderIndex, cache, members), members);
            && VerifyAlfp(Aggregate(e, leader, after), e)
            && Tops(e, net, leader, members, after.skipData.index)
            && (after.skipData == cache.skipData
                || exists k :: k in members && after.skipData == StatOf(net.members[k], leader))
  {
    var leader, net := e.leaders[leaderIndex], run[i];
    RunKeepsInvariant(e, run, i, i);
    FirstPassTops(e, net, leaderIndex, cache, members);
    var once := AskAll(e, net, leaderIndex, cache, members);
    SecondPassCollects(e, net, leaderIndex, once, members);
    var after := AskAll(e, net, leaderIndex, once, members);
    HonestAreMajority(e.quorum, net.Honest(), after.proofs.Keys);
    EnoughProofsIffVerifies(e, leader, after);
    assert |after.proofs| == |after.proofs.Keys|;
  }
}
