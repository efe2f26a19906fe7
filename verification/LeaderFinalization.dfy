/** Collecting an ALFP: the cache of replies for one leader, under any mix of OK and UPGRADE answers. */
module LeaderFinalization {
  import opened Wrappers
  import opened Signatures
  import opened Voting
  import opened QuorumSigner
  import opened VotingSafety

  datatype Reply =
    | OkReply(forLeader: Key, voter: Key, signature: Signature)
    | UpgradeReply(forLeader: Key, stat: VotingStat)

  /** The current proposal and the signatures gathered for it. */
  datatype Cache = Cache(skipData: VotingStat, proofs: Signatures)

  predicate UpgradeOk(stat: VotingStat, e: Epoch, leader: Key) {
    stat.index >= 0 ==> CarriesOwnAfp(stat, e, leader)
  }

  function EndPayload(e: Epoch, leader: Key, stat: VotingStat): Payload {
    LeaderEnd(leader, stat.index, stat.hash, e.Ref())
  }

  /** The proposal is one that may be sealed, and every gathered signature is a quorum member's over exactly it. */
  predicate CacheOk(e: Epoch, leader: Key, cache: Cache) {
    && UpgradeOk(cache.skipData, e, leader)
    && forall voter | voter in cache.proofs ::
         voter in Members(e.quorum)
           && VerifySignature(EndPayload(e, leader, cache.skipData), voter, cache.proofs[voter])
  }

  function AfterReply(e: Epoch, leader: Key, cache: Cache, reply: Reply): Cache {
    if reply.forLeader != leader then cache
    else match reply
      case OkReply(_, voter, signature) =>
        if VerifySignature(EndPayload(e, leader, cache.skipData), voter, signature) && voter in Members(e.quorum) then
          cache.(proofs := cache.proofs[voter := signature])
        else cache
      case UpgradeReply(_, stat) =>
        if UpgradeOk(stat, e, leader) then Cache(stat, map[]) else cache
  }

  function AfterReplies(e: Epoch, leader: Key, cache: Cache, replies: seq<Reply>): Cache
    decreases |replies|
  {
    if replies == [] then cache
    else AfterReplies(e, leader, AfterReply(e, leader, cache, replies[0]), replies[1..])
  }

  function Aggregate(e: Epoch, leader: Key, cache: Cache): Alfp {
    Alfp(e.id, leader, cache.skipData, cache.proofs)
  }

  // ---------------------------------------------------------------------------------------------
  // What is collected is always a proof in the making
  // ---------------------------------------------------------------------------------------------

  lemma {:induction false} RepliesKeepCacheOk(e: Epoch, leader: Key, cache: Cache, replies: seq<Reply>)
    requires CacheOk(e, leader, cache)
    ensures CacheOk(e, leader, AfterReplies(e, leader, cache, replies))
    decreases |replies|
  {
    if replies != [] {
      RepliesKeepCacheOk(e, leader, AfterReply(e, leader, cache, replies[0]), replies[1..]);
    }
  }

  /** The size test on the gathered signatures decides exactly whether the aggregated proof verifies. */
  lemma EnoughProofsIffVerifies(e: Epoch, leader: Key, cache: Cache)
    requires CacheOk(e, leader, cache)
    ensures |cache.proofs| >= Majority(|e.quorum|) <==> VerifyAlfp(Aggregate(e, leader, cache), e)
  {
    assert VerifiedSigners(cache.proofs, Members(e.quorum), EndPayload(e, leader, cache.skipData)) == cache.proofs.Keys;
    assert |cache.proofs| == |cache.proofs.Keys|;
  }

  /** A collector may start from whatever stat its own node has stored in any reachable network. */
  lemma StoredStatStartsOk(e: Epoch, net: Network, k: Key, leader: Key)
    requires Invariant(e, net) && k in net.members
    ensures CacheOk(e, leader, Cache(StatOf(net.members[k], leader), map[]))
  {
    if leader in net.members[k].stats {
      assert StatOk(e, net, leader, net.members[k].stats[leader]);
    }
  }

  /** Replies sent over the network carry no forged signature of an honest member. */
  predicate ReplyPossible(net: Network, reply: Reply) {
    match reply
    case OkReply(_, voter, signature) => Unforged(map[voter := signature], net.Honest(), net.issued)
    case UpgradeReply(_, stat) => Unforged(stat.afp.proofs, net.Honest(), net.issued)
  }

  predicate CacheUnforged(net: Network, cache: Cache) {
    && Unforged(cache.proofs, net.Honest(), net.issued)
    && Unforged(cache.skipData.afp.proofs, net.Honest(), net.issued)
  }

  lemma ReplyKeepsUnforged(e: Epoch, net: Network, leader: Key, cache: Cache, reply: Reply)
    requires CacheUnforged(net, cache) && ReplyPossible(net, reply)
    ensures CacheUnforged(net, AfterReply(e, leader, cache, reply))
  {
    if reply.OkReply? {
      var one: Signatures := map[reply.voter := reply.signature];
      assert one[reply.voter] == reply.signature;
    }
  }

  lemma {:induction false} RepliesKeepUnforged(e: Epoch, net: Network, leader: Key, cache: Cache, replies: seq<Reply>)
    requires CacheUnforged(net, cache) && forall i | 0 <= i < |replies| :: ReplyPossible(net, replies[i])
    ensures CacheUnforged(net, AfterReplies(e, leader, cache, replies))
    decreases |replies|
  {
    if replies != [] {
      ReplyKeepsUnforged(e, net, leader, cache, replies[0]);
      RepliesKeepUnforged(e, net, leader, AfterReply(e, leader, cache, replies[0]), replies[1..]);
    }
  }

  lemma StoredStatUnforged(e: Epoch, net: Network, k: Key, leader: Key)
    requires Invariant(e, net) && k in net.members
    ensures CacheUnforged(net, Cache(StatOf(net.members[k], leader), map[]))
  {
    if leader in net.members[k].stats {
      assert StatOk(e, net, leader, net.members[k].stats[leader]);
    }
  }

  /** From a node's stored stat, any replies that reach the majority give an ALFP that verifies and seals the tail. */
  lemma CollectedProofSealsTail(
      e: Epoch, run: seq<Network>, i: nat, k: Key, leader: Key, replies: seq<Reply>, j: nat, afp: Afp)
    requires DistinctLeaders(e) && IsRun(e, run) && MostlyHonest(e.quorum, run[0].Honest())
    requires i < |run| && k in run[i].members && forall r | 0 <= r < |replies| :: ReplyPossible(run[i], replies[r])
    requires j < |run| && AfpShown(e, run[j], afp) && afp.blockId.BlockId? && afp.blockId.creator == leader
    ensures var cache := AfterReplies(e, leader, Cache(StatOf(run[i].members[k], leader), map[]), replies);
            |cache.proofs| >= Majority(|e.quorum|) ==>
              AlfpShown(e, run[i], Aggregate(e, leader, cache)) && afp.blockId.index <= cache.skipData.index + 1
  {
    RunKeepsInvariant(e, run, i, i);
    var start := Cache(StatOf(run[i].members[k], leader), map[]);
    var cache := AfterReplies(e, leader, start, replies);
    StoredStatStartsOk(e, run[i], k, leader);
    StoredStatUnforged(e, run[i], k, leader);
    RepliesKeepCacheOk(e, leader, start, replies);
    RepliesKeepUnforged(e, run[i], leader, start, replies);
    if |cache.proofs| >= Majority(|e.quorum|) {
      EnoughProofsIffVerifies(e, leader, cache);
      TailSafety(e, run, i, j, Aggregate(e, leader, cache), afp);
    }
  }

  // ---------------------------------------------------------------------------------------------
  // The collector as the thread runs it
  // ---------------------------------------------------------------------------------------------

  class LeaderFinalizationCache {
    const epoch: Epoch
    const leader: Key
    var skipData: VotingStat
    var proofs: Signatures
    var persisted: Option<Alfp>

    function Contents(): Cache
      reads this
    {
      Cache(skipData, proofs)
    }

    ghost predicate Valid()
      reads this
    {
      && CacheOk(epoch, leader, Contents())
      && (persisted.Some? ==> VerifyAlfp(persisted.value, epoch) && persisted.value.leader == leader)
    }

    constructor (e: Epoch, leaderKey: Key, stored: VotingStat)
      requires UpgradeOk(stored, e, leaderKey)
      ensures Valid() && epoch == e && leader == leaderKey && Contents() == Cache(stored, map[]) && persisted == None
    {
      epoch, leader, skipData, proofs, persisted := e, leaderKey, stored, map[], None;
    }

    method HandleOk(forLeader: Key, voter: Key, signature: Signature)
      requires Valid()
      modifies this
      ensures Valid() && persisted == old(persisted)
      ensures Contents() == AfterReply(epoch, leader, old(Contents()), OkReply(forLeader, voter, signature))
    {
      if forLeader != leader {
        return;
      }
      if VerifySignature(EndPayload(epoch, leader, skipData), voter, signature) {
        if voter in epoch.quorum {
          proofs := proofs[voter := signature];
        }
      }
    }

    method HandleUpgrade(forLeader: Key, stat: VotingStat)
      requires Valid()
      modifies this
      ensures Valid() && persisted == old(persisted)
      ensures Contents() == AfterReply(epoch, leader, old(Contents()), UpgradeReply(forLeader, stat))
    {
      if forLeader != leader {
        return;
      }
      if stat.index >= 0 {
        var afp := stat.afp;
        if afp.blockId.OtherText? || afp.blockId.index != stat.index || afp.blockId.epoch != epoch.id
          || afp.blockId.creator != leader {
          return;
        }
        if stat.hash != afp.blockHash {
          return;
        }
        var afpOk := VerifyAggregatedFinalizationProof(afp, epoch);
        if !afpOk {
          return;
        }
      }
      skipData := stat;
      proofs := map[];
    }

    /** One collection round: handle every reply, then store the proof if enough signatures are in. */
    method CollectRound(replies: seq<Reply>)
      requires Valid()
      modifies this
      ensures Valid()
      ensures Contents() == AfterReplies(epoch, leader, old(Contents()), replies)
      ensures persisted ==
              if VerifyAlfp(Aggregate(epoch, leader, Contents()), epoch) then
                Some(Aggregate(epoch, leader, Contents())) else old(persisted)
    {
      ghost var start := Contents();
      var i := 0;
      while i < |replies|
        invariant 0 <= i <= |replies|
        invariant Valid() && persisted == old(persisted)
        invariant AfterReplies(epoch, leader, Contents(), replies[i..]) == AfterReplies(epoch, leader, start, replies)
      {
        match replies[i] {
          case OkReply(forLeader, voter, signature) => HandleOk(forLeader, voter, signature);
          case UpgradeReply(forLeader, stat) => HandleUpgrade(forLeader, stat);
        }
        assert replies[i..][1..] == replies[i + 1..];
        i := i + 1;
      }
      EnoughProofsIffVerifies(epoch, leader, Contents());
      if |proofs| >= Majority(|epoch.quorum|) {
        persisted := Some(Alfp(epoch.id, leader, skipData, proofs));
      }
    }
  }
}
