/** Delayed transactions: what creating, staking, unstaking and accepted votes do to the validators, the registry and
the network parameters, and what a list of them keeps and conserves. */
module DelayedTransactions {
  import opened Wrappers
  import opened Integers
  import opened MapSums
  import opened Ledger
  import Signatures

  datatype Validator = Validator(
    pubkey: string, percentage: nat, totalStaked: uint64, stakers: map<string, uint64>, url: string, wssUrl: string)

  datatype Parameters = Parameters(
    requiredStake: uint64,
    minimalStake: uint64,
    quorumSize: int,
    epochDuration: int,
    leadershipDuration: int,
    blockTime: int,
    maxBlockSize: int,
    txLimit: int)

  /** The epoch whose quorum votes, and how the text of agreements decodes. */
  datatype Electorate = Electorate(epoch: Signatures.EpochRef, quorum: seq<string>,
    decode: string -> Signatures.Signatures)

  /** What the two threads that run delayed transactions must agree on. */
  datatype Shared = Shared(validators: map<string, Validator>, registry: seq<string>, parameters: Parameters,
    version: int)

  const STORAGE_PREFIX := "VALIDATOR_STORAGE:"

  function StorageKey(pubkey: string): (key: string)
    ensures key != ""
  {
    STORAGE_PREFIX + pubkey
  }

  lemma StorageKeyInjective(a: string, b: string)
    ensures StorageKey(a) == StorageKey(b) ==> a == b
  {
    assert StorageKey(a)[|STORAGE_PREFIX|..] == a && StorageKey(b)[|STORAGE_PREFIX|..] == b;
  }

  // ---------------------------------------------------------------------------------------------
  // The operations
  // ---------------------------------------------------------------------------------------------

  /** A percentage that does not fit 8 bits reads as zero. */
  function PercentageOf(text: string): nat {
    var value := ParseUint64(text);
    if value.Some? && value.value < 256 then value.value as nat else 0
  }

  predicate DescriptionOk(tx: Payload) {
    Field(tx, "validatorURL") != "" && Field(tx, "wssValidatorURL") != ""
      && PercentageOf(Field(tx, "percentage")) <= 100
  }

  function NewValidator(tx: Payload): Validator {
    var creator := Field(tx, "creator");
    Validator(creator, PercentageOf(Field(tx, "percentage")), 0, map[creator := 0], Field(tx, "validatorURL"),
      Field(tx, "wssValidatorURL"))
  }

  function CreateValidator(s: Shared, tx: Payload): Shared {
    var key := StorageKey(Field(tx, "creator"));
    if !DescriptionOk(tx) || key in s.validators then s else s.(validators := s.validators[key := NewValidator(tx)])
  }

  function Described(v: Validator, tx: Payload): Validator {
    v.(percentage := PercentageOf(Field(tx, "percentage")), url := Field(tx, "validatorURL"),
      wssUrl := Field(tx, "wssValidatorURL"))
  }

  function UpdateValidator(s: Shared, tx: Payload): Shared {
    var key := StorageKey(Field(tx, "creator"));
    if !DescriptionOk(tx) || key !in s.validators then s
    else s.(validators := s.validators[key := Described(s.validators[key], tx)])
  }

  function StakeAt(v: Validator, staker: string): uint64 {
    if staker in v.stakers then v.stakers[staker] else 0
  }

  function Staked(v: Validator, staker: string, amount: uint64): Validator {
    v.(totalStaked := Add(v.totalStaked, amount), stakers := v.stakers[staker := Add(StakeAt(v, staker), amount)])
  }

  predicate CanStake(s: Shared, pubkey: string, amount: uint64) {
    StorageKey(pubkey) in s.validators && amount >= s.parameters.minimalStake
  }

  function StakeBy(s: Shared, pubkey: string, staker: string, amount: uint64): Shared {
    if !CanStake(s, pubkey, amount) then s
    else
      var v := Staked(s.validators[StorageKey(pubkey)], staker, amount);
      s.(
        validators := s.validators[StorageKey(pubkey) := v],
        registry := if v.totalStaked >= s.parameters.requiredStake && pubkey !in s.registry then s.registry + [pubkey]
          else s.registry)
  }

  predicate StakeAccepted(s: Shared, tx: Payload) {
    var amount := ParseUint64(Field(tx, "amount"));
    amount.Some? && CanStake(s, Field(tx, "validatorPubKey"), amount.value)
  }

  function Stake(s: Shared, tx: Payload): Shared {
    var amount := ParseUint64(Field(tx, "amount"));
    if amount.None? then s else StakeBy(s, Field(tx, "validatorPubKey"), Field(tx, "staker"), amount.value)
  }

  function Unstaked(v: Validator, unstaker: string, amount: uint64): Validator
    requires unstaker in v.stakers && v.stakers[unstaker] >= amount
  {
    var left := v.stakers[unstaker] - amount;
    v.(
      totalStaked := Sub(v.totalStaked, amount),
      stakers := if left == 0 then v.stakers - {unstaker} else v.stakers[unstaker := left])
  }

  function RemoveFirst(s: seq<string>, x: string): seq<string> {
    if s == [] then [] else if s[0] == x then s[1..] else [s[0]] + RemoveFirst(s[1..], x)
  }

  predicate CanUnstake(s: Shared, pubkey: string, unstaker: string, amount: uint64) {
    var key := StorageKey(pubkey);
    key in s.validators && unstaker in s.validators[key].stakers && s.validators[key].stakers[unstaker] >= amount
  }

  function UnstakeBy(s: Shared, pubkey: string, unstaker: string, amount: uint64): Shared {
    if !CanUnstake(s, pubkey, unstaker, amount) then s
    else
      var v := Unstaked(s.validators[StorageKey(pubkey)], unstaker, amount);
      s.(
        validators := s.validators[StorageKey(pubkey) := v],
        registry := if v.totalStaked < s.parameters.requiredStake then RemoveFirst(s.registry, pubkey) else s.registry)
  }

  predicate UnstakeAccepted(s: Shared, tx: Payload) {
    var amount := ParseUint64(Field(tx, "amount"));
    amount.Some? && CanUnstake(s, Field(tx, "validatorPubKey"), Field(tx, "unstaker"), amount.value)
  }

  function Unstake(s: Shared, tx: Payload): Shared {
    var amount := ParseUint64(Field(tx, "amount"));
    if amount.None? then s else UnstakeBy(s, Field(tx, "validatorPubKey"), Field(tx, "unstaker"), amount.value)
  }

  function NonNegative(text: string): Option<int> {
    var value := ParseInt64(text);
    if value.Some? && value.value >= 0 then value else None
  }

  function ParameterUpdate(p: Parameters, field: string, text: string): Option<Parameters> {
    var unsigned, value := ParseUint64(text), NonNegative(text);
    match field
    case "VALIDATOR_REQUIRED_STAKE" => if unsigned.Some? then Some(p.(requiredStake := unsigned.value)) else None
    case "MINIMAL_STAKE_PER_STAKER" => if unsigned.Some? then Some(p.(minimalStake := unsigned.value)) else None
    case "QUORUM_SIZE" => if value.Some? then Some(p.(quorumSize := value.value)) else None
    case "EPOCH_DURATION" => if value.Some? then Some(p.(epochDuration := value.value)) else None
    case "LEADERSHIP_DURATION" => if value.Some? then Some(p.(leadershipDuration := value.value)) else None
    case "BLOCK_TIME" => if value.Some? then Some(p.(blockTime := value.value)) else None
    case "MAX_BLOCK_SIZE_IN_BYTES" => if value.Some? then Some(p.(maxBlockSize := value.value)) else None
    case "TXS_LIMIT_PER_BLOCK" => if value.Some? then Some(p.(txLimit := value.value)) else None
    case _ => None
  }

  predicate MajorityAgrees(e: Electorate, agreements: Signatures.Signatures, ballot: Signatures.Payload) {
    agreements != map[] && Signatures.VerifyAggregate(agreements, e.quorum, ballot)
  }

  function VotingAccept(e: Electorate, s: Shared, tx: Payload): Shared {
    var agreements := e.decode(Field(tx, "agreements"));
    match Field(tx, "votingType")
    case "version" =>
      var version := NonNegative(Field(tx, "newMajorVersion"));
      if version.None? || !MajorityAgrees(e, agreements, Signatures.VersionVote(e.epoch, version.value)) then s
      else s.(version := version.value)
    case "parameters" =>
      var field, text := Field(tx, "updateField"), Field(tx, "newValue");
      var updated := ParameterUpdate(s.parameters, field, text);
      if updated.None? || !MajorityAgrees(e, agreements, Signatures.ParameterVote(e.epoch, field, text)) then s
      else s.(parameters := updated.value)
    case _ => s
  }

  /** What one delayed transaction does to the shared state; a type without a handler does nothing. */
  function Apply(e: Electorate, s: Shared, tx: Payload): Shared {
    match Field(tx, "type")
    case "createValidator" => CreateValidator(s, tx)
    case "updateValidator" => UpdateValidator(s, tx)
    case "stake" => Stake(s, tx)
    case "unstake" => Unstake(s, tx)
    case "votingAccept" => VotingAccept(e, s, tx)
    case _ => s
  }

  /** What the execution thread pays back to an account. */
  function Refund(s: Shared, tx: Payload): Option<(string, uint64)> {
    if Field(tx, "type") == "unstake" && UnstakeAccepted(s, tx) then
      Some((Field(tx, "unstaker"), ParseUint64(Field(tx, "amount")).value))
    else None
  }

  function AfterList(e: Electorate, s: Shared, txs: seq<Payload>): Shared
    decreases |txs|
  {
    if txs == [] then s else AfterList(e, Apply(e, s, txs[0]), txs[1..])
  }

  // ---------------------------------------------------------------------------------------------
  // What the operations keep
  // ---------------------------------------------------------------------------------------------

  function Whole(amount: uint64): nat {
    amount as nat
  }

  function TotalOf(v: Validator): nat {
    v.totalStaked as nat
  }

  /** The total is the sum over the stakers. */
  ghost predicate Balanced(v: Validator) {
    v.totalStaked as nat == Sum(v.stakers, Whole)
  }

  ghost predicate AllBalanced(s: Shared) {
    forall k | k in s.validators :: Balanced(s.validators[k])
  }

  ghost predicate NoDuplicates(registry: seq<string>) {
    forall i, j | 0 <= i < j < |registry| :: registry[i] != registry[j]
  }

  /** A registered validator exists and has at least the given stake. */
  ghost predicate Qualified(validators: map<string, Validator>, pubkey: string, required: uint64) {
    StorageKey(pubkey) in validators && validators[StorageKey(pubkey)].totalStaked >= required
  }

  ghost predicate AllQualified(s: Shared, required: uint64) {
    forall pubkey | pubkey in s.registry :: Qualified(s.validators, pubkey, required)
  }

  ghost predicate Sound(s: Shared) {
    AllBalanced(s) && NoDuplicates(s.registry)
  }

  ghost predicate RegistryQualified(s: Shared) {
    AllQualified(s, s.parameters.requiredStake)
  }

  /** Everything staked. */
  ghost function AllStake(s: Shared): nat {
    Sum(s.validators, TotalOf)
  }

  lemma StakedBalanced(v: Validator, staker: string, amount: uint64)
    requires Balanced(v) && v.totalStaked as nat + amount as nat < LIMIT
    ensures Balanced(Staked(v, staker, amount))
    ensures Staked(v, staker, amount).totalStaked as nat == v.totalStaked as nat + amount as nat
  {
    SumAfterUpdate(v.stakers, Whole, staker, Add(StakeAt(v, staker), amount));
  }

  /** Unstaking never underflows: one staker's stake is part of the total. */
  lemma UnstakedBalanced(v: Validator, unstaker: string, amount: uint64)
    requires Balanced(v) && unstaker in v.stakers && v.stakers[unstaker] >= amount
    ensures Balanced(Unstaked(v, unstaker, amount)) && amount <= v.totalStaked
    ensures Unstaked(v, unstaker, amount).totalStaked as nat == v.totalStaked as nat - amount as nat
  {
    SumAfterUpdate(v.stakers, Whole, unstaker, v.stakers[unstaker] - amount);
    SumWithout(v.stakers, Whole, unstaker);
  }

  lemma AllStakeAfterUpdate(s: Shared, key: string, v: Validator)
    ensures Sum(s.validators[key := v], TotalOf) ==
            AllStake(s) + TotalOf(v) - if key in s.validators then TotalOf(s.validators[key]) else 0
    ensures key in s.validators ==> TotalOf(s.validators[key]) <= AllStake(s)
  {
    SumAfterUpdate(s.validators, TotalOf, key, v);
  }

  lemma ConsNoDuplicates(x: string, rest: seq<string>)
    requires NoDuplicates(rest) && x !in rest
    ensures NoDuplicates([x] + rest)
  {
  }

  lemma {:induction false} RemoveFirstHas(s: seq<string>, x: string)
    requires NoDuplicates(s)
    ensures NoDuplicates(RemoveFirst(s, x)) && forall y :: y in RemoveFirst(s, x) <==> y in s && y != x
  {
    if s != [] {
      assert s == [s[0]] + s[1..] && s[0] !in s[1..];
      RemoveFirstHas(s[1..], x);
      if s[0] != x {
        ConsNoDuplicates(s[0], RemoveFirst(s[1..], x));
      }
    }
  }

  /** Changing one validator keeps the others qualified. */
  lemma OthersStayQualified(
      validators: map<string, Validator>, pubkey: string, v: Validator, other: string, required: uint64)
    requires Qualified(validators, other, required) && other != pubkey
    ensures Qualified(validators[StorageKey(pubkey) := v], other, required)
  {
    StorageKeyInjective(pubkey, other);
  }

  lemma RegistryStaysQualified(s: Shared, after: Shared, pubkey: string, v: Validator)
    requires after.validators == s.validators[StorageKey(pubkey) := v] && after.parameters == s.parameters
    requires forall other | other in after.registry :: other in s.registry || other == pubkey
    requires pubkey in after.registry ==>
               || v.totalStaked >= s.parameters.requiredStake
               || (pubkey in s.registry && StorageKey(pubkey) in s.validators
                  && v.totalStaked >= s.validators[StorageKey(pubkey)].totalStaked)
    ensures RegistryQualified(s) ==> RegistryQualified(after)
  {
    if RegistryQualified(s) {
      forall other | other in after.registry
        ensures Qualified(after.validators, other, s.parameters.requiredStake)
      {
        if other != pubkey {
          OthersStayQualified(s.validators, pubkey, v, other, s.parameters.requiredStake);
        }
      }
    }
  }

  lemma NewValidatorBalanced(tx: Payload)
    ensures Balanced(NewValidator(tx)) && TotalOf(NewValidator(tx)) == 0
  {
    SumAfterUpdate<uint64>(map[], Whole, Field(tx, "creator"), 0);
    assert NewValidator(tx).stakers == map[][Field(tx, "creator") := 0];
  }

  lemma CreateKeepsSound(s: Shared, tx: Payload)
    requires Sound(s)
    ensures Sound(CreateValidator(s, tx)) && (RegistryQualified(s) ==> RegistryQualified(CreateValidator(s, tx)))
    ensures AllStake(CreateValidator(s, tx)) == AllStake(s)
  {
    var v, key := NewValidator(tx), StorageKey(Field(tx, "creator"));
    if DescriptionOk(tx) && key !in s.validators {
      AllStakeAfterUpdate(s, key, v);
      NewValidatorBalanced(tx);
    }
  }

  lemma UpdateKeepsSound(s: Shared, tx: Payload)
    requires Sound(s)
    ensures Sound(UpdateValidator(s, tx)) && (RegistryQualified(s) ==> RegistryQualified(UpdateValidator(s, tx)))
    ensures AllStake(UpdateValidator(s, tx)) == AllStake(s)
  {
    var pubkey := Field(tx, "creator");
    if DescriptionOk(tx) && StorageKey(pubkey) in s.validators {
      var v := Described(s.validators[StorageKey(pubkey)], tx);
      AllStakeAfterUpdate(s, StorageKey(pubkey), v);
      RegistryStaysQualified(s, UpdateValidator(s, tx), pubkey, v);
    }
  }

  lemma StakeKeepsSound(s: Shared, pubkey: string, staker: string, amount: uint64)
    requires Sound(s) && CanStake(s, pubkey, amount) && AllStake(s) + amount as nat < LIMIT
    ensures var after := StakeBy(s, pubkey, staker, amount);
            Sound(after) && (RegistryQualified(s) ==> RegistryQualified(after))
              && AllStake(after) == AllStake(s) + amount as nat
  {
    var v := Staked(s.validators[StorageKey(pubkey)], staker, amount);
    AllStakeAfterUpdate(s, StorageKey(pubkey), v);
    StakedBalanced(s.validators[StorageKey(pubkey)], staker, amount);
    RegistryStaysQualified(s, StakeBy(s, pubkey, staker, amount), pubkey, v);
  }

  lemma UnstakeKeepsSound(s: Shared, pubkey: string, unstaker: string, amount: uint64)
    requires Sound(s) && CanUnstake(s, pubkey, unstaker, amount)
    ensures var after := UnstakeBy(s, pubkey, unstaker, amount);
            Sound(after) && (RegistryQualified(s) ==> RegistryQualified(after))
              && AllStake(after) == AllStake(s) - amount as nat
  {
    var v := Unstaked(s.validators[StorageKey(pubkey)], unstaker, amount);
    AllStakeAfterUpdate(s, StorageKey(pubkey), v);
    UnstakedBalanced(s.validators[StorageKey(pubkey)], unstaker, amount);
    RemoveFirstHas(s.registry, pubkey);
    RegistryStaysQualified(s, UnstakeBy(s, pubkey, unstaker, amount), pubkey, v);
  }

  /** The new stake requirement of a vote that asks for one and is backed by a majority, where its number parses. */
  function RequirementVoted(e: Electorate, tx: Payload): Option<uint64> {
    var field, text := Field(tx, "updateField"), Field(tx, "newValue");
    var ballot := Signatures.ParameterVote(e.epoch, field, text);
    if Field(tx, "votingType") == "parameters" && field == "VALIDATOR_REQUIRED_STAKE"
       && MajorityAgrees(e, e.decode(Field(tx, "agreements")), ballot) then ParseUint64(text)
    else None
  }

  /** A vote changes parameters and version only; the registry stays qualified exactly when everyone registered has the
  stake the vote asks for, or, when it asks for none, had it before. */
  lemma VoteKeepsQualifiedIff(e: Electorate, s: Shared, tx: Payload)
    requires Sound(s)
    ensures var after, voted := VotingAccept(e, s, tx), RequirementVoted(e, tx);
            && AllStake(after) == AllStake(s) && after.validators == s.validators && after.registry == s.registry
            && Sound(after)
            && (RegistryQualified(after) <==>
                AllQualified(s, if voted.Some? then voted.value else s.parameters.requiredStake))
  {
  }

  // ---------------------------------------------------------------------------------------------
  // Lists
  // ---------------------------------------------------------------------------------------------

  /** A vote on the stake that registration takes. */
  predicate VotesOnRequirement(tx: Payload) {
    Field(tx, "type") == "votingAccept" && Field(tx, "votingType") == "parameters"
      && Field(tx, "updateField") == "VALIDATOR_REQUIRED_STAKE"
  }

  lemma RequirementChangesByVote(e: Electorate, s: Shared, tx: Payload)
    requires !VotesOnRequirement(tx)
    ensures Apply(e, s, tx).parameters.requiredStake == s.parameters.requiredStake
  {
  }

  /** What a rejected stake loses: the amount had left the sender's account when the transaction was accepted. */
  function Lost(s: Shared, tx: Payload): nat {
    if Field(tx, "type") == "stake" && !StakeAccepted(s, tx) then StakeOf(tx) as nat else 0
  }

  function Unlocked(s: Shared, tx: Payload): nat {
    var refund := Refund(s, tx);
    if refund.Some? then refund.value.1 as nat else 0
  }

  /** One transaction: totals stay equal to their parts, the registry has no duplicates, and what was pending is staked
  or lost, what is unlocked was staked. */
  lemma ApplyKeepsSound(e: Electorate, s: Shared, tx: Payload)
    requires Sound(s) && AllStake(s) + StakeOf(tx) as nat < LIMIT
    ensures Sound(Apply(e, s, tx))
    ensures RegistryQualified(s) && !VotesOnRequirement(tx) ==> RegistryQualified(Apply(e, s, tx))
    ensures AllStake(Apply(e, s, tx)) + Unlocked(s, tx) + Lost(s, tx) == AllStake(s) + StakeOf(tx) as nat
  {
    match Field(tx, "type")
    case "createValidator" => CreateKeepsSound(s, tx);
    case "updateValidator" => UpdateKeepsSound(s, tx);
    case "stake" =>
      if StakeAccepted(s, tx) {
        StakeKeepsSound(s, Field(tx, "validatorPubKey"), Field(tx, "staker"), StakeOf(tx));
      }
    case "unstake" =>
      if UnstakeAccepted(s, tx) {
        UnstakeKeepsSound(s, Field(tx, "validatorPubKey"), Field(tx, "unstaker"),
          ParseUint64(Field(tx, "amount")).value);
      }
    case "votingAccept" =>
      if !VotesOnRequirement(tx) {
        RequirementChangesByVote(e, s, tx);
      }
      VoteKeepsQualifiedIff(e, s, tx);
    case _ =>
  }

  lemma StakesFromHead(txs: seq<Payload>)
    requires txs != []
    ensures Stakes(txs) == StakeOf(txs[0]) as nat + Stakes(txs[1..])
  {
    assert txs == [txs[0]] + txs[1..];
    StakesOfSum([txs[0]], txs[1..]);
    assert Stakes([txs[0]]) == StakeOf(txs[0]) as nat;
  }

  /** Through any list each validator's total stays the sum of its stakers, and the registry stays free of duplicates;
  with the requirement untouched, being registered keeps meaning to have the required stake. */
  lemma {:induction false} ListKeepsSound(e: Electorate, s: Shared, txs: seq<Payload>)
    requires Sound(s) && AllStake(s) + Stakes(txs) < LIMIT
    ensures Sound(AfterList(e, s, txs)) && AllStake(AfterList(e, s, txs)) <= AllStake(s) + Stakes(txs)
    ensures RegistryQualified(s) && (forall tx | tx in txs :: !VotesOnRequirement(tx)) ==>
            RegistryQualified(AfterList(e, s, txs))
    decreases |txs|
  {
    if txs != [] {
      StakesFromHead(txs);
      ApplyKeepsSound(e, s, txs[0]);
      ListKeepsSound(e, Apply(e, s, txs[0]), txs[1..]);
    }
  }

  // ---------------------------------------------------------------------------------------------
  // Priority order
  // ---------------------------------------------------------------------------------------------

  predicate HasType(tx: Payload) {
    "type" in tx
  }

  predicate IsVote(tx: Payload) {
    HasType(tx) && tx["type"] == "votingAccept"
  }

  /** The transactions with a type that are votes, or that are not, in list order. */
  function Typed(txs: seq<Payload>, votes: bool): seq<Payload> {
    if txs == [] then []
    else
      var last := txs[|txs| - 1];
      Typed(txs[..|txs| - 1], votes) + if HasType(last) && IsVote(last) == votes then [last] else []
  }

  function ByPriority(txs: seq<Payload>): seq<Payload> {
    Typed(txs, true) + Typed(txs, false)
  }

  method OrderByPriority(txs: seq<Payload>) returns (ordered: seq<Payload>)
    ensures ordered == ByPriority(txs)
  {
    var votes, rest := [], [];
    var i := 0;
    while i < |txs|
      invariant 0 <= i <= |txs|
      invariant votes == Typed(txs[..i], true) && rest == Typed(txs[..i], false)
    {
      assert txs[..i + 1][..i] == txs[..i];
      if "type" in txs[i] {
        if txs[i]["type"] == "votingAccept" {
          votes := votes + [txs[i]];
        } else {
          rest := rest + [txs[i]];
        }
      }
      i := i + 1;
    }
    assert txs[..i] == txs;
    ordered := votes + rest;
  }

  lemma {:induction false} TypedHas(txs: seq<Payload>, votes: bool)
    ensures forall tx :: tx in Typed(txs, votes) <==> tx in txs && HasType(tx) && IsVote(tx) == votes
  {
    if txs != [] {
      TypedHas(txs[..|txs| - 1], votes);
      assert txs == txs[..|txs| - 1] + [txs[|txs| - 1]];
    }
  }

  lemma {:induction false} TypedCount(txs: seq<Payload>, votes: bool, tx: Payload)
    ensures multiset(Typed(txs, votes))[tx] == if HasType(tx) && IsVote(tx) == votes then multiset(txs)[tx] else 0
  {
    if txs != [] {
      TypedCount(txs[..|txs| - 1], votes, tx);
      assert txs == txs[..|txs| - 1] + [txs[|txs| - 1]];
    }
  }

  /** The order holds every typed transaction as often as the list does, the votes before all others. */
  lemma ByPriorityFacts(txs: seq<Payload>)
    ensures forall tx :: multiset(ByPriority(txs))[tx] == if HasType(tx) then multiset(txs)[tx] else 0
    ensures forall i | 0 <= i < |ByPriority(txs)| :: IsVote(ByPriority(txs)[i]) <==> i < |Typed(txs, true)|
  {
    forall tx: Payload
      ensures multiset(ByPriority(txs))[tx] == if HasType(tx) then multiset(txs)[tx] else 0
    {
      TypedCount(txs, true, tx);
      TypedCount(txs, false, tx);
    }
    TypedHas(txs, true);
    TypedHas(txs, false);
    forall i | 0 <= i < |ByPriority(txs)|
      ensures IsVote(ByPriority(txs)[i]) <==> i < |Typed(txs, true)|
    {
      if i < |Typed(txs, true)| {
        assert ByPriority(txs)[i] in Typed(txs, true);
      } else {
        assert ByPriority(txs)[i] in Typed(txs, false);
      }
    }
  }

  /** Which positions of the list an order takes, one after the other. */
  ghost predicate Takes(txs: seq<Payload>, taken: seq<Payload>, positions: seq<nat>) {
    |positions| == |taken| && forall k | 0 <= k < |taken| :: positions[k] < |txs| && taken[k] == txs[positions[k]]
  }

  ghost predicate Increasing(positions: seq<nat>) {
    forall i, j | 0 <= i < j < |positions| :: positions[i] < positions[j]
  }

  lemma {:induction false} TypedInOrder(txs: seq<Payload>, votes: bool) returns (positions: seq<nat>)
    ensures Takes(txs, Typed(txs, votes), positions) && Increasing(positions)
    ensures forall i: nat | i < |txs| :: i in positions <==> HasType(txs[i]) && IsVote(txs[i]) == votes
  {
    positions := [];
    if txs != [] {
      var n := |txs| - 1;
      var before := TypedInOrder(txs[..n], votes);
      positions := before + if HasType(txs[n]) && IsVote(txs[n]) == votes then [n] else [];
    }
  }

  /** The order takes every typed transaction of the list once: the votes in their order, then the rest in theirs. */
  lemma PriorityKeepsOrder(txs: seq<Payload>) returns (votes: seq<nat>, rest: seq<nat>)
    ensures Takes(txs, ByPriority(txs), votes + rest) && Increasing(votes) && Increasing(rest)
    ensures forall i: nat | i < |txs| :: i in votes <==> IsVote(txs[i])
    ensures forall i: nat | i < |txs| :: i in rest <==> HasType(txs[i]) && !IsVote(txs[i])
  {
    votes := TypedInOrder(txs, true);
    rest := TypedInOrder(txs, false);
  }

  // ---------------------------------------------------------------------------------------------
  // Conservation in the execution thread
  // ---------------------------------------------------------------------------------------------

  datatype World = World(shared: Shared, accounts: Accounts)

  function Refunded(accounts: Accounts, refund: Option<(string, uint64)>): Accounts {
    if refund.None? then accounts else Deposit(accounts, refund.value.0, refund.value.1)
  }

  function ApplyInWorld(e: Electorate, w: World, tx: Payload): World {
    World(Apply(e, w.shared, tx), Refunded(w.accounts, Refund(w.shared, tx)))
  }

  function Replay(e: Electorate, w: World, txs: seq<Payload>): World
    decreases |txs|
  {
    if txs == [] then w else Replay(e, ApplyInWorld(e, w, txs[0]), txs[1..])
  }

  /** The shared part of a replay is the same list run without accounts. */
  lemma {:induction false} ReplayShared(e: Electorate, w: World, txs: seq<Payload>)
    ensures Replay(e, w, txs).shared == AfterList(e, w.shared, txs)
    decreases |txs|
  {
    if txs != [] {
      ReplayShared(e, ApplyInWorld(e, w, txs[0]), txs[1..]);
    }
  }

  ghost function Owned(w: World): nat {
    Balances(w.accounts) + AllStake(w.shared)
  }

  function AllLost(e: Electorate, s: Shared, txs: seq<Payload>): nat
    decreases |txs|
  {
    if txs == [] then 0 else Lost(s, txs[0]) + AllLost(e, Apply(e, s, txs[0]), txs[1..])
  }

  lemma RefundKeepsBalances(w: World, tx: Payload)
    requires Balances(w.accounts) + Unlocked(w.shared, tx) < LIMIT
    ensures Balances(Refunded(w.accounts, Refund(w.shared, tx))) == Balances(w.accounts) + Unlocked(w.shared, tx)
  {
    var refund := Refund(w.shared, tx);
    if refund.Some? {
      var known := WithAccount(w.accounts, refund.value.0);
      WithAccountKeepsBalances(w.accounts, refund.value.0);
      BalancesAfterUpdate(known, refund.value.0, Credited(known[refund.value.0], refund.value.1));
    }
  }

  /** Balances, stakes and what is still pending: the replay of a list loses exactly the stakes it rejects. */
  lemma {:induction false} ReplayLosesRejectedStakes(e: Electorate, w: World, txs: seq<Payload>)
    requires Sound(w.shared) && Owned(w) + Stakes(txs) < LIMIT
    ensures Owned(Replay(e, w, txs)) + AllLost(e, w.shared, txs) == Owned(w) + Stakes(txs)
    decreases |txs|
  {
    if txs != [] {
      StakesFromHead(txs);
      ApplyKeepsSound(e, w.shared, txs[0]);
      RefundKeepsBalances(w, txs[0]);
      ReplayLosesRejectedStakes(e, ApplyInWorld(e, w, txs[0]), txs[1..]);
    }
  }

  /** A positive stake is rejected somewhere in the list. */
  predicate RejectsStake(e: Electorate, s: Shared, txs: seq<Payload>)
    decreases |txs|
  {
    txs != [] && ((Field(txs[0], "type") == "stake" && StakeOf(txs[0]) > 0 && !StakeAccepted(s, txs[0]))
                  || RejectsStake(e, Apply(e, s, txs[0]), txs[1..]))
  }

  lemma {:induction false} LosesIffRejects(e: Electorate, s: Shared, txs: seq<Payload>)
    ensures AllLost(e, s, txs) > 0 <==> RejectsStake(e, s, txs)
    decreases |txs|
  {
    if txs != [] {
      LosesIffRejects(e, Apply(e, s, txs[0]), txs[1..]);
    }
  }

  /** A replay conserves balances, stakes and pending stakes exactly when it rejects no positive stake. */
  lemma ReplayConservesIff(e: Electorate, w: World, txs: seq<Payload>)
    requires Sound(w.shared) && Owned(w) + Stakes(txs) < LIMIT
    ensures Owned(Replay(e, w, txs)) == Owned(w) + Stakes(txs) <==> !RejectsStake(e, w.shared, txs)
  {
    ReplayLosesRejectedStakes(e, w, txs);
    LosesIffRejects(e, w.shared, txs);
  }

  // ---------------------------------------------------------------------------------------------
  // Concrete cases
  // ---------------------------------------------------------------------------------------------

  /** A stake to a validator that does not exist. */
  function LostStake(): Payload {
    map["type" := "stake", "validatorPubKey" := "missing", "staker" := "a", "amount" := "5"]
  }

  lemma LostStakeFields()
    ensures Field(LostStake(), "type") == "stake" && Field(LostStake(), "validatorPubKey") == "missing"
    ensures ParseUint64(Field(LostStake(), "amount")) == Some(5) && StakeOf(LostStake()) == 5
  {
    assert "5"[..0] == "";
    assert Digits("5") == Some(5);
  }

  /** The block accepts it and takes the amount off the sender; the replay rejects it and the amount is gone. */
  lemma AcceptedStakeCanBeLost(e: Electorate, s: Shared)
    requires Sound(s) && AllStake(s) + 10 < LIMIT && StorageKey("missing") !in s.validators
    ensures var accounts := map["a" := Account(10, 0, 0, 0)];
            var o := Execute(accounts, Transaction("a", "a", 0, 0, 1, LostStake(), true, true));
            && o.success && o.delayed == Some(LostStake())
            && Balances(accounts) == 10 && Balances(o.accounts) == 5
            && Owned(Replay(e, World(s, o.accounts), [LostStake()])) == AllStake(s) + 5
  {
    LostStakeFields();
    var none: Accounts := map[];
    var before, after := Account(10, 0, 0, 0), Account(5, 1, 1, 1);
    var accounts := none["a" := before];
    var tx := Transaction("a", "a", 0, 0, 1, LostStake(), true, true);
    assert Execute(accounts, tx).accounts == none["a" := after];
    BalancesAfterUpdate(none, "a", before);
    BalancesAfterUpdate(none, "a", after);
    StakesFromHead([LostStake()]);
    ReplayLosesRejectedStakes(e, World(s, none["a" := after]), [LostStake()]);
  }

  /** A stake that names no staker is kept under the empty name, and unstaking it is paid to the empty account. */
  lemma RefundCanNameEmptyAccount(s: Shared, pubkey: string, amount: string)
    requires ParseUint64(amount).Some? && CanStake(s, pubkey, ParseUint64(amount).value)
    requires StakeAt(s.validators[StorageKey(pubkey)], "") == 0
    ensures var staking := map["type" := "stake", "validatorPubKey" := pubkey, "amount" := amount];
            Refund(Stake(s, staking), staking["type" := "unstake"]) == Some(("", ParseUint64(amount).value))
  {
  }
}
