/** What delayed transactions do, read off what can be observed: the stake of each staker, who is registered, the
descriptions, each parameter by its name, and who is paid. */
module DelayedEffects {
  import opened Wrappers
  import opened Integers
  import opened MapSums
  import opened Ledger
  import opened DelayedTransactions
  import opened DelayedBatches
  import opened AccountLaws
  import opened BatchLaws
  import Signatures

  // ---------------------------------------------------------------------------------------------
  // Stakes
  // ---------------------------------------------------------------------------------------------

  predicate Exists(s: Shared, pubkey: string) {
    StorageKey(pubkey) in s.validators
  }

  predicate IsStaker(s: Shared, pubkey: string, staker: string) {
    Exists(s, pubkey) && staker in s.validators[StorageKey(pubkey)].stakers
  }

  function StakeIn(s: Shared, pubkey: string, staker: string): int {
    if IsStaker(s, pubkey, staker) then s.validators[StorageKey(pubkey)].stakers[staker] as int else 0
  }

  function TotalIn(s: Shared, pubkey: string): int {
    if Exists(s, pubkey) then s.validators[StorageKey(pubkey)].totalStaked as int else 0
  }

  /** The transaction names this validator, with an amount that parses. */
  predicate Names(tx: Payload, kind: string, pubkey: string) {
    Field(tx, "type") == kind && Field(tx, "validatorPubKey") == pubkey && ParseUint64(Field(tx, "amount")).Some?
  }

  function AmountOf(tx: Payload): int {
    var amount := ParseUint64(Field(tx, "amount"));
    if amount.Some? then amount.value as int else 0
  }

  /** A stake counts when its validator exists and it is not below the least stake. */
  predicate StakesWith(s: Shared, tx: Payload, pubkey: string) {
    Names(tx, "stake", pubkey) && Exists(s, pubkey) && AmountOf(tx) >= s.parameters.minimalStake as int
  }

  /** An unstaking counts when the unstaker has so much at the validator. */
  predicate UnstakesFrom(s: Shared, tx: Payload, pubkey: string) {
    Names(tx, "unstake", pubkey) && IsStaker(s, pubkey, Field(tx, "unstaker"))
      && AmountOf(tx) <= StakeIn(s, pubkey, Field(tx, "unstaker"))
  }

  /** What a transaction adds to the stake that somebody has with a validator. */
  function StakeMoved(s: Shared, tx: Payload, pubkey: string, staker: string): int {
    if StakesWith(s, tx, pubkey) && Field(tx, "staker") == staker then AmountOf(tx)
    else if UnstakesFrom(s, tx, pubkey) && Field(tx, "unstaker") == staker then -AmountOf(tx)
    else 0
  }

  /** A stake is part of its validator's total, which is part of everything staked. */
  lemma StakeWithinAll(s: Shared, pubkey: string, staker: string)
    requires AllBalanced(s)
    ensures StakeIn(s, pubkey, staker) <= TotalIn(s, pubkey) <= AllStake(s)
  {
    if Exists(s, pubkey) {
      var v := s.validators[StorageKey(pubkey)];
      AllStakeAfterUpdate(s, StorageKey(pubkey), v);
      SumAfterUpdate(v.stakers, Whole, staker, 0);
    }
  }

  lemma StakeMoves(s: Shared, tx: Payload, pubkey: string, staker: string)
    requires AllBalanced(s) && AllStake(s) + AmountOf(tx) < LIMIT && Field(tx, "type") == "stake"
    ensures StakeIn(Stake(s, tx), pubkey, staker) ==
            StakeIn(s, pubkey, staker) + if StakesWith(s, tx, pubkey) && Field(tx, "staker") == staker then
              AmountOf(tx) else 0
    ensures IsStaker(Stake(s, tx), pubkey, staker) <==>
            IsStaker(s, pubkey, staker) || (StakesWith(s, tx, pubkey) && Field(tx, "staker") == staker)
  {
    StakeWithinAll(s, pubkey, staker);
    StorageKeyInjective(pubkey, Field(tx, "validatorPubKey"));
  }

  lemma UnstakeMoves(s: Shared, tx: Payload, pubkey: string, staker: string)
    requires Field(tx, "type") == "unstake"
    ensures StakeIn(Unstake(s, tx), pubkey, staker) ==
            StakeIn(s, pubkey, staker)
            - if UnstakesFrom(s, tx, pubkey) && Field(tx, "unstaker") == staker then AmountOf(tx) else 0
    ensures IsStaker(Unstake(s, tx), pubkey, staker) <==>
            IsStaker(s, pubkey, staker)
            && !(UnstakesFrom(s, tx, pubkey) && Field(tx, "unstaker") == staker
                 && StakeIn(s, pubkey, staker) == AmountOf(tx))
  {
    StorageKeyInjective(pubkey, Field(tx, "validatorPubKey"));
  }

  /** No other kind of transaction moves a stake. */
  lemma OthersMoveNoStake(e: Electorate, s: Shared, tx: Payload, pubkey: string, staker: string)
    requires Field(tx, "type") != "stake" && Field(tx, "type") != "unstake"
    ensures StakeIn(Apply(e, s, tx), pubkey, staker) == StakeIn(s, pubkey, staker)
    ensures IsStaker(s, pubkey, staker) ==> IsStaker(Apply(e, s, tx), pubkey, staker)
  {
    StorageKeyInjective(pubkey, Field(tx, "creator"));
  }

  /** The stake of everybody with everyone after a transaction. */
  lemma StakeAfter(e: Electorate, s: Shared, tx: Payload, pubkey: string, staker: string)
    requires AllBalanced(s) && AllStake(s) + StakeOf(tx) as nat < LIMIT
    ensures StakeIn(Apply(e, s, tx), pubkey, staker) == StakeIn(s, pubkey, staker) + StakeMoved(s, tx, pubkey, staker)
  {
    match Field(tx, "type")
    case "stake" => StakeMoves(s, tx, pubkey, staker);
    case "unstake" => UnstakeMoves(s, tx, pubkey, staker);
    case _ => OthersMoveNoStake(e, s, tx, pubkey, staker);
  }

  /** Taking out what was just staked gives the validator back as it was, exactly unless the staker was listed with
  nothing: who is then taken off the list, as happens to a creator. */
  lemma UnstakeUndoesStakeIff(v: Validator, staker: string, amount: uint64)
    requires v.totalStaked as int + amount as int < LIMIT && StakeAt(v, staker) as int + amount as int < LIMIT
    ensures Unstaked(Staked(v, staker, amount), staker, amount) == v <==>
            !(staker in v.stakers && v.stakers[staker] == 0)
  {
    var back := Unstaked(Staked(v, staker, amount), staker, amount);
    if staker in v.stakers && v.stakers[staker] == 0 {
      assert staker !in back.stakers;
    } else {
      assert back.stakers == v.stakers;
    }
  }

  // ---------------------------------------------------------------------------------------------
  // The registry
  // ---------------------------------------------------------------------------------------------

  /** Dropping the first occurrence leaves the rest in its order. */
  lemma {:induction false} RemoveFirstSplits(before: seq<string>, x: string, after: seq<string>)
    requires x !in before
    ensures RemoveFirst(before + [x] + after, x) == before + after
  {
    var all := before + [x] + after;
    if before == [] {
      assert all[1..] == after && before + after == after;
    } else {
      assert all[0] == before[0] && all[1..] == before[1..] + [x] + after;
      RemoveFirstSplits(before[1..], x, after);
      assert before + after == [before[0]] + (before[1..] + after);
    }
  }

  lemma {:induction false} RemoveFirstAbsent(s: seq<string>, x: string)
    requires x !in s
    ensures RemoveFirst(s, x) == s
  {
    if s != [] {
      RemoveFirstAbsent(s[1..], x);
    }
  }

  /** Who is registered after a transaction: a stake registers its validator when the new total reaches the requirement,
  an unstaking takes it off when the new total falls below; nothing else changes the registry. */
  lemma RegisteredAfter(e: Electorate, s: Shared, tx: Payload, pubkey: string)
    requires NoDuplicates(s.registry)
    ensures var after := Apply(e, s, tx);
            pubkey in after.registry <==>
            || (pubkey in s.registry
                && !(UnstakesFrom(s, tx, pubkey) && TotalIn(after, pubkey) < s.parameters.requiredStake as int))
            || (StakesWith(s, tx, pubkey) && TotalIn(after, pubkey) >= s.parameters.requiredStake as int)
  {
    RemoveFirstHas(s.registry, Field(tx, "validatorPubKey"));
    StorageKeyInjective(pubkey, Field(tx, "validatorPubKey"));
  }

  lemma RegistryChanges(e: Electorate, s: Shared, tx: Payload)
    ensures var pubkey, registry := Field(tx, "validatorPubKey"), Apply(e, s, tx).registry;
            registry in {s.registry, RemoveFirst(s.registry, pubkey)}
            || (pubkey !in s.registry && registry == s.registry + [pubkey])
  {
  }

  lemma {:induction false} SplitAtFirst(s: seq<string>, x: string) returns (before: seq<string>, after: seq<string>)
    requires x in s
    ensures s == before + [x] + after && x !in before
  {
    if s[0] == x {
      before, after := [], s[1..];
    } else {
      before, after := SplitAtFirst(s[1..], x);
      before := [s[0]] + before;
      assert s == [s[0]] + s[1..];
    }
  }

  /** Whoever joins the registry is put last, whoever leaves it leaves the others in their order. */
  lemma RegistryKeepsOrder(e: Electorate, s: Shared, tx: Payload) returns (before: seq<string>, after: seq<string>)
    ensures var pubkey, registry := Field(tx, "validatorPubKey"), Apply(e, s, tx).registry;
            || registry == s.registry
            || (pubkey !in s.registry && registry == s.registry + [pubkey])
            || (s.registry == before + [pubkey] + after && pubkey !in before && registry == before + after)
  {
    var pubkey := Field(tx, "validatorPubKey");
    RegistryChanges(e, s, tx);
    before, after := [], [];
    if pubkey in s.registry {
      before, after := SplitAtFirst(s.registry, pubkey);
      RemoveFirstSplits(before, pubkey, after);
    } else {
      RemoveFirstAbsent(s.registry, pubkey);
    }
  }

  // ---------------------------------------------------------------------------------------------
  // Descriptions
  // ---------------------------------------------------------------------------------------------

  datatype Description = Description(owner: string, url: string, wssUrl: string, percentage: int)

  function DescriptionOf(s: Shared, pubkey: string): Option<Description> {
    if !Exists(s, pubkey) then None
    else
      var v := s.validators[StorageKey(pubkey)];
      Some(Description(v.pubkey, v.url, v.wssUrl, v.percentage))
  }

  /** The percentage of a payload: what it says if that fits eight bits, and otherwise none. */
  function SharePercentage(tx: Payload): int {
    var value := ParseUint64(Field(tx, "percentage"));
    if value.Some? && value.value < 256 then value.value as int else 0
  }

  /** The transaction describes this validator, in full. */
  predicate Describes(tx: Payload, kind: string, pubkey: string) {
    Field(tx, "type") == kind && Field(tx, "creator") == pubkey && Field(tx, "validatorURL") != ""
      && Field(tx, "wssValidatorURL") != "" && SharePercentage(tx) <= 100
  }

  /** How each validator is described after a transaction: only a creation of a new one and an update of an existing one
  say anything, under the names that the payload uses. */
  lemma DescriptionAfter(e: Electorate, s: Shared, tx: Payload, pubkey: string)
    ensures var was, now := DescriptionOf(s, pubkey), DescriptionOf(Apply(e, s, tx), pubkey);
            && (Describes(tx, "createValidator", pubkey) && was.None? ==>
                 now == Some(Description(pubkey, Field(tx, "validatorURL"), Field(tx, "wssValidatorURL"),
                     SharePercentage(tx))))
            && (Describes(tx, "updateValidator", pubkey) && was.Some? ==>
                 now == Some(Description(was.value.owner, Field(tx, "validatorURL"), Field(tx, "wssValidatorURL"),
                     SharePercentage(tx))))
            && (now == was
                || (Describes(tx, "createValidator", pubkey) && was.None?)
                || (Describes(tx, "updateValidator", pubkey) && was.Some?))
  {
    StorageKeyInjective(pubkey, Field(tx, "creator"));
    StorageKeyInjective(pubkey, Field(tx, "validatorPubKey"));
  }

  /** Every validator is kept under its own key, with both addresses and a percentage that is one. */
  ghost predicate WellDescribed(s: Shared) {
    forall pubkey | Exists(s, pubkey) ::
      var d := DescriptionOf(s, pubkey).value;
      d.owner == pubkey && d.url != "" && d.wssUrl != "" && 0 <= d.percentage <= 100
  }

  lemma {:induction false} ListKeepsWellDescribed(e: Electorate, s: Shared, txs: seq<Payload>)
    requires WellDescribed(s)
    ensures WellDescribed(AfterList(e, s, txs))
    decreases |txs|
  {
    if txs != [] {
      var after := Apply(e, s, txs[0]);
      forall pubkey | Exists(after, pubkey)
        ensures var d := DescriptionOf(after, pubkey).value;
                d.owner == pubkey && d.url != "" && d.wssUrl != "" && 0 <= d.percentage <= 100
      {
        DescriptionAfter(e, s, txs[0], pubkey);
        assert DescriptionOf(s, pubkey).Some? ==> Exists(s, pubkey);
      }
      ListKeepsWellDescribed(e, after, txs[1..]);
    }
  }

  // ---------------------------------------------------------------------------------------------
  // Parameters and version
  // ---------------------------------------------------------------------------------------------

  /** The value of the parameter that votes call so. */
  function ParameterOf(p: Parameters, name: string): Option<int> {
    match name
    case "VALIDATOR_REQUIRED_STAKE" => Some(p.requiredStake as int)
    case "MINIMAL_STAKE_PER_STAKER" => Some(p.minimalStake as int)
    case "QUORUM_SIZE" => Some(p.quorumSize)
    case "EPOCH_DURATION" => Some(p.epochDuration)
    case "LEADERSHIP_DURATION" => Some(p.leadershipDuration)
    case "BLOCK_TIME" => Some(p.blockTime)
    case "MAX_BLOCK_SIZE_IN_BYTES" => Some(p.maxBlockSize)
    case "TXS_LIMIT_PER_BLOCK" => Some(p.txLimit)
    case _ => None
  }

  /** The stake parameters take any unsigned number, the others a signed one that is not negative. */
  function VotedNumber(name: string, text: string): Option<int> {
    if name in {"VALIDATOR_REQUIRED_STAKE", "MINIMAL_STAKE_PER_STAKER"} then
      var value := ParseUint64(text);
      if value.Some? then Some(value.value as int) else None
    else
      var value := ParseInt64(text);
      if value.Some? && value.value >= 0 then value else None
  }

  /** There are agreements, and those that are genuine signatures of quorum members over the ballot are a majority. */
  predicate Agreed(e: Electorate, agreements: Signatures.Signatures, ballot: Signatures.Payload) {
    agreements != map[]
    && Signatures.IsMajority(
         e.quorum, Signatures.VerifiedSigners(agreements, Signatures.Members(e.quorum), ballot))
  }

  /** A vote of the majority to set this parameter to this number. */
  predicate Sets(e: Electorate, s: Shared, tx: Payload, name: string, number: int) {
    && Field(tx, "type") == "votingAccept" && Field(tx, "votingType") == "parameters"
       && Field(tx, "updateField") == name
    && ParameterOf(s.parameters, name).Some? && VotedNumber(name, Field(tx, "newValue")) == Some(number)
    && Agreed(e, e.decode(Field(tx, "agreements")),
         Signatures.ParameterVote(e.epoch, name, Field(tx, "newValue")))
  }

  predicate SetsVersion(e: Electorate, tx: Payload, version: int) {
    && Field(tx, "type") == "votingAccept" && Field(tx, "votingType") == "version"
    && VotedNumber("version", Field(tx, "newMajorVersion")) == Some(version)
    && Agreed(e, e.decode(Field(tx, "agreements")), Signatures.VersionVote(e.epoch, version))
  }

  lemma UpdateReadsBack(p: Parameters, field: string, text: string, name: string)
    ensures var updated := ParameterUpdate(p, field, text);
            && (updated.Some? <==> ParameterOf(p, field).Some? && VotedNumber(field, text).Some?)
            && (updated.Some? ==>
                 ParameterOf(updated.value, name) ==
                 if name == field then VotedNumber(field, text) else ParameterOf(p, name))
  {
  }

  lemma OthersKeepParameters(e: Electorate, s: Shared, tx: Payload)
    requires !(Field(tx, "type") == "votingAccept" && Field(tx, "votingType") == "parameters")
    ensures Apply(e, s, tx).parameters == s.parameters
  {
  }

  /** Every parameter after a transaction: the one that a majority votes on has the voted number, all others stay. */
  lemma ParameterAfter(e: Electorate, s: Shared, tx: Payload, name: string, number: int)
    ensures var was, now := ParameterOf(s.parameters, name), ParameterOf(Apply(e, s, tx).parameters, name);
            && (Sets(e, s, tx, name, number) ==> now == Some(number))
            && (now != was && now == Some(number) ==> Sets(e, s, tx, name, number))
            && (was.Some? <==> now.Some?)
  {
    if Field(tx, "type") == "votingAccept" && Field(tx, "votingType") == "parameters" {
      UpdateReadsBack(s.parameters, Field(tx, "updateField"), Field(tx, "newValue"), name);
    } else {
      OthersKeepParameters(e, s, tx);
    }
  }

  /** The version after a transaction. */
  lemma VersionAfter(e: Electorate, s: Shared, tx: Payload, version: int)
    ensures SetsVersion(e, tx, version) ==> Apply(e, s, tx).version == version
    ensures Apply(e, s, tx).version != s.version ==> SetsVersion(e, tx, Apply(e, s, tx).version)
  {
  }

  // ---------------------------------------------------------------------------------------------
  // Batches
  // ---------------------------------------------------------------------------------------------

  /** A creation of a validator that exists, but only in the touched set: its stakes are gone. */
  predicate Recreates(b: Batch, tx: Payload, pubkey: string) {
    Describes(tx, "createValidator", pubkey) && Hidden(b, StorageKey(pubkey))
  }

  /** What a transaction of a batch adds to a stake. */
  function StakeMovedIn(b: Batch, tx: Payload, pubkey: string, staker: string): int {
    if Recreates(b, tx, pubkey) then -StakeIn(b.shared, pubkey, staker)
    else StakeMoved(b.shared, tx, pubkey, staker)
  }

  lemma StakeAfterCreation(b: Batch, tx: Payload, cap: int, pubkey: string, staker: string)
    requires Layered(b) && Field(tx, "type") == "createValidator"
    ensures StakeIn(CreatedIn(b, tx, cap).shared, pubkey, staker) ==
            if Recreates(b, tx, pubkey) then 0 else StakeIn(b.shared, pubkey, staker)
  {
    StorageKeyInjective(pubkey, Field(tx, "creator"));
  }

  lemma StakeAfterStep(e: Electorate, b: Batch, tx: Payload, cap: int, pubkey: string, staker: string)
    requires Layered(b) && AllBalanced(b.shared) && AllStake(b.shared) + StakeOf(tx) as nat < LIMIT
    ensures StakeIn(ApplyIn(e, b, tx, cap).shared, pubkey, staker) ==
            StakeIn(b.shared, pubkey, staker) + StakeMovedIn(b, tx, pubkey, staker)
  {
    SharedAfterApply(e, b, tx, cap);
    if Field(tx, "type") == "createValidator" {
      StakeAfterCreation(b, tx, cap, pubkey, staker);
    } else {
      StakeAfter(e, b.shared, tx, pubkey, staker);
    }
  }

  function AllStakeMoved(e: Electorate, b: Batch, txs: seq<Payload>, cap: int, pubkey: string, staker: string): int
    decreases |txs|
  {
    if txs == [] then 0
    else
      StakeMovedIn(b, txs[0], pubkey, staker)
      + AllStakeMoved(e, ApplyIn(e, b, txs[0], cap), txs[1..], cap, pubkey, staker)
  }

  /** What a transaction of a batch pays to an account: what is unstaked goes to its unstaker. */
  function Payment(s: Shared, tx: Payload, id: string): int {
    if UnstakesFrom(s, tx, Field(tx, "validatorPubKey")) && Field(tx, "unstaker") == id then AmountOf(tx) else 0
  }

  function AllPaid(e: Electorate, b: Batch, txs: seq<Payload>, cap: int, id: string): int
    decreases |txs|
  {
    if txs == [] then 0 else Payment(b.shared, txs[0], id) + AllPaid(e, ApplyIn(e, b, txs[0], cap), txs[1..], cap, id)
  }

  lemma PaymentIsPaid(s: Shared, accounts: Accounts, tx: Payload, id: string)
    requires Balances(accounts) + Unlocked(s, tx) < LIMIT
    ensures BalanceOf(Refunded(accounts, Refund(s, tx)), id) == BalanceOf(accounts, id) + Payment(s, tx, id)
  {
    var refund := Refund(s, tx);
    if refund.Some? {
      BalancesAfterUpdate(accounts, refund.value.0, NEW_ACCOUNT);
    }
  }

  /** After any list under any cap: a stake is what it was, plus the accepted stakes of that staker and less the
  accepted unstakings and what a creation wiped; a balance is what it was, plus all that was unstaked to it. */
  lemma {:induction false} BatchMoves(
      e: Electorate, b: Batch, accounts: Accounts, txs: seq<Payload>, cap: int, pubkey: string, id: string)
    requires Layered(b) && Sound(b.shared) && Owned(World(b.shared, accounts)) + Stakes(txs) < LIMIT
    ensures StakeIn(AfterBatch(e, b, txs, cap).shared, pubkey, id) ==
            StakeIn(b.shared, pubkey, id) + AllStakeMoved(e, b, txs, cap, pubkey, id)
    ensures BalanceOf(PaidIn(e, b, accounts, txs, cap), id) ==
            BalanceOf(accounts, id) + AllPaid(e, b, txs, cap, id)
    decreases |txs|
  {
    if txs != [] {
      StakesFromHead(txs);
      StepAccounts(e, b, txs[0], cap);
      RefundKeepsBalances(World(b.shared, accounts), txs[0]);
      StakeAfterStep(e, b, txs[0], cap, pubkey, id);
      PaymentIsPaid(b.shared, accounts, txs[0], id);
      BatchMoves(
        e, ApplyIn(e, b, txs[0], cap), Refunded(accounts, Refund(b.shared, txs[0])), txs[1..], cap, pubkey, id);
    }
  }

  // ---------------------------------------------------------------------------------------------
  // Votes need honest members
  // ---------------------------------------------------------------------------------------------

  lemma SetHasHonestVote(
      e: Electorate, s: Shared, tx: Payload, name: string, number: int, honest: set<string>, issued: Signatures.Issued)
    returns (k: string)
    requires Signatures.MostlyHonest(e.quorum, honest) && Sets(e, s, tx, name, number)
    requires Signatures.Unforged(e.decode(Field(tx, "agreements")), honest, issued)
    ensures k in honest && k in e.quorum
            && (k, Signatures.ParameterVote(e.epoch, name, Field(tx, "newValue"))) in issued
  {
    var ballot := Signatures.ParameterVote(e.epoch, name, Field(tx, "newValue"));
    Signatures.VerifiedImpliesBacked(e.decode(Field(tx, "agreements")), e.quorum, honest, issued, ballot);
    k := Signatures.BackedHasHonestSigner(e.quorum, honest, issued, ballot);
  }

  lemma StepParameters(e: Electorate, b: Batch, tx: Payload, cap: int)
    ensures ApplyIn(e, b, tx, cap).shared.parameters == Apply(e, b.shared, tx).parameters
  {
    if Field(tx, "type") == "createValidator" {
      OthersKeepParameters(e, b.shared, tx);
    }
  }

  /** When a parameter is not the same after a batch, an honest quorum member has voted for the number that it has. */
  lemma {:induction false} ChangeHasHonestVote(
      e: Electorate, b: Batch, txs: seq<Payload>, cap: int, name: string, honest: set<string>,
      issued: Signatures.Issued) returns (k: string, text: string)
    requires Signatures.MostlyHonest(e.quorum, honest)
    requires forall tx | tx in txs :: Signatures.Unforged(e.decode(Field(tx, "agreements")), honest, issued)
    requires ParameterOf(AfterBatch(e, b, txs, cap).shared.parameters, name) != ParameterOf(b.shared.parameters, name)
    ensures k in honest && k in e.quorum && (k, Signatures.ParameterVote(e.epoch, name, text)) in issued
    ensures ParameterOf(AfterBatch(e, b, txs, cap).shared.parameters, name) == VotedNumber(name, text)
    decreases |txs|
  {
    var after, next := AfterBatch(e, b, txs, cap).shared.parameters, ApplyIn(e, b, txs[0], cap);
    if ParameterOf(after, name) == ParameterOf(next.shared.parameters, name) {
      StepParameters(e, b, txs[0], cap);
      var number := ParameterOf(after, name).value;
      ParameterAfter(e, b.shared, txs[0], name, number);
      k := SetHasHonestVote(e, b.shared, txs[0], name, number, honest, issued);
      text := Field(txs[0], "newValue");
    } else {
      k, text := ChangeHasHonestVote(e, next, txs[1..], cap, name, honest, issued);
    }
  }
}
