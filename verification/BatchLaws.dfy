/** What a list of delayed transactions over a validator cache keeps and what it conserves: the stake, the registry, and
exactly where either is lost. */
module BatchLaws {
  import opened Wrappers
  import opened Integers
  import opened MapSums
  import opened Ledger
  import opened DelayedBatches
  import opened DelayedTransactions
  import Signatures

  // ---------------------------------------------------------------------------------------------
  // Stake
  // ---------------------------------------------------------------------------------------------

  /** The stake that the transaction takes out of the books by creating a hidden validator again. */
  function Wiped(b: Batch, tx: Payload): nat {
    if Field(tx, "type") == "createValidator" then Replaced(b, tx) else 0
  }

  /** One transaction: what was pending is staked or lost, what is unlocked or wiped was staked. */
  lemma StepAccounts(e: Electorate, b: Batch, tx: Payload, cap: int)
    requires Layered(b) && Sound(b.shared) && AllStake(b.shared) + StakeOf(tx) as nat < LIMIT
    ensures var after := ApplyIn(e, b, tx, cap);
            && Layered(after) && Sound(after.shared)
            && AllStake(after.shared) + Unlocked(b.shared, tx) + Lost(b.shared, tx) + Wiped(b, tx) ==
               AllStake(b.shared) + StakeOf(tx) as nat
  {
    ApplyInKeepsLayers(e, b, tx, cap);
    SharedAfterApply(e, b, tx, cap);
    if Field(tx, "type") == "createValidator" {
      CreationStake(b, tx, cap);
    } else {
      ApplyKeepsSound(e, b.shared, tx);
    }
  }

  /** The stakes that the list rejects on its way. */
  function AllLostIn(e: Electorate, b: Batch, txs: seq<Payload>, cap: int): nat
    decreases |txs|
  {
    if txs == [] then 0 else Lost(b.shared, txs[0]) + AllLostIn(e, ApplyIn(e, b, txs[0], cap), txs[1..], cap)
  }

  /** The stakes of the hidden validators that it creates again. */
  function AllWiped(e: Electorate, b: Batch, txs: seq<Payload>, cap: int): nat
    decreases |txs|
  {
    if txs == [] then 0 else Wiped(b, txs[0]) + AllWiped(e, ApplyIn(e, b, txs[0], cap), txs[1..], cap)
  }

  /** The state and the accounts after the execution thread has run the list. */
  function WorldAfter(e: Electorate, b: Batch, accounts: Accounts, txs: seq<Payload>, cap: int): World {
    World(AfterBatch(e, b, txs, cap).shared, PaidIn(e, b, accounts, txs, cap))
  }

  /** Balances, stakes and what is still pending: the run of a list loses exactly the stakes it rejects and the stakes
  of the hidden validators it creates again. Totals stay the sums of their stakers, the registry free of duplicates. */
  lemma {:induction false} BatchLosesRejectedAndWiped(
      e: Electorate, b: Batch, accounts: Accounts, txs: seq<Payload>, cap: int)
    requires Layered(b) && Sound(b.shared) && Owned(World(b.shared, accounts)) + Stakes(txs) < LIMIT
    ensures Sound(AfterBatch(e, b, txs, cap).shared)
    ensures Owned(WorldAfter(e, b, accounts, txs, cap)) + AllLostIn(e, b, txs, cap) + AllWiped(e, b, txs, cap) ==
            Owned(World(b.shared, accounts)) + Stakes(txs)
    decreases |txs|
  {
    if txs != [] {
      StakesFromHead(txs);
      StepAccounts(e, b, txs[0], cap);
      RefundKeepsBalances(World(b.shared, accounts), txs[0]);
      BatchLosesRejectedAndWiped(
        e, ApplyIn(e, b, txs[0], cap), Refunded(accounts, Refund(b.shared, txs[0])), txs[1..], cap);
    }
  }

  /** The transaction is a positive stake that is rejected, or creates a hidden validator that has stake. */
  predicate Loses(b: Batch, tx: Payload) {
    var key := StorageKey(Field(tx, "creator"));
    || (Field(tx, "type") == "stake" && StakeOf(tx) > 0 && !StakeAccepted(b.shared, tx))
    || (CreatesKey(tx, key) && Hidden(b, key) && b.shared.validators[key].totalStaked > 0)
  }

  predicate LosesSomewhere(e: Electorate, b: Batch, txs: seq<Payload>, cap: int)
    decreases |txs|
  {
    txs != [] && (Loses(b, txs[0]) || LosesSomewhere(e, ApplyIn(e, b, txs[0], cap), txs[1..], cap))
  }

  lemma {:induction false} LosesIffPositive(e: Electorate, b: Batch, txs: seq<Payload>, cap: int)
    ensures AllLostIn(e, b, txs, cap) + AllWiped(e, b, txs, cap) > 0 <==> LosesSomewhere(e, b, txs, cap)
    decreases |txs|
  {
    if txs != [] {
      LosesIffPositive(e, ApplyIn(e, b, txs[0], cap), txs[1..], cap);
    }
  }

  /** The run of a list conserves balances, stakes and pending stakes exactly when it rejects no positive stake and
  creates no hidden validator that has stake. */
  lemma BatchConservesIff(e: Electorate, s: Shared, accounts: Accounts, txs: seq<Payload>, cap: int)
    requires Sound(s) && Owned(World(s, accounts)) + Stakes(txs) < LIMIT
    ensures Owned(WorldAfter(e, Start(s), accounts, txs, cap)) == Owned(World(s, accounts)) + Stakes(txs) <==>
            !LosesSomewhere(e, Start(s), txs, cap)
  {
    BatchLosesRejectedAndWiped(e, Start(s), accounts, txs, cap);
    LosesIffPositive(e, Start(s), txs, cap);
  }

  /** For a list that creates no validator twice past the cap this is the law of the plain map. */
  lemma LosesAsOnPlainMap(e: Electorate, s: Shared, accounts: Accounts, txs: seq<Payload>, cap: int)
    requires Sound(s) && Owned(World(s, accounts)) + Stakes(txs) < LIMIT && CreatesOnce(txs, cap)
    ensures LosesSomewhere(e, Start(s), txs, cap) <==> RejectsStake(e, s, txs)
  {
    BatchConservesIff(e, s, accounts, txs, cap);
    ReplayConservesIff(e, World(s, accounts), txs);
    BatchIsPlain(e, s, accounts, txs, cap);
  }

  // ---------------------------------------------------------------------------------------------
  // The registry
  // ---------------------------------------------------------------------------------------------

  lemma NewValidatorUnqualified(b: Batch, tx: Payload, cap: int)
    requires DescriptionOk(tx) && Hidden(b, StorageKey(Field(tx, "creator"))) && b.shared.parameters.requiredStake > 0
    ensures !Qualified(CreatedIn(b, tx, cap).shared.validators, Field(tx, "creator"), b.shared.parameters.requiredStake)
  {
  }

  /** A creation keeps every registered validator at the required stake, exactly unless it names a registered validator
  that is hidden and the requirement is positive. */
  lemma CreationKeepsQualifiedIff(b: Batch, tx: Payload, cap: int)
    requires Layered(b) && RegistryQualified(b.shared)
    ensures RegistryQualified(CreatedIn(b, tx, cap).shared) <==>
            !(DescriptionOk(tx) && Hidden(b, StorageKey(Field(tx, "creator")))
              && Field(tx, "creator") in b.shared.registry && b.shared.parameters.requiredStake > 0)
  {
    var creator := Field(tx, "creator");
    var s, after := b.shared, CreatedIn(b, tx, cap).shared;
    if DescriptionOk(tx) && Hidden(b, StorageKey(creator)) && creator in s.registry && s.parameters.requiredStake > 0 {
      NewValidatorUnqualified(b, tx, cap);
    } else if after != s {
      forall other | other in after.registry
        ensures Qualified(after.validators, other, s.parameters.requiredStake)
      {
        assert Qualified(s.validators, other, s.parameters.requiredStake);
        if other != creator {
          OthersStayQualified(s.validators, creator, NewValidator(tx), other, s.parameters.requiredStake);
        }
      }
    }
  }

  /** The transaction creates a registered hidden validator again while the requirement is positive, or is an accepted
  vote for a requirement that some registered validator does not have. */
  ghost predicate Unqualifies(e: Electorate, b: Batch, tx: Payload) {
    var creator := Field(tx, "creator");
    var voted := RequirementVoted(e, tx);
    || (CreatesKey(tx, StorageKey(creator)) && Hidden(b, StorageKey(creator)) && creator in b.shared.registry
        && b.shared.parameters.requiredStake > 0)
    || (Field(tx, "type") == "votingAccept" && voted.Some? && !AllQualified(b.shared, voted.value))
  }

  lemma StepKeepsQualifiedIff(e: Electorate, b: Batch, tx: Payload, cap: int)
    requires Layered(b) && Sound(b.shared) && AllStake(b.shared) + StakeOf(tx) as nat < LIMIT
    requires RegistryQualified(b.shared)
    ensures RegistryQualified(ApplyIn(e, b, tx, cap).shared) <==> !Unqualifies(e, b, tx)
  {
    match Field(tx, "type")
    case "createValidator" => CreationKeepsQualifiedIff(b, tx, cap);
    case "votingAccept" => VoteKeepsQualifiedIff(e, b.shared, tx);
    case _ => ApplyKeepsSound(e, b.shared, tx);
  }

  /** At every point of the run every registered validator has the required stake. */
  ghost predicate QualifiedThroughout(e: Electorate, b: Batch, txs: seq<Payload>, cap: int)
    decreases |txs|
  {
    && RegistryQualified(b.shared)
    && (txs != [] ==> QualifiedThroughout(e, ApplyIn(e, b, txs[0], cap), txs[1..], cap))
  }

  ghost predicate UnqualifiesSomewhere(e: Electorate, b: Batch, txs: seq<Payload>, cap: int)
    decreases |txs|
  {
    txs != [] && (Unqualifies(e, b, txs[0]) || UnqualifiesSomewhere(e, ApplyIn(e, b, txs[0], cap), txs[1..], cap))
  }

  /** Over any list: being registered keeps meaning to have the required stake throughout the run, exactly when no
  transaction on the way is one of those. */
  lemma {:induction false} QualifiedThroughoutIff(e: Electorate, b: Batch, txs: seq<Payload>, cap: int)
    requires Layered(b) && Sound(b.shared) && AllStake(b.shared) + Stakes(txs) < LIMIT && RegistryQualified(b.shared)
    ensures QualifiedThroughout(e, b, txs, cap) <==> !UnqualifiesSomewhere(e, b, txs, cap)
    decreases |txs|
  {
    if txs != [] {
      StakesFromHead(txs);
      StepAccounts(e, b, txs[0], cap);
      StepKeepsQualifiedIff(e, b, txs[0], cap);
      if !Unqualifies(e, b, txs[0]) {
        QualifiedThroughoutIff(e, ApplyIn(e, b, txs[0], cap), txs[1..], cap);
      }
    }
  }

  lemma {:induction false} QualifiedAtEnd(e: Electorate, b: Batch, txs: seq<Payload>, cap: int)
    requires QualifiedThroughout(e, b, txs, cap)
    ensures RegistryQualified(AfterBatch(e, b, txs, cap).shared)
    decreases |txs|
  {
    if txs != [] {
      QualifiedAtEnd(e, ApplyIn(e, b, txs[0], cap), txs[1..], cap);
    }
  }

  /** Whatever is hidden and created again, each validator's total stays the sum of its stakers, the registry has no
  duplicates, and no stake comes from nowhere; where no transaction unqualifies a registered validator, being registered
  still means to have the required stake. */
  lemma {:induction false} BatchKeepsSound(e: Electorate, b: Batch, txs: seq<Payload>, cap: int)
    requires Layered(b) && Sound(b.shared) && AllStake(b.shared) + Stakes(txs) < LIMIT
    ensures Sound(AfterBatch(e, b, txs, cap).shared)
    ensures AllStake(AfterBatch(e, b, txs, cap).shared) <= AllStake(b.shared) + Stakes(txs)
    ensures RegistryQualified(b.shared) && !UnqualifiesSomewhere(e, b, txs, cap) ==>
              RegistryQualified(AfterBatch(e, b, txs, cap).shared)
    decreases |txs|
  {
    if txs != [] {
      StakesFromHead(txs);
      StepAccounts(e, b, txs[0], cap);
      BatchKeepsSound(e, ApplyIn(e, b, txs[0], cap), txs[1..], cap);
    }
    if RegistryQualified(b.shared) && !UnqualifiesSomewhere(e, b, txs, cap) {
      QualifiedThroughoutIff(e, b, txs, cap);
      QualifiedAtEnd(e, b, txs, cap);
    }
  }

  /** A list that creates no validator twice past the cap and holds no vote on the requirement keeps it. */
  lemma CreatesOnceKeepsQualified(e: Electorate, s: Shared, txs: seq<Payload>, cap: int)
    requires Sound(s) && AllStake(s) + Stakes(txs) < LIMIT && RegistryQualified(s)
    requires CreatesOnce(txs, cap) && forall tx | tx in txs :: !VotesOnRequirement(tx)
    ensures RegistryQualified(AfterBatch(e, Start(s), txs, cap).shared)
  {
    BatchIsPlain(e, s, map[], txs, cap);
    ListKeepsSound(e, s, txs);
  }
}
