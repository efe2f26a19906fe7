/** A list without votes or rejected stakes whose run over a cache of one leaves a registered validator
without stake. */
module BatchWitness {
  import opened Wrappers
  import opened Integers
  import opened Ledger
  import opened BatchLaws
  import opened DelayedBatches
  import opened DelayedTransactions

  const A := StorageKey("a")
  const B := StorageKey("b")
  const STAKE_FIVE: Payload := map["type" := "stake", "validatorPubKey" := "b", "staker" := "s", "amount" := "5"]

  function FromThird(): seq<Payload> {
    [STAKE_FIVE] + [Creation("b", "v")]
  }

  function FromSecond(): seq<Payload> {
    [Creation("b", "u")] + FromThird()
  }

  /** Creates "a" and "b", stakes five with "b", and creates "b" again. */
  function CreatedOverStake(): seq<Payload> {
    [Creation("a", "u")] + FromSecond()
  }

  predicate Empty(s: Shared) {
    s.validators == map[] && s.registry == [] && 0 < s.parameters.requiredStake <= 5 && s.parameters.minimalStake <= 5
  }

  function Staking(): Validator {
    Staked(NewValidator(Creation("b", "u")), "s", 5)
  }

  /** The batch after one, two, three and four transactions: "b" is hidden from its creation on. */
  function First(s: Shared): Batch {
    Batch(s.(validators := s.validators[A := NewValidator(Creation("a", "u"))]), {}, {A}, {A})
  }

  function Second(s: Shared): Batch {
    var t := First(s).shared;
    Batch(t.(validators := t.validators[B := NewValidator(Creation("b", "u"))]), {}, {A, B}, {A})
  }

  function Third(s: Shared): Batch {
    var t := Second(s).shared;
    Batch(t.(validators := t.validators[B := Staking()], registry := ["b"]), {}, {A, B}, {A})
  }

  function Fourth(s: Shared): Batch {
    var t := Third(s).shared;
    Batch(t.(validators := t.validators[B := NewValidator(Creation("b", "v"))]), {}, {A, B}, {A, B})
  }

  lemma FirstStep(e: Electorate, s: Shared)
    requires Empty(s)
    ensures ApplyIn(e, Start(s), Creation("a", "u"), 1) == First(s)
  {
    CreationStep(e, Start(s), "a", "u", 1);
  }

  lemma SecondStep(e: Electorate, s: Shared)
    requires Empty(s)
    ensures ApplyIn(e, First(s), Creation("b", "u"), 1) == Second(s)
  {
    StorageKeyInjective("a", "b");
    CreationStep(e, First(s), "b", "u", 1);
  }

  lemma StakeFiveFields()
    ensures Field(STAKE_FIVE, "type") == "stake" && Field(STAKE_FIVE, "validatorPubKey") == "b"
    ensures Field(STAKE_FIVE, "staker") == "s" && ParseUint64(Field(STAKE_FIVE, "amount")) == Some(5)
    ensures StakeOf(STAKE_FIVE) == 5
  {
    assert "5"[..0] == "";
    assert Digits("5") == Some(5);
  }

  lemma StakeFive(s: Shared)
    requires Empty(s)
    ensures StakeAccepted(Second(s).shared, STAKE_FIVE) && Stake(Second(s).shared, STAKE_FIVE) == Third(s).shared
  {
    StakeFiveFields();
    assert [] + ["b"] == ["b"];
  }

  lemma ThirdStep(e: Electorate, s: Shared)
    requires Empty(s)
    ensures ApplyIn(e, Second(s), STAKE_FIVE, 1) == Third(s)
  {
    StakeFiveFields();
    StakeFive(s);
    assert {A, B} + {B} == {A, B};
  }

  lemma FourthStep(e: Electorate, s: Shared)
    requires Empty(s)
    ensures ApplyIn(e, Third(s), Creation("b", "v"), 1) == Fourth(s)
  {
    StorageKeyInjective("a", "b");
    CreationStep(e, Third(s), "b", "v", 1);
    assert {A, B} + {B} == {A, B} && {A} + {B} == {A, B};
  }

  lemma AfterHead(e: Electorate, b: Batch, accounts: Accounts, tx: Payload, rest: seq<Payload>, cap: int)
    ensures AfterBatch(e, b, [tx] + rest, cap) == AfterBatch(e, ApplyIn(e, b, tx, cap), rest, cap)
    ensures Field(tx, "type") != "unstake" ==>
              PaidIn(e, b, accounts, [tx] + rest, cap) == PaidIn(e, ApplyIn(e, b, tx, cap), accounts, rest, cap)
  {
    assert ([tx] + rest)[1..] == rest;
  }

  lemma RejectsHead(e: Electorate, s: Shared, tx: Payload, rest: seq<Payload>)
    ensures RejectsStake(e, s, [tx] + rest) <==>
            (Field(tx, "type") == "stake" && StakeOf(tx) > 0 && !StakeAccepted(s, tx))
            || RejectsStake(e, Apply(e, s, tx), rest)
  {
    assert ([tx] + rest)[1..] == rest;
  }

  lemma RunsFromThird(e: Electorate, s: Shared, accounts: Accounts)
    requires Empty(s)
    ensures WorldAfter(e, Second(s), accounts, FromThird(), 1) == World(Fourth(s).shared, accounts)
  {
    ThirdStep(e, s);
    FourthStep(e, s);
    StakeFiveFields();
    AfterHead(e, Second(s), accounts, STAKE_FIVE, [Creation("b", "v")], 1);
    AfterHead(e, Third(s), accounts, Creation("b", "v"), [], 1);
    assert [Creation("b", "v")] + [] == [Creation("b", "v")];
  }

  lemma RunsFromSecond(e: Electorate, s: Shared, accounts: Accounts)
    requires Empty(s)
    ensures WorldAfter(e, First(s), accounts, FromSecond(), 1) == World(Fourth(s).shared, accounts)
  {
    SecondStep(e, s);
    AfterHead(e, First(s), accounts, Creation("b", "u"), FromThird(), 1);
    RunsFromThird(e, s, accounts);
  }

  lemma RunsToFourth(e: Electorate, s: Shared, accounts: Accounts)
    requires Empty(s)
    ensures WorldAfter(e, Start(s), accounts, CreatedOverStake(), 1) == World(Fourth(s).shared, accounts)
  {
    FirstStep(e, s);
    AfterHead(e, Start(s), accounts, Creation("a", "u"), FromSecond(), 1);
    RunsFromSecond(e, s, accounts);
  }

  lemma PlainSteps(e: Electorate, s: Shared)
    requires Empty(s)
    ensures Apply(e, s, Creation("a", "u")) == First(s).shared
    ensures Apply(e, First(s).shared, Creation("b", "u")) == Second(s).shared
  {
    StorageKeyInjective("a", "b");
  }

  lemma NothingRejectedFromThird(e: Electorate, s: Shared)
    requires Empty(s)
    ensures !RejectsStake(e, Second(s).shared, FromThird())
  {
    StakeFive(s);
    RejectsHead(e, Second(s).shared, STAKE_FIVE, [Creation("b", "v")]);
    RejectsHead(e, Apply(e, Second(s).shared, STAKE_FIVE), Creation("b", "v"), []);
    assert [Creation("b", "v")] + [] == [Creation("b", "v")];
  }

  lemma NothingRejected(e: Electorate, s: Shared)
    requires Empty(s)
    ensures !RejectsStake(e, s, CreatedOverStake())
  {
    PlainSteps(e, s);
    RejectsHead(e, s, Creation("a", "u"), FromSecond());
    RejectsHead(e, First(s).shared, Creation("b", "u"), FromThird());
    NothingRejectedFromThird(e, s);
  }

  lemma FourthHasNoStake(s: Shared)
    requires Empty(s)
    ensures AllStake(Fourth(s).shared) == AllStake(s) == 0
    ensures Fourth(s).shared.validators[B].totalStaked == 0
  {
    NewValidatorBalanced(Creation("a", "u"));
    NewValidatorBalanced(Creation("b", "u"));
    NewValidatorBalanced(Creation("b", "v"));
    StorageKeyInjective("a", "b");
    AllStakeAfterUpdate(s, A, NewValidator(Creation("a", "u")));
    AllStakeAfterUpdate(First(s).shared, B, NewValidator(Creation("b", "u")));
    AllStakeAfterUpdate(Second(s).shared, B, Staking());
    AllStakeAfterUpdate(Third(s).shared, B, NewValidator(Creation("b", "v")));
  }

  lemma FivePending()
    ensures Stakes(CreatedOverStake()) == 5
  {
    StakeFiveFields();
    StakesFromHead(CreatedOverStake());
    assert CreatedOverStake()[1..] == FromSecond();
    StakesFromHead(FromSecond());
    assert FromSecond()[1..] == FromThird();
    StakesFromHead(FromThird());
    assert FromThird()[1..] == [Creation("b", "v")];
    StakesFromHead([Creation("b", "v")]);
  }

  lemma NoVotes()
    ensures forall tx | tx in CreatedOverStake() :: !VotesOnRequirement(tx)
  {
    StakeFiveFields();
  }

  lemma FourthIsUnqualified(s: Shared)
    requires Empty(s)
    ensures "b" in Fourth(s).shared.registry && !RegistryQualified(Fourth(s).shared)
  {
    assert !Qualified(Fourth(s).shared.validators, "b", s.parameters.requiredStake);
  }

  /** From any empty state with a positive requirement of at most five: the list holds no vote and rejects no stake, and
  over a cap of one it leaves "b" registered without stake, and the five that were pending are nowhere. */
  lemma RegisteredWithoutStake(e: Electorate, s: Shared, accounts: Accounts)
    requires Empty(s)
    ensures var txs := CreatedOverStake(); var w := WorldAfter(e, Start(s), accounts, txs, 1);
            && RegistryQualified(s) && (forall tx | tx in txs :: !VotesOnRequirement(tx))
            && "b" in w.shared.registry && !RegistryQualified(w.shared)
            && Stakes(txs) == 5 && AllStake(w.shared) == AllStake(s) == 0 && w.accounts == accounts
            && !RejectsStake(e, s, txs)
  {
    RunsToFourth(e, s, accounts);
    NothingRejected(e, s);
    FourthHasNoStake(s);
    FourthIsUnqualified(s);
    FivePending();
    NoVotes();
  }
}
