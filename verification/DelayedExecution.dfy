/** Delayed transactions run in place over a thread's validator cache and registry, and their agreement between the
approvement thread, which decides the next epoch, and the execution thread, which replays the decided list. */
module DelayedExecution {
  import opened Wrappers
  import opened Integers
  import opened Ledger
  import opened BatchLaws
  import opened DelayedBatches
  import opened DelayedTransactions
  import opened WriteBackCache
  import Signatures

  /** The loop that drops the first occurrence from a list. */
  method RemoveFromList(s: seq<string>, x: string) returns (r: seq<string>)
    ensures r == RemoveFirst(s, x)
  {
    var i := 0;
    while i < |s|
      invariant 0 <= i <= |s|
      invariant s[..i] + RemoveFirst(s[i..], x) == RemoveFirst(s, x)
    {
      if s[i] == x {
        return s[..i] + s[i + 1..];
      }
      assert s[..i] + ([s[i]] + RemoveFirst(s[i + 1..], x)) == s[..i + 1] + RemoveFirst(s[i + 1..], x);
      i := i + 1;
    }
    return s;
  }

  method VerifyMajority(e: Electorate, agreements: Signatures.Signatures, ballot: Signatures.Payload) returns (ok: bool)
    ensures ok == MajorityAgrees(e, agreements, ballot)
  {
    if agreements == map[] {
      return false;
    }
    var verified := Signatures.CountVerifiedUniqueSignatures(agreements, Signatures.Members(e.quorum), ballot);
    ok := verified >= Signatures.Majority(|e.quorum|);
  }

  class ThreadContext {
    const validators: Cache<Validator>
    const electorate: Electorate
    var registry: seq<string>
    var parameters: Parameters
    var version: int

    ghost predicate Valid()
      reads this, validators, validators.cells
    {
      validators.Valid() && validators.Named()
    }

    ghost function State(): Shared
      requires validators.Objects()
      reads this, validators, validators.cells
    {
      Shared(validators.Contents(), registry, parameters, version)
    }

    /** The state together with what the creation check depends on. */
    ghost function Layers(): Batch
      requires validators.Objects()
      reads this, validators, validators.cells
    {
      Batch(State(), validators.store.Keys, validators.touched.Keys, validators.Kept())
    }

    constructor (cap: int, start: Shared, electorate: Electorate)
      ensures Valid() && State() == start && this.electorate == electorate
      ensures validators.cap == cap && validators.touched == map[] && validators.store == start.validators
      ensures fresh(validators) && validators.cells == {}
    {
      validators := new Cache(cap, Validator("", 0, 0, map[], "", ""), start.validators);
      this.electorate := electorate;
      registry, parameters, version := start.registry, start.parameters, start.version;
    }

    /** Every object the thread may change is its own or new. */
    twostate predicate OneStep()
      reads validators`cells
    {
      fresh(validators.cells - old(validators.cells)) && old(validators.cells) <= validators.cells
    }

    /** The creation check sees a validator that is cached or stored, and no other. */
    method CreateValidator(tx: Payload)
      requires Valid()
      modifies validators
      ensures Valid() && OneStep() && Layers() == CreatedIn(old(Layers()), tx, validators.cap)
    {
      if !DescriptionOk(tx) {
        return;
      }
      var key := StorageKey(Field(tx, "creator"));
      validators.CreationCheckExactIff(key);
      var _ := validators.CreateIfAbsent(key, NewValidator(tx));
    }

    /** The validator was touched, and this object holds its logical value. */
    ghost predicate HasCell(pubkey: string, cell: Cell<Validator>)
      requires validators.Objects()
      reads this, validators, validators.cells
    {
      && StorageKey(pubkey) in validators.touched && validators.touched[StorageKey(pubkey)] == cell
      && cell in validators.cells
      && StorageKey(pubkey) in State().validators && State().validators[StorageKey(pubkey)] == cell.value
    }

    method Fetch(pubkey: string) returns (found: Option<Cell<Validator>>)
      requires Valid()
      modifies validators
      ensures Valid() && OneStep() && Layers() == Fetched(old(Layers()), StorageKey(pubkey), validators.cap)
      ensures found.Some? <==> StorageKey(pubkey) in old(State()).validators
      ensures found.Some? ==> HasCell(pubkey, found.value)
    {
      ghost var before := Layers();
      found := validators.GetExisting(StorageKey(pubkey));
      assert State() == before.shared;
      if found.None? {
        assert Layers() == before;
      }
    }

    method Describe(pubkey: string, cell: Cell<Validator>, tx: Payload)
      requires Valid() && HasCell(pubkey, cell) && pubkey == Field(tx, "creator") && DescriptionOk(tx)
      modifies validators`cache, validators`lru, validators`index, cell
      ensures Valid()
      ensures Layers() == old(Layers()).(shared := DelayedTransactions.UpdateValidator(old(State()), tx))
    {
      validators.Write(StorageKey(pubkey), cell, Described(cell.value, tx));
      validators.Refresh(StorageKey(pubkey));
    }

    method Redescribe(pubkey: string, tx: Payload)
      requires Valid() && pubkey == Field(tx, "creator") && DescriptionOk(tx)
      modifies validators, validators.cells
      ensures Valid() && OneStep()
      ensures Layers() ==
              Fetched(old(Layers()), StorageKey(pubkey), validators.cap).(
                shared := DelayedTransactions.UpdateValidator(old(State()), tx))
    {
      var found := Fetch(pubkey);
      if found.Some? {
        Describe(pubkey, found.value, tx);
      }
    }

    method UpdateValidator(tx: Payload)
      requires Valid() && Field(tx, "type") == "updateValidator"
      modifies validators, validators.cells
      ensures Valid() && OneStep() && Layers() == ApplyIn(electorate, old(Layers()), tx, validators.cap)
    {
      if DescriptionOk(tx) {
        Redescribe(Field(tx, "creator"), tx);
      }
    }

    /** Writes through a fetched reference. */
    method Replace(pubkey: string, cell: Cell<Validator>, v: Validator)
      requires Valid() && HasCell(pubkey, cell)
      modifies cell
      ensures Valid()
      ensures var s := old(State());
              Layers() == old(Layers()).(shared := s.(validators := s.validators[StorageKey(pubkey) := v]))
    {
      validators.Write(StorageKey(pubkey), cell, v);
    }

    method SetRegistry(members: seq<string>)
      requires Valid()
      modifies `registry
      ensures Valid() && Layers() == old(Layers()).(shared := old(State()).(registry := members))
    {
      registry := members;
    }

    /** Adds a staker's amount to a fetched validator, which is registered once it has the required stake. */
    method AddStake(pubkey: string, cell: Cell<Validator>, staker: string, amount: uint64)
      requires Valid() && HasCell(pubkey, cell) && amount >= parameters.minimalStake
      modifies `registry, cell
      ensures Valid()
      ensures Layers() ==
              old(Layers()).(shared := DelayedTransactions.StakeBy(old(State()), pubkey, staker, amount))
    {
      var v := Staked(cell.value, staker, amount);
      Replace(pubkey, cell, v);
      if v.totalStaked >= parameters.requiredStake && pubkey !in registry {
        SetRegistry(registry + [pubkey]);
      }
    }

    method StakeBy(pubkey: string, staker: string, amount: uint64)
      requires Valid()
      modifies `registry, validators, validators.cells
      ensures Valid() && OneStep()
      ensures Layers() ==
              Fetched(old(Layers()), StorageKey(pubkey), validators.cap).(
                shared := DelayedTransactions.StakeBy(old(State()), pubkey, staker, amount))
    {
      var found := Fetch(pubkey);
      if found.Some? && amount >= parameters.minimalStake {
        AddStake(pubkey, found.value, staker, amount);
      }
    }

    method Stake(tx: Payload)
      requires Valid() && Field(tx, "type") == "stake"
      modifies `registry, validators, validators.cells
      ensures Valid() && OneStep() && Layers() == ApplyIn(electorate, old(Layers()), tx, validators.cap)
    {
      var amount := ParseUint64(Field(tx, "amount"));
      if amount.Some? {
        StakeBy(Field(tx, "validatorPubKey"), Field(tx, "staker"), amount.value);
      }
    }

    /** Takes an amount that the staker has off a fetched validator. */
    method Withdraw(pubkey: string, cell: Cell<Validator>, unstaker: string, amount: uint64)
      requires Valid() && HasCell(pubkey, cell) && CanUnstake(State(), pubkey, unstaker, amount)
      modifies `registry, cell
      ensures Valid()
      ensures Layers() ==
              old(Layers()).(shared := DelayedTransactions.UnstakeBy(old(State()), pubkey, unstaker, amount))
    {
      UnstakeInSteps(State(), pubkey, unstaker, amount);
      var v := Unstaked(cell.value, unstaker, amount);
      Replace(pubkey, cell, v);
      if v.totalStaked < parameters.requiredStake {
        var left := RemoveFromList(registry, pubkey);
        SetRegistry(left);
      }
    }

    method UnstakeBy(pubkey: string, unstaker: string, amount: uint64) returns (refunded: bool)
      requires Valid()
      modifies `registry, validators, validators.cells
      ensures Valid() && OneStep()
      ensures Layers() ==
              Fetched(old(Layers()), StorageKey(pubkey), validators.cap).(
                shared := DelayedTransactions.UnstakeBy(old(State()), pubkey, unstaker, amount))
      ensures refunded == CanUnstake(old(State()), pubkey, unstaker, amount)
    {
      refunded := false;
      var found := Fetch(pubkey);
      if found.Some? {
        if unstaker in found.value.value.stakers && found.value.value.stakers[unstaker] >= amount {
          Withdraw(pubkey, found.value, unstaker, amount);
          refunded := true;
        }
      }
    }

    /** The refund goes to the thread's hook: the execution thread pays it, the approvement thread has none. */
    method Unstake(tx: Payload) returns (refund: Option<(string, uint64)>)
      requires Valid() && Field(tx, "type") == "unstake"
      modifies `registry, validators, validators.cells
      ensures Valid() && OneStep() && Layers() == ApplyIn(electorate, old(Layers()), tx, validators.cap)
      ensures refund == Refund(old(State()), tx)
    {
      UnstakeIsApplied(electorate, Layers(), tx, validators.cap);
      refund := None;
      var amount := ParseUint64(Field(tx, "amount"));
      if amount.Some? {
        var refunded := UnstakeBy(Field(tx, "validatorPubKey"), Field(tx, "unstaker"), amount.value);
        if refunded {
          refund := Some((Field(tx, "unstaker"), amount.value));
        }
      }
    }

    method AcceptVersion(tx: Payload, agreements: Signatures.Signatures)
      requires Valid() && Field(tx, "votingType") == "version"
               && agreements == electorate.decode(Field(tx, "agreements"))
      modifies `version
      ensures Valid()
      ensures Layers() == old(Layers()).(shared := DelayedTransactions.VotingAccept(electorate, old(State()), tx))
    {
      var newVersion := NonNegative(Field(tx, "newMajorVersion"));
      if newVersion.Some? {
        var ok := VerifyMajority(electorate, agreements, Signatures.VersionVote(electorate.epoch, newVersion.value));
        if ok {
          version := newVersion.value;
        }
      }
    }

    method AcceptParameters(tx: Payload, agreements: Signatures.Signatures)
      requires Valid() && Field(tx, "votingType") == "parameters"
               && agreements == electorate.decode(Field(tx, "agreements"))
      modifies `parameters
      ensures Valid()
      ensures Layers() == old(Layers()).(shared := DelayedTransactions.VotingAccept(electorate, old(State()), tx))
    {
      var field, text := Field(tx, "updateField"), Field(tx, "newValue");
      var updated := ParameterUpdate(parameters, field, text);
      if updated.Some? {
        var ok := VerifyMajority(electorate, agreements, Signatures.ParameterVote(electorate.epoch, field, text));
        if ok {
          parameters := updated.value;
        }
      }
    }

    method VotingAccept(tx: Payload)
      requires Valid()
      modifies `parameters, `version
      ensures Valid()
      ensures Layers() == old(Layers()).(shared := DelayedTransactions.VotingAccept(electorate, old(State()), tx))
    {
      var agreements := electorate.decode(Field(tx, "agreements"));
      match Field(tx, "votingType")
      case "version" => AcceptVersion(tx, agreements);
      case "parameters" => AcceptParameters(tx, agreements);
      case _ =>
    }

    method Execute(tx: Payload) returns (refund: Option<(string, uint64)>)
      requires Valid()
      modifies this, validators, validators.cells
      ensures Valid() && OneStep() && Layers() == ApplyIn(electorate, old(Layers()), tx, validators.cap)
      ensures refund == Refund(old(State()), tx)
    {
      refund := None;
      match Field(tx, "type")
      case "createValidator" => CreateValidator(tx);
      case "updateValidator" => UpdateValidator(tx);
      case "stake" => Stake(tx);
      case "unstake" => refund := Unstake(tx);
      case "votingAccept" => VotingAccept(tx);
      case _ =>
    }

    /** The start of a batch. */
    method Begin()
      requires Valid() && validators.Flushed()
      modifies validators
      ensures Valid() && validators.cells == old(validators.cells) && Layers() == Start(old(State()))
    {
      validators.ResetTouched();
    }

    /** The approvement thread's run of the list. */
    method RunList(txs: seq<Payload>)
      requires Valid() && validators.Flushed()
      modifies this, validators, validators.cells
      ensures Valid() && OneStep()
      ensures Layers() == AfterBatch(electorate, Start(old(State())), txs, validators.cap)
    {
      Begin();
      var i := 0;
      while i < |txs|
        invariant 0 <= i <= |txs| && Valid() && OneStep()
        invariant AfterBatch(electorate, Layers(), txs[i..], validators.cap) ==
                  AfterBatch(electorate, Start(old(State())), txs, validators.cap)
      {
        assert txs[i..][1..] == txs[i + 1..];
        var _ := Execute(txs[i]);
        i := i + 1;
      }
    }

    /** The execution thread's replay of the list, which also pays what is unstaked.

    Accounts are the plain map that their own cache stands for. */
    method ReplayList(txs: seq<Payload>, accounts: Accounts) returns (paid: Accounts)
      requires Valid() && validators.Flushed()
      modifies this, validators, validators.cells
      ensures Valid() && OneStep()
      ensures Layers() == AfterBatch(electorate, Start(old(State())), txs, validators.cap)
      ensures paid == PaidIn(electorate, Start(old(State())), accounts, txs, validators.cap)
    {
      Begin();
      paid := accounts;
      var i := 0;
      while i < |txs|
        invariant 0 <= i <= |txs| && Valid() && OneStep()
        invariant AfterBatch(electorate, Layers(), txs[i..], validators.cap) ==
                  AfterBatch(electorate, Start(old(State())), txs, validators.cap)
        invariant PaidIn(electorate, Layers(), paid, txs[i..], validators.cap) ==
                  PaidIn(electorate, Start(old(State())), accounts, txs, validators.cap)
      {
        assert txs[i..][1..] == txs[i + 1..];
        var refund := Execute(txs[i]);
        paid := Refunded(paid, refund);
        i := i + 1;
      }
    }

    /** Between batches nothing is pending. */
    ghost predicate Settled()
      reads this, validators, validators.cells
    {
      Valid() && validators.Flushed()
    }

    /** The end of a batch: what was touched is stored. */
    method Persist()
      requires Valid()
      modifies validators
      ensures Settled() && State() == old(State()) && validators.store == State().validators
      ensures validators.cells == old(validators.cells)
    {
      validators.Commit();
    }
  }

  /** What the approvement thread signs for the next epoch, as far as delayed transactions decide it. */
  datatype NextEpoch = NextEpoch(registry: seq<string>, delayed: seq<Payload>)

  method DecideNextEpoch(approvement: ThreadContext, txs: seq<Payload>) returns (next: NextEpoch)
    requires approvement.Settled()
    modifies approvement, approvement.validators, approvement.validators.cells
    ensures approvement.Settled() && approvement.OneStep()
    ensures approvement.State() ==
            AfterBatch(approvement.electorate, Start(old(approvement.State())), ByPriority(txs),
              approvement.validators.cap).shared
    ensures next == NextEpoch(approvement.State().registry, ByPriority(txs))
  {
    var ordered := OrderByPriority(txs);
    approvement.RunList(ordered);
    approvement.Persist();
    next := NextEpoch(approvement.registry, ordered);
  }

  method ReplayNextEpoch(execution: ThreadContext, accounts: Accounts, next: NextEpoch) returns (paid: Accounts)
    requires execution.Settled()
    modifies execution, execution.validators, execution.validators.cells
    ensures execution.Settled() && execution.OneStep()
    ensures World(execution.State(), paid) ==
            WorldAfter(execution.electorate, Start(old(execution.State())), accounts, next.delayed,
              execution.validators.cap)
    ensures CreatesOnce(next.delayed, execution.validators.cap) ==>
              World(execution.State(), paid) ==
              Replay(execution.electorate, World(old(execution.State()), accounts), next.delayed)
  {
    ghost var start := execution.State();
    paid := execution.ReplayList(next.delayed, accounts);
    execution.Persist();
    if CreatesOnce(next.delayed, execution.validators.cap) {
      BatchIsPlain(execution.electorate, start, accounts, next.delayed, execution.validators.cap);
    }
  }

  /** The threads share no object. */
  ghost predicate Apart(a: ThreadContext, b: ThreadContext)
    reads a, b, a.validators, b.validators
  {
    a != b && a.validators != b.validators && a.validators.cells !! b.validators.cells
  }

  twostate lemma LeftAlone(thread: ThreadContext)
    requires old(thread.Settled()) && unchanged(thread, thread.validators, old(thread.validators.cells))
    ensures thread.Settled() && thread.State() == old(thread.State())
  {
  }

  /** The caches of the two threads cannot make this list come out differently. */
  ghost predicate SameOutcome(first: int, second: int, txs: seq<Payload>) {
    first == second || (CreatesOnce(txs, first) && CreatesOnce(txs, second))
  }

  lemma SameOutcomeAgrees(e: Electorate, s: Shared, txs: seq<Payload>, first: int, second: int)
    requires SameOutcome(first, second, txs)
    ensures AfterBatch(e, Start(s), txs, first).shared == AfterBatch(e, Start(s), txs, second).shared
  {
    if first != second {
      BatchIsPlain(e, s, map[], txs, first);
      BatchIsPlain(e, s, map[], txs, second);
    }
  }

  /** The approvement thread decides the next epoch and the execution thread replays the list it signed: from equal
  states both end in one state, with the registry that was signed, whatever either cache held or evicted.

  Threads with equal caps agree on every list. Threads with different caps agree on every list that creates no validator
  twice past either cap; then each of them also does what the list says on the plain map. */
  method DecideAndReplay(approvement: ThreadContext, execution: ThreadContext, accounts: Accounts, txs: seq<Payload>)
    returns (next: NextEpoch, paid: Accounts)
    requires approvement.Settled() && execution.Settled() && Apart(approvement, execution)
    requires approvement.State() == execution.State() && approvement.electorate == execution.electorate
    requires SameOutcome(approvement.validators.cap, execution.validators.cap, ByPriority(txs))
    modifies approvement, approvement.validators, approvement.validators.cells
    modifies execution, execution.validators, execution.validators.cells
    ensures approvement.Settled() && execution.Settled()
    ensures execution.State() == approvement.State()
    ensures next == NextEpoch(execution.State().registry, ByPriority(txs))
    ensures World(execution.State(), paid) ==
            WorldAfter(execution.electorate, Start(old(execution.State())), accounts, ByPriority(txs),
              execution.validators.cap)
    ensures CreatesOnce(ByPriority(txs), execution.validators.cap) ==>
              World(execution.State(), paid) ==
              Replay(execution.electorate, World(old(execution.State()), accounts), ByPriority(txs))
  {
    ghost var start := execution.State();
    next := DecideNextEpoch(approvement, txs);
    LeftAlone(execution);
    label decided:
    paid := ReplayNextEpoch(execution, accounts, next);
    LeftAlone@decided(approvement);
    SameOutcomeAgrees(execution.electorate, start, next.delayed, approvement.validators.cap, execution.validators.cap);
  }

  method RunFromEmpty(cap: int, electorate: Electorate, parameters: Parameters, version: int, txs: seq<Payload>)
    returns (thread: ThreadContext)
    ensures fresh(thread) && fresh(thread.validators) && thread.Valid() && fresh(thread.validators.cells)
    ensures thread.validators.cap == cap
    ensures thread.State() == AfterBatch(electorate, Start(Shared(map[], [], parameters, version)), txs, cap).shared
  {
    thread := new ThreadContext(cap, Shared(map[], [], parameters, version), electorate);
    thread.RunList(txs);
  }

  /** Two threads with different caps that run one list from one state over an empty store end with different
  validators: the smaller cache keeps the second creation, the larger one the first. */
  method CapsCanDisagree(first: int, second: int, electorate: Electorate, parameters: Parameters, version: int)
    returns (small: ThreadContext, large: ThreadContext)
    requires 0 < first && (second <= 0 || first < second)
    ensures small.Valid() && small.validators.cap == first && large.Valid() && large.validators.cap == second
    ensures var key, a, b := StorageKey("b"), small.State().validators, large.State().validators;
            key in a && key in b && a[key].url == "v" && b[key].url == "u"
  {
    ghost var start := Shared(map[], [], parameters, version);
    OutcomeDependsOnCap(electorate, start, first, first);
    OutcomeDependsOnCap(electorate, start, first, second);
    small := RunFromEmpty(first, electorate, parameters, version, TwiceAfter(first));
    ghost var state := small.State();
    large := RunFromEmpty(second, electorate, parameters, version, TwiceAfter(first));
    assert small.State() == state;
  }
}
