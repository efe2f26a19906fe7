/** A list of delayed transactions run over a validator cache.

A creation looks for the validator in the cache and in the store but not in the touched set, so what a list does can
depend on which touched validators stay cached. That is a function of the list, the stored keys and the cap alone. */
module DelayedBatches {
  import opened Wrappers
  import opened Integers
  import opened Ledger
  import opened DelayedTransactions
  import opened WriteBackCache
  import Signatures

  /** The shared state in the middle of a batch, the keys the store held at its start, the keys of the validators
  touched since, and those of them that are still cached. */
  datatype Batch = Batch(shared: Shared, stored: set<string>, touched: set<string>, kept: set<string>)

  ghost predicate Layered(b: Batch) {
    b.shared.validators.Keys == b.stored + b.touched && b.kept <= b.touched
  }

  function Start(s: Shared): Batch {
    Batch(s, s.validators.Keys, {}, {})
  }

  /** A fetch touches a validator that exists. */
  function Fetched(b: Batch, key: string, cap: int): Batch {
    if key in b.shared.validators then
      b.(touched := b.touched + {key}, kept := KeptAfterGet(b.kept, b.touched, key, cap))
    else b
  }

  /** A creation goes by what is stored or cached. */
  function CreatedIn(b: Batch, tx: Payload, cap: int): Batch {
    var key := StorageKey(Field(tx, "creator"));
    if !DescriptionOk(tx) || key in b.stored || key in b.kept then b
    else
      Batch(
        b.shared.(validators := b.shared.validators[key := NewValidator(tx)]),
        b.stored, b.touched + {key}, KeptAfterPut(b.kept, b.touched, key, cap))
  }

  /** The validator that a transaction other than a creation fetches. */
  function FetchedBy(tx: Payload): Option<string> {
    match Field(tx, "type")
    case "updateValidator" => if DescriptionOk(tx) then Some(Field(tx, "creator")) else None
    case "stake" => if ParseUint64(Field(tx, "amount")).Some? then Some(Field(tx, "validatorPubKey")) else None
    case "unstake" => if ParseUint64(Field(tx, "amount")).Some? then Some(Field(tx, "validatorPubKey")) else None
    case _ => None
  }

  function ApplyIn(e: Electorate, b: Batch, tx: Payload, cap: int): Batch {
    if Field(tx, "type") == "createValidator" then CreatedIn(b, tx, cap)
    else
      var fetched := FetchedBy(tx);
      var after := if fetched.Some? then Fetched(b, StorageKey(fetched.value), cap) else b;
      after.(shared := Apply(e, b.shared, tx))
  }

  function AfterBatch(e: Electorate, b: Batch, txs: seq<Payload>, cap: int): Batch
    decreases |txs|
  {
    if txs == [] then b else AfterBatch(e, ApplyIn(e, b, txs[0], cap), txs[1..], cap)
  }

  /** The accounts after the execution thread has paid what a batch unstakes. */
  function PaidIn(e: Electorate, b: Batch, accounts: Accounts, txs: seq<Payload>, cap: int): Accounts
    decreases |txs|
  {
    if txs == [] then accounts
    else PaidIn(e, ApplyIn(e, b, txs[0], cap), Refunded(accounts, Refund(b.shared, txs[0])), txs[1..], cap)
  }

  lemma UnstakeInSteps(s: Shared, pubkey: string, unstaker: string, amount: uint64)
    requires CanUnstake(s, pubkey, unstaker, amount)
    ensures var v := Unstaked(s.validators[StorageKey(pubkey)], unstaker, amount);
            var t := s.(validators := s.validators[StorageKey(pubkey) := v]);
            UnstakeBy(s, pubkey, unstaker, amount) ==
            if v.totalStaked < t.parameters.requiredStake then t.(registry := RemoveFirst(t.registry, pubkey)) else t
  {
  }

  lemma UnstakeIsApplied(e: Electorate, b: Batch, tx: Payload, cap: int)
    requires Field(tx, "type") == "unstake"
    ensures var amount, pubkey := ParseUint64(Field(tx, "amount")), Field(tx, "validatorPubKey");
            ApplyIn(e, b, tx, cap) ==
            if amount.None? then b
            else Fetched(b, StorageKey(pubkey), cap).(
                shared := UnstakeBy(b.shared, pubkey, Field(tx, "unstaker"), amount.value))
  {
  }

  // ---------------------------------------------------------------------------------------------
  // One transaction
  // ---------------------------------------------------------------------------------------------

  /** The validator exists, but only in the touched set. */
  predicate Hidden(b: Batch, key: string) {
    key in b.shared.validators && key !in b.stored && key !in b.kept
  }

  /** A creation does what it does on the plain map, exactly unless it names a hidden validator that it would change. */
  lemma CreationIsPlainIff(b: Batch, tx: Payload, cap: int)
    requires Layered(b)
    ensures var key := StorageKey(Field(tx, "creator"));
            CreatedIn(b, tx, cap).shared == CreateValidator(b.shared, tx) <==>
            !(DescriptionOk(tx) && Hidden(b, key) && b.shared.validators[key] != NewValidator(tx))
  {
  }

  /** The stake of the hidden validator that a creation replaces. */
  function Replaced(b: Batch, tx: Payload): nat {
    var key := StorageKey(Field(tx, "creator"));
    if DescriptionOk(tx) && Hidden(b, key) then TotalOf(b.shared.validators[key]) else 0
  }

  /** A creation changes what is staked by exactly that. */
  lemma CreationStake(b: Batch, tx: Payload, cap: int)
    requires Layered(b) && Sound(b.shared)
    ensures Sound(CreatedIn(b, tx, cap).shared)
    ensures AllStake(CreatedIn(b, tx, cap).shared) + Replaced(b, tx) == AllStake(b.shared)
  {
    AllStakeAfterUpdate(b.shared, StorageKey(Field(tx, "creator")), NewValidator(tx));
    NewValidatorBalanced(tx);
  }

  /** What was staked with a hidden validator is gone when it is created again; nothing else changes the stake. */
  lemma CreationKeepsStakeIff(b: Batch, tx: Payload, cap: int)
    requires Layered(b) && Sound(b.shared)
    ensures Sound(CreatedIn(b, tx, cap).shared) && AllStake(CreatedIn(b, tx, cap).shared) <= AllStake(b.shared)
    ensures var key := StorageKey(Field(tx, "creator"));
            AllStake(CreatedIn(b, tx, cap).shared) == AllStake(b.shared) <==>
            !(DescriptionOk(tx) && Hidden(b, key) && b.shared.validators[key].totalStaked > 0)
  {
    CreationStake(b, tx, cap);
  }

  lemma ApplyKeepsKeys(e: Electorate, s: Shared, tx: Payload)
    requires Field(tx, "type") != "createValidator"
    ensures Apply(e, s, tx).validators.Keys == s.validators.Keys
  {
  }

  lemma SharedAfterApply(e: Electorate, b: Batch, tx: Payload, cap: int)
    requires Layered(b)
    ensures !(Field(tx, "type") == "createValidator" && DescriptionOk(tx)
            && Hidden(b, StorageKey(Field(tx, "creator")))) ==>
              ApplyIn(e, b, tx, cap).shared == Apply(e, b.shared, tx)
  {
  }

  /** How a transaction moves the keys: the stored ones stay, cached ones stay cached and at most one is added. */
  predicate LayersKept(b: Batch, after: Batch) {
    after.stored == b.stored && b.kept <= after.kept && |after.kept| <= |b.kept| + 1
  }

  lemma CreatedKeepsLayers(b: Batch, tx: Payload, cap: int)
    requires Layered(b)
    ensures Layered(CreatedIn(b, tx, cap)) && LayersKept(b, CreatedIn(b, tx, cap))
  {
  }

  lemma FetchedKeepsLayers(b: Batch, key: string, cap: int)
    requires Layered(b)
    ensures Layered(Fetched(b, key, cap)) && LayersKept(b, Fetched(b, key, cap))
    ensures Fetched(b, key, cap).shared == b.shared
  {
  }

  lemma ApplyInKeepsLayers(e: Electorate, b: Batch, tx: Payload, cap: int)
    requires Layered(b)
    ensures Layered(ApplyIn(e, b, tx, cap)) && LayersKept(b, ApplyIn(e, b, tx, cap))
  {
    if Field(tx, "type") == "createValidator" {
      CreatedKeepsLayers(b, tx, cap);
    } else {
      ApplyKeepsKeys(e, b.shared, tx);
      if FetchedBy(tx).Some? {
        FetchedKeepsLayers(b, StorageKey(FetchedBy(tx).value), cap);
      }
    }
  }

  // ---------------------------------------------------------------------------------------------
  // Lists
  // ---------------------------------------------------------------------------------------------

  predicate CreatesKey(tx: Payload, key: string) {
    Field(tx, "type") == "createValidator" && DescriptionOk(tx) && StorageKey(Field(tx, "creator")) == key
  }

  /** Two creations for one validator, both with a valid description. */
  predicate SameCreation(a: Payload, b: Payload) {
    && Field(a, "type") == Field(b, "type") == "createValidator" && DescriptionOk(a) && DescriptionOk(b)
    && Field(a, "creator") == Field(b, "creator")
  }

  /** Past the first `cap` transactions no validator is created twice. A list no longer than the cap is such a list, and
  so is one that creates no validator twice. */
  predicate CreatesOnce(txs: seq<Payload>, cap: int) {
    cap > 0 ==> forall i, j | cap <= i < j < |txs| :: !SameCreation(txs[i], txs[j])
  }

  /** Hidden validators were created past the first `cap` transactions. */
  ghost predicate HiddenAreLate(b: Batch, txs: seq<Payload>, n: nat, cap: int)
    requires n <= |txs|
  {
    forall key | Hidden(b, key) :: cap > 0 && exists i :: cap <= i < n && CreatesKey(txs[i], key)
  }

  lemma StepKeepsLate(e: Electorate, b: Batch, txs: seq<Payload>, n: nat, cap: int)
    requires n < |txs| && Layered(b) && |b.kept| <= n && HiddenAreLate(b, txs, n, cap)
    ensures HiddenAreLate(ApplyIn(e, b, txs[n], cap), txs, n + 1, cap)
  {
    var after := ApplyIn(e, b, txs[n], cap);
    ApplyInKeepsLayers(e, b, txs[n], cap);
    forall key | Hidden(after, key)
      ensures cap > 0 && exists i :: cap <= i < n + 1 && CreatesKey(txs[i], key)
    {
      assert key in after.touched;
      if Hidden(b, key) {
        var i :| cap <= i < n && CreatesKey(txs[i], key);
        assert CreatesKey(txs[i], key);
      } else {
        assert key !in b.touched;
        assert CreatesKey(txs[n], key);
      }
    }
  }

  lemma SameKeyIsSameCreation(a: Payload, b: Payload, key: string)
    ensures CreatesKey(a, key) && CreatesKey(b, key) ==> SameCreation(a, b)
  {
    StorageKeyInjective(Field(a, "creator"), Field(b, "creator"));
  }

  lemma CreationIsSeen(b: Batch, txs: seq<Payload>, n: nat, cap: int)
    requires n < |txs| && HiddenAreLate(b, txs, n, cap) && CreatesOnce(txs, cap)
    ensures var key := StorageKey(Field(txs[n], "creator")); !(CreatesKey(txs[n], key) && Hidden(b, key))
  {
    forall i | 0 <= i < n {
      SameKeyIsSameCreation(txs[i], txs[n], StorageKey(Field(txs[n], "creator")));
    }
  }

  /** Over such a list the cache makes no difference: the batch is the list on the plain map. */
  lemma {:induction false} RestIsPlain(
      e: Electorate, b: Batch, accounts: Accounts, txs: seq<Payload>, n: nat, cap: int)
    requires n <= |txs| && Layered(b) && |b.kept| <= n && HiddenAreLate(b, txs, n, cap) && CreatesOnce(txs, cap)
    ensures AfterBatch(e, b, txs[n..], cap).shared == AfterList(e, b.shared, txs[n..])
    ensures PaidIn(e, b, accounts, txs[n..], cap) == Replay(e, World(b.shared, accounts), txs[n..]).accounts
    decreases |txs| - n
  {
    if n < |txs| {
      assert txs[n..][1..] == txs[n + 1..];
      ApplyInKeepsLayers(e, b, txs[n], cap);
      StepKeepsLate(e, b, txs, n, cap);
      SharedAfterApply(e, b, txs[n], cap);
      CreationIsSeen(b, txs, n, cap);
      RestIsPlain(e, ApplyIn(e, b, txs[n], cap), Refunded(accounts, Refund(b.shared, txs[n])), txs, n + 1, cap);
    }
  }

  lemma BatchIsPlain(e: Electorate, s: Shared, accounts: Accounts, txs: seq<Payload>, cap: int)
    requires CreatesOnce(txs, cap)
    ensures AfterBatch(e, Start(s), txs, cap).shared == AfterList(e, s, txs)
    ensures World(AfterList(e, s, txs), PaidIn(e, Start(s), accounts, txs, cap)) == Replay(e, World(s, accounts), txs)
  {
    assert txs[0..] == txs;
    RestIsPlain(e, Start(s), accounts, txs, 0, cap);
    ReplayShared(e, World(s, accounts), txs);
  }

  // ---------------------------------------------------------------------------------------------
  // Different caps
  // ---------------------------------------------------------------------------------------------

  function Creation(creator: string, url: string): Payload {
    map["type" := "createValidator", "creator" := creator, "validatorURL" := url, "wssValidatorURL" := url]
  }

  function Name(i: nat): string {
    if i == 0 then "" else Name(i - 1) + "a"
  }

  /** Creates n different validators. */
  function Fillers(n: nat): seq<Payload> {
    if n == 0 then [] else Fillers(n - 1) + [Creation(Name(n - 1), "u")]
  }

  /** Creates n validators, and then another one twice. */
  function TwiceAfter(n: nat): seq<Payload> {
    Fillers(n) + [Creation("b", "u")] + [Creation("b", "v")]
  }

  lemma {:induction false} NameLength(i: nat)
    ensures |Name(i)| == i && forall c | c in Name(i) :: c == 'a'
  {
    if i > 0 {
      NameLength(i - 1);
    }
  }

  lemma CreationStep(e: Electorate, b: Batch, creator: string, url: string, cap: int)
    requires url != ""
    ensures var tx, key := Creation(creator, url), StorageKey(creator);
            && NewValidator(tx).url == url && CreatesKey(tx, key)
            && ApplyIn(e, b, tx, cap) ==
               if key in b.stored || key in b.kept then b
               else Batch(b.shared.(validators := b.shared.validators[key := NewValidator(tx)]), b.stored,
                          b.touched + {key}, KeptAfterPut(b.kept, b.touched, key, cap))
  {
  }

  lemma {:induction false} AfterOneMore(e: Electorate, b: Batch, txs: seq<Payload>, tx: Payload, cap: int)
    ensures AfterBatch(e, b, txs + [tx], cap) == ApplyIn(e, AfterBatch(e, b, txs, cap), tx, cap)
    decreases |txs|
  {
    if txs == [] {
      assert ([tx])[1..] == [];
      assert txs + [tx] == [tx];
    } else {
      assert (txs + [tx])[1..] == txs[1..] + [tx];
      AfterOneMore(e, ApplyIn(e, b, txs[0], cap), txs[1..], tx, cap);
    }
  }

  /** All validators are touched and cached, n of them, and none under another name. */
  ghost predicate Filled(b: Batch, n: nat) {
    && b.stored == {} && b.touched == b.kept && |b.kept| == n
    && forall key | key in b.kept :: exists i: nat | i < n :: key == StorageKey(Name(i))
  }

  lemma NewName(b: Batch, n: nat, name: string)
    requires Filled(b, n) && forall i: nat | i < n :: name != Name(i)
    ensures StorageKey(name) !in b.kept
  {
    if StorageKey(name) in b.kept {
      var i: nat :| i < n && StorageKey(name) == StorageKey(Name(i));
      StorageKeyInjective(name, Name(i));
    }
  }

  lemma OneMoreFiller(e: Electorate, b: Batch, n: nat, cap: int)
    requires Filled(b, n) && (cap <= 0 || n < cap)
    ensures Filled(ApplyIn(e, b, Creation(Name(n), "u"), cap), n + 1)
  {
    NameLength(n);
    forall i: nat | i < n
      ensures Name(n) != Name(i)
    {
      NameLength(i);
    }
    NewName(b, n, Name(n));
    CreationStep(e, b, Name(n), "u", cap);
  }

  lemma {:induction false} FillersFill(e: Electorate, s: Shared, n: nat, cap: int)
    requires s.validators == map[] && (cap <= 0 || n <= cap)
    ensures Filled(AfterBatch(e, Start(s), Fillers(n), cap), n)
  {
    if n > 0 {
      FillersFill(e, s, n - 1, cap);
      AfterOneMore(e, Start(s), Fillers(n - 1), Creation(Name(n - 1), "u"), cap);
      OneMoreFiller(e, AfterBatch(e, Start(s), Fillers(n - 1), cap), n - 1, cap);
    }
  }

  /** Over this list, a cap of n keeps the last creation and every larger cap, or none, the one before. */
  lemma OutcomeDependsOnCap(e: Electorate, s: Shared, n: nat, cap: int)
    requires s.validators == map[] && n > 0 && (cap <= 0 || n <= cap)
    ensures var key, after := StorageKey("b"), AfterBatch(e, Start(s), TwiceAfter(n), cap).shared.validators;
            key in after && after[key].url == if cap == n then "v" else "u"
  {
    var full := AfterBatch(e, Start(s), Fillers(n), cap);
    FillersFill(e, s, n, cap);
    forall i: nat | i < n
      ensures "b" != Name(i)
    {
      NameLength(i);
      assert "b"[0] == 'b';
    }
    NewName(full, n, "b");
    AfterOneMore(e, Start(s), Fillers(n), Creation("b", "u"), cap);
    AfterOneMore(e, Start(s), Fillers(n) + [Creation("b", "u")], Creation("b", "v"), cap);
    CreationStep(e, full, "b", "u", cap);
    CreationStep(e, ApplyIn(e, full, Creation("b", "u"), cap), "b", "v", cap);
  }

  /** Two caps that are equal, or that both mean no limit. */
  predicate SameCaps(first: int, second: int) {
    first == second || (first <= 0 && second <= 0)
  }

  /** Two caches of these caps make every list come out the same from every state. */
  ghost predicate AlwaysAgree(first: int, second: int) {
    forall e: Electorate, s: Shared, txs: seq<Payload> ::
      AfterBatch(e, Start(s), txs, first).shared == AfterBatch(e, Start(s), txs, second).shared
  }

  lemma DifferentCapsDisagree(e: Electorate, s: Shared, first: int, second: int)
    requires s.validators == map[] && 0 < first && (second <= 0 || first < second)
    ensures AfterBatch(e, Start(s), TwiceAfter(first), first).shared !=
            AfterBatch(e, Start(s), TwiceAfter(first), second).shared
  {
    OutcomeDependsOnCap(e, s, first, first);
    OutcomeDependsOnCap(e, s, first, second);
  }

  /** Equal caps are exactly what makes every list come out the same. */
  lemma AlwaysAgreeIff(first: int, second: int)
    ensures AlwaysAgree(first, second) <==> SameCaps(first, second)
  {
    if SameCaps(first, second) {
      forall e: Electorate, s: Shared, txs: seq<Payload>
        ensures AfterBatch(e, Start(s), txs, first).shared == AfterBatch(e, Start(s), txs, second).shared
      {
        if first != second {
          BatchIsPlain(e, s, map[], txs, first);
          BatchIsPlain(e, s, map[], txs, second);
        }
      }
    } else {
      var e := Electorate(Signatures.EpochRef("", 0), [], (text: string) => map[]);
      var s := Shared(map[], [], Parameters(0, 0, 0, 0, 0, 0, 0, 0), 0);
      if 0 < first && (second <= 0 || first < second) {
        DifferentCapsDisagree(e, s, first, second);
      } else {
        DifferentCapsDisagree(e, s, second, first);
      }
    }
  }
}
