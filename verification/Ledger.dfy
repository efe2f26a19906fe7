/** Accounts, transactions and blocks as values: what executing them does, what it conserves, and the nonce rule. */
module Ledger {
  import opened Wrappers
  import opened Integers
  import opened MapSums

  datatype Account = Account(balance: uint64, nonce: uint64, initiated: uint64, successful: uint64)

  const NEW_ACCOUNT := Account(0, 0, 0, 0)

  type Accounts = map<string, Account>
  type Payload = map<string, string>

  /** `validKeys` and `validSignature` stand for what the key and signature checks say of the transaction. */
  datatype Transaction = Transaction(
    from: string, to: string, amount: uint64, fee: uint64, nonce: uint64, payload: Payload, validKeys: bool,
      validSignature: bool)

  const DELAYED_TYPES := {"createValidator", "updateValidator", "stake", "unstake", "votingAccept"}

  const BYPASS_NONCE := {"58mwkdnD1jejKhRQFrSgSwNbU4ajebSYqPvzVxfbDCHT", "ALkfNAViKa13c9KT7Zo6GUJ8ccq8Liy5aqpZwNQb1rL6"}

  /** Reading a key that a payload does not have gives the empty text. */
  function Field(p: Payload, name: string): string {
    if name in p then p[name] else ""
  }

  function WithAccount(accounts: Accounts, id: string): Accounts {
    if id in accounts then accounts else accounts[id := NEW_ACCOUNT]
  }

  predicate IsDelayed(tx: Transaction) {
    Field(tx.payload, "type") in DELAYED_TYPES
  }

  /** The amount a payload asks to stake: zero for every other kind of payload. */
  function StakeOf(p: Payload): uint64 {
    var amount := ParseUint64(Field(p, "amount"));
    if Field(p, "type") == "stake" && amount.Some? then amount.value else 0
  }

  predicate NonceOk(tx: Transaction, sender: Account) {
    tx.from in BYPASS_NONCE || tx.nonce == Add(sender.nonce, 1)
  }

  predicate DelayedOk(tx: Transaction, sender: Account) {
    && NonceOk(tx, sender)
    && sender.balance >= tx.fee
    && match Field(tx.payload, "type")
       case "createValidator" => tx.from == Field(tx.payload, "creator")
       case "updateValidator" => tx.from == Field(tx.payload, "creator")
       case "stake" => ParseUint64(Field(tx.payload, "amount")).Some?
         && sender.balance >= Add(StakeOf(tx.payload), tx.fee)
       case _ => true
  }

  function Paid(a: Account, amount: uint64): Account {
    a.(balance := Sub(a.balance, amount))
  }

  function Credited(a: Account, amount: uint64): Account {
    a.(balance := Add(a.balance, amount))
  }

  function Counted(a: Account): Account {
    a.(nonce := Add(a.nonce, 1), successful := Add(a.successful, 1))
  }

  datatype Outcome = Outcome(accounts: Accounts, success: bool, fee: uint64, delayed: Option<Payload>)

  function ExecuteDelayed(accounts: Accounts, tx: Transaction): Outcome
    requires tx.from in accounts
  {
    var sender := accounts[tx.from];
    if !DelayedOk(tx, sender) then Outcome(accounts, false, 0, None)
    else Outcome(accounts[tx.from := Counted(Paid(Paid(sender, tx.fee), StakeOf(tx.payload)))], true, tx.fee,
      Some(tx.payload))
  }

  /** A transfer. Sender and receiver may be one account: the steps happen one after the other. */
  function Transfer(accounts: Accounts, tx: Transaction): Outcome
    requires tx.from in accounts
  {
    var known := WithAccount(accounts, tx.to);
    var totalSpend := Add(tx.fee, tx.amount);
    if !NonceOk(tx, known[tx.from]) || known[tx.from].balance < totalSpend then Outcome(known, false, 0, None)
    else
      var paid := known[tx.from := Paid(known[tx.from], totalSpend)];
      var credited := paid[tx.to := Credited(paid[tx.to], tx.amount)];
      Outcome(credited[tx.from := Counted(credited[tx.from])], true, tx.fee, None)
  }

  function Execute(accounts: Accounts, tx: Transaction): Outcome {
    if !tx.validKeys || !tx.validSignature then Outcome(accounts, false, 0, None)
    else
      var known := WithAccount(accounts, tx.from);
      var sender := known[tx.from].(initiated := Add(known[tx.from].initiated, 1));
      var started := known[tx.from := sender];
      if IsDelayed(tx) then ExecuteDelayed(started, tx) else Transfer(started, tx)
  }

  // ---------------------------------------------------------------------------------------------
  // Blocks
  // ---------------------------------------------------------------------------------------------

  datatype Block = Block(creator: string, transactions: seq<Transaction>)

  datatype Progress = Progress(accounts: Accounts, fees: uint64, payloads: seq<Payload>)

  function Collect(p: Progress, o: Outcome): Progress {
    Progress(o.accounts, Add(p.fees, o.fee), p.payloads + if o.delayed.Some? then [o.delayed.value] else [])
  }

  function ThenExecute(p: Progress, tx: Transaction): Progress {
    Collect(p, Execute(p.accounts, tx))
  }

  function AfterTransactions(accounts: Accounts, txs: seq<Transaction>): Progress {
    if txs == [] then Progress(accounts, 0, [])
    else ThenExecute(AfterTransactions(accounts, txs[..|txs| - 1]), txs[|txs| - 1])
  }

  /** The state that block execution reads and writes; delayed transactions are listed per network and target epoch. */
  datatype State = State(accounts: Accounts, delayed: map<string, seq<Payload>>)

  function ListAt(delayed: map<string, seq<Payload>>, key: string): seq<Payload> {
    if key in delayed then delayed[key] else []
  }

  function Recorded(
      delayed: map<string, seq<Payload>>, key: string, payloads: seq<Payload>): map<string, seq<Payload>> {
    if payloads == [] then delayed else delayed[key := ListAt(delayed, key) + payloads]
  }

  function Deposit(accounts: Accounts, creator: string, fees: uint64): Accounts {
    var known := WithAccount(accounts, creator);
    known[creator := Credited(known[creator], fees)]
  }

  /** `key` names the list that the block's delayed transactions go to. */
  function AfterBlock(s: State, b: Block, key: string): State {
    var p := AfterTransactions(s.accounts, b.transactions);
    State(Deposit(p.accounts, b.creator, p.fees), Recorded(s.delayed, key, p.payloads))
  }

  function AfterBlocks(s: State, blocks: seq<(Block, string)>): State {
    if blocks == [] then s
    else
      var last := blocks[|blocks| - 1];
      AfterBlock(AfterBlocks(s, blocks[..|blocks| - 1]), last.0, last.1)
  }

  // ---------------------------------------------------------------------------------------------
  // Conservation
  // ---------------------------------------------------------------------------------------------

  function Balance(a: Account): nat {
    a.balance as nat
  }

  ghost function Balances(accounts: Accounts): nat {
    Sum(accounts, Balance)
  }

  function Stakes(payloads: seq<Payload>): nat {
    if payloads == [] then 0 else Stakes(payloads[..|payloads| - 1]) + StakeOf(payloads[|payloads| - 1]) as nat
  }

  ghost function PendingStakes(delayed: map<string, seq<Payload>>): nat {
    Sum(delayed, Stakes)
  }

  /** What the ledger owns: the balances and the stake amounts waiting in the delayed lists. */
  ghost function Wealth(s: State): nat {
    Balances(s.accounts) + PendingStakes(s.delayed)
  }

  /** What leaves the sender, fee included. */
  function Spent(tx: Transaction): int {
    tx.fee as int + if IsDelayed(tx) then StakeOf(tx.payload) as int else tx.amount as int
  }

  predicate Fits(tx: Transaction) {
    Spent(tx) < LIMIT
  }

  lemma BalancesAfterUpdate(accounts: Accounts, id: string, a: Account)
    ensures Balances(accounts[id := a]) == Balances(accounts) + a.balance as int - if id in accounts then
            accounts[id].balance as int else 0
    ensures id in accounts ==> accounts[id].balance as int <= Balances(accounts)
  {
    SumAfterUpdate(accounts, Balance, id, a);
  }

  lemma WithAccountKeepsBalances(accounts: Accounts, id: string)
    ensures Balances(WithAccount(accounts, id)) == Balances(accounts)
  {
    BalancesAfterUpdate(accounts, id, NEW_ACCOUNT);
  }

  lemma DelayedConservesIff(accounts: Accounts, tx: Transaction)
    requires tx.from in accounts && IsDelayed(tx) && ExecuteDelayed(accounts, tx).success
    ensures var o := ExecuteDelayed(accounts, tx);
            o.fee == tx.fee && o.delayed == Some(tx.payload)
            && (Balances(o.accounts) + tx.fee as int + StakeOf(tx.payload) as int == Balances(accounts) <==> Fits(tx))
  {
    BalancesAfterUpdate(accounts, tx.from, Counted(Paid(Paid(accounts[tx.from], tx.fee), StakeOf(tx.payload))));
  }

  /** The receiver's balance would pass the 64-bit limit. */
  predicate CreditWraps(accounts: Accounts, tx: Transaction)
    requires tx.from in accounts
  {
    var known := WithAccount(accounts, tx.to);
    var paid := known[tx.from := Paid(known[tx.from], Add(tx.fee, tx.amount))];
    paid[tx.to].balance as int + tx.amount as int >= LIMIT
  }

  lemma TransferConservesIff(accounts: Accounts, tx: Transaction)
    requires tx.from in accounts && !IsDelayed(tx) && Transfer(accounts, tx).success
    ensures var o := Transfer(accounts, tx);
            o.fee == tx.fee && o.delayed == None
            && (Balances(o.accounts) + tx.fee as int == Balances(accounts) <==>
               (Fits(tx) <==> !CreditWraps(accounts, tx)))
  {
    var known := WithAccount(accounts, tx.to);
    WithAccountKeepsBalances(accounts, tx.to);
    var paid := known[tx.from := Paid(known[tx.from], Add(tx.fee, tx.amount))];
    BalancesAfterUpdate(known, tx.from, paid[tx.from]);
    var credited := paid[tx.to := Credited(paid[tx.to], tx.amount)];
    BalancesAfterUpdate(paid, tx.to, credited[tx.to]);
    BalancesAfterUpdate(credited, tx.from, Counted(credited[tx.from]));
  }

  /** The accounts when the sender's attempt has been counted: present, and otherwise as before. */
  function Started(accounts: Accounts, tx: Transaction): (started: Accounts)
    ensures tx.from in started
  {
    var known := WithAccount(accounts, tx.from);
    known[tx.from := known[tx.from].(initiated := Add(known[tx.from].initiated, 1))]
  }

  lemma StartedKeepsBalances(accounts: Accounts, tx: Transaction)
    ensures Balances(Started(accounts, tx)) == Balances(accounts)
  {
    WithAccountKeepsBalances(accounts, tx.from);
    var known := WithAccount(accounts, tx.from);
    BalancesAfterUpdate(known, tx.from, Started(accounts, tx)[tx.from]);
  }

  ghost predicate Conserves(accounts: Accounts, o: Outcome) {
    Balances(o.accounts) + o.fee as int + (if o.delayed.Some? then StakeOf(o.delayed.value) as int else 0) ==
      Balances(accounts)
  }

  /** The sender's account as the checks see it. */
  function Sender(accounts: Accounts, tx: Transaction): Account {
    if tx.from in accounts then accounts[tx.from] else NEW_ACCOUNT
  }

  /** The checks a transaction has to pass: keys and signature, and then nonce and balance for its kind. */
  predicate Passes(accounts: Accounts, tx: Transaction) {
    var sender := Sender(accounts, tx);
    && tx.validKeys && tx.validSignature
    && if IsDelayed(tx) then DelayedOk(tx, sender)
       else NonceOk(tx, sender) && sender.balance >= Add(tx.fee, tx.amount)
  }

  /** A transaction succeeds exactly when it passes the checks. */
  lemma SucceedsIffPasses(accounts: Accounts, tx: Transaction)
    ensures Execute(accounts, tx).success <==> Passes(accounts, tx)
  {
    if tx.validKeys && tx.validSignature {
      assert Started(accounts, tx)[tx.from].balance == Sender(accounts, tx).balance;
      assert Started(accounts, tx)[tx.from].nonce == Sender(accounts, tx).nonce;
    }
  }

  /** The receiver's balance, from which the sender has paid if they are one, would pass the 64-bit limit. */
  predicate ReceiverWraps(accounts: Accounts, tx: Transaction) {
    var balance := if tx.to in accounts then accounts[tx.to].balance as int else 0;
    balance - (if tx.to == tx.from then Add(tx.fee, tx.amount) as int else 0) + tx.amount as int >= LIMIT
  }

  lemma WrapsOnPlainAccounts(accounts: Accounts, tx: Transaction)
    requires Sender(accounts, tx).balance >= Add(tx.fee, tx.amount)
    ensures CreditWraps(Started(accounts, tx), tx) <==> ReceiverWraps(accounts, tx)
  {
  }

  /** A transaction conserves value exactly unless it passes its checks with an overflow: of what is spent for a delayed
  one, and for a transfer of either what is spent or what the receiver gets, but not of both. */
  lemma ExecuteConservesIff(accounts: Accounts, tx: Transaction)
    ensures Conserves(accounts, Execute(accounts, tx)) <==>
            (Passes(accounts, tx) ==> (Fits(tx) <==> IsDelayed(tx) || !ReceiverWraps(accounts, tx)))
  {
    SucceedsIffPasses(accounts, tx);
    if tx.validKeys && tx.validSignature {
      StartedKeepsBalances(accounts, tx);
      var started := Started(accounts, tx);
      if IsDelayed(tx) {
        if DelayedOk(tx, started[tx.from]) {
          DelayedConservesIff(started, tx);
        }
      } else if Transfer(started, tx).success {
        TransferConservesIff(started, tx);
        WrapsOnPlainAccounts(accounts, tx);
      } else {
        WithAccountKeepsBalances(started, tx.to);
      }
    }
  }

  /** What a transaction spends, its fee included, must fit 64 bits: otherwise a sender with nothing can
  mint the rest. */
  lemma OverflowingTransferMintsValue()
    ensures var tx := Transaction("a", "b", 0xFFFF_FFFF_FFFF_FFFF, 1, 1, map[], true, true);
            var o := Execute(map[], tx);
            o.success && Balances(map[]) == 0 && Balances(o.accounts) == 0xFFFF_FFFF_FFFF_FFFF
  {
    var tx := Transaction("a", "b", 0xFFFF_FFFF_FFFF_FFFF, 1, 1, map[], true, true);
    var none: Accounts := map[];
    var a, b := Account(0, 1, 1, 1), Account(0xFFFF_FFFF_FFFF_FFFF, 0, 0, 0);
    assert Execute(none, tx).accounts == none["a" := a]["b" := b];
    BalancesAfterUpdate(none, "a", a);
    BalancesAfterUpdate(none["a" := a], "b", b);
  }

  lemma CreditFits(accounts: Accounts, tx: Transaction)
    requires tx.from in accounts && !IsDelayed(tx) && Transfer(accounts, tx).success
    requires Balances(accounts) < LIMIT && Fits(tx)
    ensures !CreditWraps(accounts, tx)
  {
    var known := WithAccount(accounts, tx.to);
    WithAccountKeepsBalances(accounts, tx.to);
    var paid := known[tx.from := Paid(known[tx.from], Add(tx.fee, tx.amount))];
    BalancesAfterUpdate(known, tx.from, paid[tx.from]);
    BalancesAfterUpdate(paid, tx.to, paid[tx.to]);
  }

  /** A transaction moves value without making or losing any, as long as what it spends and the supply fit 64 bits. */
  lemma ExecuteConserves(accounts: Accounts, tx: Transaction)
    requires Balances(accounts) < LIMIT && Fits(tx)
    ensures Conserves(accounts, Execute(accounts, tx))
  {
    ExecuteConservesIff(accounts, tx);
    StartedKeepsBalances(accounts, tx);
    if tx.validKeys && tx.validSignature && !IsDelayed(tx) && Transfer(Started(accounts, tx), tx).success {
      CreditFits(Started(accounts, tx), tx);
    }
  }

  lemma {:induction false} StakesOfSum(a: seq<Payload>, b: seq<Payload>)
    ensures Stakes(a + b) == Stakes(a) + Stakes(b)
  {
    if b == [] {
      assert a + b == a;
    } else {
      StakesOfSum(a, b[..|b| - 1]);
      assert (a + b)[..|a + b| - 1] == a + b[..|b| - 1];
    }
  }

  ghost function Value(p: Progress): nat {
    Balances(p.accounts) + p.fees as nat + Stakes(p.payloads)
  }

  lemma CollectKeepsValue(p: Progress, o: Outcome)
    requires Balances(p.accounts) + p.fees as nat < LIMIT && Conserves(p.accounts, o)
    ensures Value(Collect(p, o)) == Value(p) && Stakes(Collect(p, o).payloads) >= Stakes(p.payloads)
  {
    if o.delayed.Some? {
      StakesOfSum(p.payloads, [o.delayed.value]);
      assert Stakes([o.delayed.value]) == StakeOf(o.delayed.value) as nat;
    } else {
      assert p.payloads + [] == p.payloads;
    }
  }

  lemma {:induction false} TransactionsConserve(accounts: Accounts, txs: seq<Transaction>)
    requires Balances(accounts) < LIMIT && forall tx | tx in txs :: Fits(tx)
    ensures Value(AfterTransactions(accounts, txs)) == Balances(accounts)
  {
    if txs != [] {
      TransactionsConserve(accounts, txs[..|txs| - 1]);
      var p := AfterTransactions(accounts, txs[..|txs| - 1]);
      ExecuteConserves(p.accounts, txs[|txs| - 1]);
      CollectKeepsValue(p, Execute(p.accounts, txs[|txs| - 1]));
    }
  }

  predicate BlockFits(b: Block) {
    forall tx | tx in b.transactions :: Fits(tx)
  }

  lemma RecordedStakes(delayed: map<string, seq<Payload>>, key: string, payloads: seq<Payload>)
    ensures PendingStakes(Recorded(delayed, key, payloads)) == PendingStakes(delayed) + Stakes(payloads)
  {
    StakesOfSum(ListAt(delayed, key), payloads);
    SumAfterUpdate(delayed, Stakes, key, ListAt(delayed, key) + payloads);
  }

  /** A block conserves balances plus pending stakes, also when sender, receiver and creator coincide. */
  lemma BlockConserves(s: State, b: Block, key: string)
    requires Balances(s.accounts) < LIMIT && BlockFits(b)
    ensures Wealth(AfterBlock(s, b, key)) == Wealth(s)
    ensures Balances(AfterBlock(s, b, key).accounts) <= Balances(s.accounts)
  {
    var p := AfterTransactions(s.accounts, b.transactions);
    TransactionsConserve(s.accounts, b.transactions);
    WithAccountKeepsBalances(p.accounts, b.creator);
    var known := WithAccount(p.accounts, b.creator);
    BalancesAfterUpdate(known, b.creator, Credited(known[b.creator], p.fees));
    RecordedStakes(s.delayed, key, p.payloads);
  }

  /** Any run of blocks conserves what the ledger owns. */
  lemma {:induction false} BlocksConserve(s: State, blocks: seq<(Block, string)>)
    requires Balances(s.accounts) < LIMIT && forall b | b in blocks :: BlockFits(b.0)
    ensures Wealth(AfterBlocks(s, blocks)) == Wealth(s)
    ensures Balances(AfterBlocks(s, blocks).accounts) <= Balances(s.accounts)
  {
    if blocks != [] {
      var front, last := blocks[..|blocks| - 1], blocks[|blocks| - 1];
      BlocksConserve(s, front);
      BlockConserves(AfterBlocks(s, front), last.0, last.1);
    }
  }

  // ---------------------------------------------------------------------------------------------
  // A transaction succeeds at most once
  // ---------------------------------------------------------------------------------------------

  function NonceOf(accounts: Accounts, id: string): int {
    if id in accounts then accounts[id].nonce as int else 0
  }

  /** The accounts just before transaction i of block b of a run. */
  function Before(s: State, blocks: seq<(Block, string)>, b: nat, i: nat): Accounts
    requires b < |blocks| && i <= |blocks[b].0.transactions|
  {
    AfterTransactions(AfterBlocks(s, blocks[..b]).accounts, blocks[b].0.transactions[..i]).accounts
  }

  predicate SucceedsAt(s: State, blocks: seq<(Block, string)>, b: nat, i: nat)
    requires b < |blocks| && i < |blocks[b].0.transactions|
  {
    Execute(Before(s, blocks, b, i), blocks[b].0.transactions[i]).success
  }

  function TxCount(blocks: seq<(Block, string)>): nat {
    if blocks == [] then 0 else TxCount(blocks[..|blocks| - 1]) + |blocks[|blocks| - 1].0.transactions|
  }

  /** Executing a transaction moves a nonce by at most one, and a success outside the bypass list uses the nonce up. */
  lemma NonceStep(accounts: Accounts, tx: Transaction, id: string)
    requires NonceOf(accounts, id) + 1 < LIMIT
    ensures var o := Execute(accounts, tx);
            && NonceOf(accounts, id) <= NonceOf(o.accounts, id) <= NonceOf(accounts, id) + 1
            && (o.success && id == tx.from && id !in BYPASS_NONCE ==>
                  tx.nonce as int == NonceOf(accounts, id) + 1 == NonceOf(o.accounts, id))
  {
  }

  lemma NonceAfterOneMore(p: Progress, tx: Transaction, id: string)
    requires NonceOf(p.accounts, id) + 1 < LIMIT
    ensures NonceOf(p.accounts, id) <= NonceOf(ThenExecute(p, tx).accounts, id) <= NonceOf(p.accounts, id) + 1
  {
    NonceStep(p.accounts, tx, id);
  }

  lemma {:induction false} NonceAfterTransactions(accounts: Accounts, txs: seq<Transaction>, id: string)
    requires NonceOf(accounts, id) + |txs| < LIMIT
    ensures NonceOf(accounts, id) <= NonceOf(AfterTransactions(accounts, txs).accounts, id) <= NonceOf(accounts,
            id) + |txs|
  {
    if txs != [] {
      NonceAfterTransactions(accounts, txs[..|txs| - 1], id);
      NonceAfterOneMore(AfterTransactions(accounts, txs[..|txs| - 1]), txs[|txs| - 1], id);
    }
  }

  lemma NonceOneMore(accounts: Accounts, txs: seq<Transaction>, j: nat, id: string)
    requires 0 < j <= |txs| && NonceOf(accounts, id) + |txs| < LIMIT
    ensures NonceOf(AfterTransactions(accounts, txs[..j - 1]).accounts,
            id) <= NonceOf(AfterTransactions(accounts, txs[..j]).accounts, id)
  {
    assert txs[..j][..j - 1] == txs[..j - 1];
    NonceAfterTransactions(accounts, txs[..j - 1], id);
    NonceAfterOneMore(AfterTransactions(accounts, txs[..j - 1]), txs[j - 1], id);
  }

  lemma {:induction false} NonceWithinBlock(accounts: Accounts, txs: seq<Transaction>, i: nat, j: nat, id: string)
    requires i <= j <= |txs| && NonceOf(accounts, id) + |txs| < LIMIT
    ensures NonceOf(AfterTransactions(accounts, txs[..i]).accounts,
            id) <= NonceOf(AfterTransactions(accounts, txs[..j]).accounts, id)
  {
    if i < j {
      NonceWithinBlock(accounts, txs, i, j - 1, id);
      NonceOneMore(accounts, txs, j, id);
    }
  }

  lemma NonceAfterBlock(s: State, b: Block, key: string, i: nat, id: string)
    requires i <= |b.transactions| && NonceOf(s.accounts, id) + |b.transactions| < LIMIT
    ensures NonceOf(s.accounts, id) <= NonceOf(AfterTransactions(s.accounts, b.transactions[..i]).accounts, id)
    ensures NonceOf(AfterTransactions(s.accounts, b.transactions[..i]).accounts,
            id) <= NonceOf(AfterBlock(s, b, key).accounts, id)
    ensures NonceOf(AfterBlock(s, b, key).accounts, id) <= NonceOf(s.accounts, id) + |b.transactions|
  {
    assert b.transactions[..|b.transactions|] == b.transactions;
    NonceAfterTransactions(s.accounts, b.transactions, id);
    NonceAfterTransactions(s.accounts, b.transactions[..i], id);
    NonceWithinBlock(s.accounts, b.transactions, i, |b.transactions|, id);
  }

  lemma {:induction false} NonceAfterBlocks(s: State, blocks: seq<(Block, string)>, b: nat, id: string)
    requires b <= |blocks| && NonceOf(s.accounts, id) + TxCount(blocks) < LIMIT
    ensures NonceOf(AfterBlocks(s, blocks[..b]).accounts, id) <= NonceOf(AfterBlocks(s, blocks).accounts, id)
    ensures NonceOf(AfterBlocks(s, blocks).accounts, id) <= NonceOf(s.accounts, id) + TxCount(blocks)
  {
    assert b == |blocks| ==> blocks[..b] == blocks;
    if blocks != [] {
      var front, last := blocks[..|blocks| - 1], blocks[|blocks| - 1];
      var c := if b < |blocks| then b else |blocks| - 1;
      NonceAfterBlocks(s, front, c, id);
      assert front[..c] == blocks[..c];
      NonceAfterBlock(AfterBlocks(s, front), last.0, last.1, 0, id);
    }
  }

  lemma {:induction false} TxCountOfPrefix(blocks: seq<(Block, string)>, b: nat)
    requires b < |blocks|
    ensures TxCount(blocks[..b]) + |blocks[b].0.transactions| <= TxCount(blocks)
  {
    var front := blocks[..|blocks| - 1];
    if b < |blocks| - 1 {
      TxCountOfPrefix(front, b);
      assert front[..b] == blocks[..b];
    }
  }

  /** The nonce before a transaction of the run, bounded from both sides. */
  lemma NonceBefore(s: State, blocks: seq<(Block, string)>, b: nat, i: nat, id: string)
    requires b < |blocks| && i <= |blocks[b].0.transactions| && NonceOf(s.accounts, id) + TxCount(blocks) < LIMIT
    ensures NonceOf(AfterBlocks(s, blocks[..b]).accounts, id) <= NonceOf(Before(s, blocks, b, i), id)
    ensures NonceOf(Before(s, blocks, b, i), id) <= NonceOf(AfterBlocks(s, blocks[..b + 1]).accounts, id)
    ensures i < |blocks[b].0.transactions| ==> NonceOf(Before(s, blocks, b, i), id) + 1 < LIMIT
  {
    TxCountOfPrefix(blocks, b);
    NonceAfterBlocks(s, blocks[..b], 0, id);
    assert blocks[..b + 1][..b] == blocks[..b];
    var start := AfterBlocks(s, blocks[..b]);
    NonceAfterBlock(start, blocks[b].0, blocks[b].1, i, id);
    NonceAfterTransactions(start.accounts, blocks[b].0.transactions[..i], id);
  }

  /** After a success the nonce is the transaction's own, from the next transaction on. */
  lemma NonceAfterSuccess(s: State, blocks: seq<(Block, string)>, b: nat, i: nat)
    requires b < |blocks| && i < |blocks[b].0.transactions| && SucceedsAt(s, blocks, b, i)
    requires var tx := blocks[b].0.transactions[i];
             tx.from !in BYPASS_NONCE && NonceOf(s.accounts, tx.from) + TxCount(blocks) < LIMIT
    ensures var tx := blocks[b].0.transactions[i];
            tx.nonce as int == NonceOf(Before(s, blocks, b, i), tx.from) + 1 ==
              NonceOf(Before(s, blocks, b, i + 1), tx.from)
  {
    var txs := blocks[b].0.transactions;
    NonceBefore(s, blocks, b, i, txs[i].from);
    assert txs[..i + 1][..i] == txs[..i];
    NonceStep(Before(s, blocks, b, i), txs[i], txs[i].from);
  }

  /** The nonce of an account at two points of a run, the first not after the second. */
  lemma NonceGrows(s: State, blocks: seq<(Block, string)>, b: nat, i: nat, b': nat, i': nat, id: string)
    requires b < |blocks| && i <= |blocks[b].0.transactions| && b' < |blocks| && i' <= |blocks[b'].0.transactions|
    requires b < b' || (b == b' && i <= i')
    requires NonceOf(s.accounts, id) + TxCount(blocks) < LIMIT
    ensures NonceOf(Before(s, blocks, b, i), id) <= NonceOf(Before(s, blocks, b', i'), id)
  {
    TxCountOfPrefix(blocks, b');
    if b < b' {
      NonceBefore(s, blocks, b, i, id);
      NonceBefore(s, blocks, b', i', id);
      NonceAfterBlocks(s, blocks[..b'], b + 1, id);
      assert blocks[..b'][..b + 1] == blocks[..b + 1];
    } else {
      NonceAfterBlocks(s, blocks[..b], 0, id);
      NonceWithinBlock(AfterBlocks(s, blocks[..b]).accounts, blocks[b].0.transactions, i, i', id);
    }
  }

  /** The successful transactions of one sender outside the bypass list carry strictly growing nonces. */
  lemma SuccessesUseGrowingNonces(s: State, blocks: seq<(Block, string)>, b: nat, i: nat, b': nat, i': nat)
    requires b < |blocks| && i < |blocks[b].0.transactions| && b' < |blocks| && i' < |blocks[b'].0.transactions|
    requires b < b' || (b == b' && i < i')
    requires SucceedsAt(s, blocks, b, i) && SucceedsAt(s, blocks, b', i')
    requires var from := blocks[b].0.transactions[i].from;
             from == blocks[b'].0.transactions[i'].from && from !in BYPASS_NONCE
               && NonceOf(s.accounts, from) + TxCount(blocks) < LIMIT
    ensures blocks[b].0.transactions[i].nonce < blocks[b'].0.transactions[i'].nonce
  {
    NonceAfterSuccess(s, blocks, b, i);
    NonceAfterSuccess(s, blocks, b', i');
    NonceGrows(s, blocks, b, i + 1, b', i', blocks[b].0.transactions[i].from);
  }

  /** In a run with fewer transactions than nonces are left, one transaction does not succeed twice. */
  lemma SucceedsAtMostOnce(s: State, blocks: seq<(Block, string)>, b: nat, i: nat, b': nat, i': nat)
    requires b < |blocks| && i < |blocks[b].0.transactions| && b' < |blocks| && i' < |blocks[b'].0.transactions|
    requires SucceedsAt(s, blocks, b, i) && SucceedsAt(s, blocks, b', i')
    requires blocks[b].0.transactions[i] == blocks[b'].0.transactions[i']
    requires var tx := blocks[b].0.transactions[i];
             tx.from !in BYPASS_NONCE && NonceOf(s.accounts, tx.from) + TxCount(blocks) < LIMIT
    ensures b == b' && i == i'
  {
    if b < b' || (b == b' && i < i') {
      SuccessesUseGrowingNonces(s, blocks, b, i, b', i');
    } else if b' < b || (b == b' && i' < i) {
      SuccessesUseGrowingNonces(s, blocks, b', i', b, i);
    }
  }
}
