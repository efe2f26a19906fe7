/** What executing transactions and blocks does to each account and to each list of delayed transactions, stated on the
accounts before and the transactions alone. */
module AccountLaws {
  import opened Wrappers
  import opened Integers
  import opened MapSums
  import opened Ledger

  function AccountOf(accounts: Accounts, id: string): Account {
    if id in accounts then accounts[id] else NEW_ACCOUNT
  }

  function BalanceOf(accounts: Accounts, id: string): int {
    AccountOf(accounts, id).balance as int
  }

  /** What a transaction that passes adds to a balance: the sender pays fee and amount, the receiver gets the amount. */
  function Moved(tx: Transaction, id: string): int {
    (if id == tx.to && !IsDelayed(tx) then tx.amount as int else 0) - (if id == tx.from then Spent(tx) else 0)
  }

  // ---------------------------------------------------------------------------------------------
  // One transaction
  // ---------------------------------------------------------------------------------------------

  /** When a transaction passes: one rule for all kinds, with the 64-bit sum of what it spends. */
  lemma PassesIff(accounts: Accounts, tx: Transaction)
    ensures Passes(accounts, tx) <==>
            && tx.validKeys && tx.validSignature
            && (tx.from in BYPASS_NONCE || tx.nonce as int == (AccountOf(accounts, tx.from).nonce as int + 1) % LIMIT)
            && BalanceOf(accounts, tx.from) >= Spent(tx) % LIMIT
            && (IsDelayed(tx) ==> BalanceOf(accounts, tx.from) >= tx.fee as int)
            && (Field(tx.payload, "type") in {"createValidator", "updateValidator"} ==>
                 Field(tx.payload, "creator") == tx.from)
            && (Field(tx.payload, "type") == "stake" ==> ParseUint64(Field(tx.payload, "amount")).Some?)
  {
  }

  /** Two numbers that differ by so many times the size of the 64-bit range. */
  predicate Wraps(x: int, sum: int, times: int) {
    x == sum - times * 0x1_0000_0000_0000_0000
  }

  /** A sum as 64 bits hold it. */
  function Wrapped(sum: int): int {
    sum % LIMIT
  }

  lemma WrapsIsWrapped(x: int, sum: int, times: int)
    requires Wraps(x, sum, times) && 0 <= x < LIMIT
    ensures x == Wrapped(sum)
  {
  }

  lemma PaidThenCredited(a: Account, spend: uint64, amount: uint64) returns (times: int)
    ensures Wraps(Credited(Paid(a, spend), amount).balance as int, a.balance as int - spend as int + amount as int,
              times)
  {
    times := (if a.balance < spend then -1 else 0)
      + if Paid(a, spend).balance as int + amount as int >= LIMIT then 1 else 0;
  }

  lemma PaidTwice(a: Account, fee: uint64, stake: uint64) returns (times: int)
    ensures Wraps(Paid(Paid(a, fee), stake).balance as int, a.balance as int - fee as int - stake as int, times)
  {
    times := (if a.balance < fee then -1 else 0) + if Paid(a, fee).balance < stake then -1 else 0;
  }

  lemma TransferredBalance(accounts: Accounts, tx: Transaction, id: string) returns (times: int)
    requires tx.from in accounts && !IsDelayed(tx) && Transfer(accounts, tx).success
    ensures Wraps(BalanceOf(Transfer(accounts, tx).accounts, id), BalanceOf(accounts, id) + Moved(tx, id), times)
  {
    var was, totalSpend := AccountOf(accounts, id), Add(tx.fee, tx.amount);
    if id == tx.from {
      var overflow := if tx.fee as int + tx.amount as int >= LIMIT then 1 else 0;
      if id == tx.to {
        times := PaidThenCredited(was, totalSpend, tx.amount);
        times := times - overflow;
      } else {
        times := -overflow;
      }
    } else {
      times := if id == tx.to && was.balance as int + tx.amount as int >= LIMIT then 1 else 0;
    }
  }

  lemma DelayedBalance(accounts: Accounts, tx: Transaction, id: string) returns (times: int)
    requires tx.from in accounts && IsDelayed(tx) && ExecuteDelayed(accounts, tx).success
    ensures Wraps(BalanceOf(ExecuteDelayed(accounts, tx).accounts, id), BalanceOf(accounts, id) + Moved(tx, id), times)
  {
    times := 0;
    if id == tx.from {
      times := PaidTwice(AccountOf(accounts, id), tx.fee, StakeOf(tx.payload));
    }
  }

  lemma BalanceWraps(accounts: Accounts, tx: Transaction, id: string) returns (times: int)
    ensures Wraps(BalanceOf(Execute(accounts, tx).accounts, id),
              BalanceOf(accounts, id) + if Passes(accounts, tx) then Moved(tx, id) else 0, times)
  {
    SucceedsIffPasses(accounts, tx);
    times := 0;
    if tx.validKeys && tx.validSignature {
      var started := Started(accounts, tx);
      assert BalanceOf(started, id) == BalanceOf(accounts, id);
      if Passes(accounts, tx) {
        if IsDelayed(tx) {
          times := DelayedBalance(started, tx, id);
        } else {
          times := TransferredBalance(started, tx, id);
        }
      }
    }
  }

  /** Every balance after a transaction, whoever sends it to whom, modulo the 64-bit range. */
  lemma BalanceAfter(accounts: Accounts, tx: Transaction, id: string)
    ensures BalanceOf(Execute(accounts, tx).accounts, id) ==
            Wrapped(BalanceOf(accounts, id) + if Passes(accounts, tx) then Moved(tx, id) else 0)
  {
    var times := BalanceWraps(accounts, tx, id);
    WrapsIsWrapped(BalanceOf(Execute(accounts, tx).accounts, id),
      BalanceOf(accounts, id) + if Passes(accounts, tx) then Moved(tx, id) else 0, times);
  }

  /** Every counter after a transaction, which accounts there are, and what the block collects of it. */
  lemma CountersAfter(accounts: Accounts, tx: Transaction, id: string)
    ensures var o, was := Execute(accounts, tx), AccountOf(accounts, id);
            var now, passes := AccountOf(o.accounts, id), Passes(accounts, tx);
            var attempt := id == tx.from && tx.validKeys && tx.validSignature;
            && now.initiated == Add(was.initiated, if attempt then 1 else 0)
            && now.nonce == Add(was.nonce, if id == tx.from && passes then 1 else 0)
            && now.successful == Add(was.successful, if id == tx.from && passes then 1 else 0)
            && (id in o.accounts <==>
                 || id in accounts
                 || attempt
                 || (id == tx.to && tx.validKeys && tx.validSignature && !IsDelayed(tx)))
            && o.fee == (if passes then tx.fee else 0)
            && o.delayed == (if passes && IsDelayed(tx) then Some(tx.payload) else None)
  {
    SucceedsIffPasses(accounts, tx);
  }

  /** A payer and a receiver that are not one account own at most the supply together. */
  lemma TwoBalances(accounts: Accounts, a: string, b: string)
    requires a != b
    ensures BalanceOf(accounts, a) + BalanceOf(accounts, b) <= Balances(accounts)
  {
    BalancesAfterUpdate(accounts, a, NEW_ACCOUNT);
    BalancesAfterUpdate(accounts[a := NEW_ACCOUNT], b, NEW_ACCOUNT);
  }

  lemma MovedStaysInRange(accounts: Accounts, tx: Transaction, id: string)
    requires Balances(accounts) < LIMIT && Fits(tx) && Passes(accounts, tx)
    ensures 0 <= BalanceOf(accounts, id) + Moved(tx, id) < LIMIT
  {
    PassesIff(accounts, tx);
    BalancesAfterUpdate(accounts, id, AccountOf(accounts, id));
    if id == tx.to && id != tx.from {
      TwoBalances(accounts, tx.from, id);
    }
  }

  /** When what is spent and the supply fit 64 bits, no balance wraps: each changes by what the transaction moves. */
  lemma BalanceAfterExactly(accounts: Accounts, tx: Transaction, id: string)
    requires Balances(accounts) < LIMIT && Fits(tx)
    ensures BalanceOf(Execute(accounts, tx).accounts, id) ==
            BalanceOf(accounts, id) + if Passes(accounts, tx) then Moved(tx, id) else 0
  {
    var times := BalanceWraps(accounts, tx, id);
    if Passes(accounts, tx) {
      MovedStaysInRange(accounts, tx, id);
    }
  }

  // ---------------------------------------------------------------------------------------------
  // Blocks
  // ---------------------------------------------------------------------------------------------

  /** The accounts a list of transactions leaves. */
  function After(accounts: Accounts, txs: seq<Transaction>): Accounts {
    AfterTransactions(accounts, txs).accounts
  }

  /** What the transactions that pass, each on the accounts it finds, add to a balance. */
  function AllMoved(accounts: Accounts, txs: seq<Transaction>, id: string): int {
    if txs == [] then 0
    else
      var front, last := txs[..|txs| - 1], txs[|txs| - 1];
      AllMoved(accounts, front, id) + if Passes(After(accounts, front), last) then Moved(last, id) else 0
  }

  /** The fees of the transactions that pass. */
  function FeesOf(accounts: Accounts, txs: seq<Transaction>): nat {
    if txs == [] then 0
    else
      var front, last := txs[..|txs| - 1], txs[|txs| - 1];
      FeesOf(accounts, front) + if Passes(After(accounts, front), last) then last.fee as nat else 0
  }

  /** What a block adds to a balance: what its transactions move, and all their fees for the creator. */
  function BlockMoved(accounts: Accounts, b: Block, id: string): int {
    AllMoved(accounts, b.transactions, id) + if id == b.creator then FeesOf(accounts, b.transactions) else 0
  }

  lemma OneMore(p: Progress, tx: Transaction, id: string) returns (times: int, feeTimes: int)
    ensures Wraps(BalanceOf(ThenExecute(p, tx).accounts, id),
              BalanceOf(p.accounts, id) + if Passes(p.accounts, tx) then Moved(tx, id) else 0, times)
    ensures Wraps(ThenExecute(p, tx).fees as int,
              p.fees as int + if Passes(p.accounts, tx) then tx.fee as int else 0, feeTimes)
  {
    times := BalanceWraps(p.accounts, tx, id);
    CountersAfter(p.accounts, tx, id);
    feeTimes := if p.fees as int + Execute(p.accounts, tx).fee as int >= LIMIT then 1 else 0;
  }

  lemma {:induction false} TransactionsWrap(accounts: Accounts, txs: seq<Transaction>, id: string)
    returns (times: int, feeTimes: int)
    ensures Wraps(BalanceOf(After(accounts, txs), id), BalanceOf(accounts, id) + AllMoved(accounts, txs, id), times)
    ensures Wraps(AfterTransactions(accounts, txs).fees as int, FeesOf(accounts, txs), feeTimes)
  {
    times, feeTimes := 0, 0;
    if txs != [] {
      var front, last := txs[..|txs| - 1], txs[|txs| - 1];
      times, feeTimes := TransactionsWrap(accounts, front, id);
      var more, feeMore := OneMore(AfterTransactions(accounts, front), last, id);
      times, feeTimes := times + more, feeTimes + feeMore;
    }
  }

  lemma DepositWraps(accounts: Accounts, creator: string, fees: uint64, id: string) returns (times: int)
    ensures Wraps(BalanceOf(Deposit(accounts, creator, fees), id),
              BalanceOf(accounts, id) + if id == creator then fees as int else 0, times)
  {
    times := if id == creator && BalanceOf(accounts, id) + fees as int >= LIMIT then 1 else 0;
  }

  lemma BlockWraps(s: State, b: Block, key: string, id: string) returns (times: int)
    ensures Wraps(BalanceOf(AfterBlock(s, b, key).accounts, id),
              BalanceOf(s.accounts, id) + BlockMoved(s.accounts, b, id), times)
  {
    var p := AfterTransactions(s.accounts, b.transactions);
    var feeTimes;
    times, feeTimes := TransactionsWrap(s.accounts, b.transactions, id);
    var more := DepositWraps(p.accounts, b.creator, p.fees, id);
    times := times + more + if id == b.creator then feeTimes else 0;
  }

  /** Every balance after a block, modulo the 64-bit range. */
  lemma BalanceAfterBlock(s: State, b: Block, key: string, id: string)
    ensures BalanceOf(AfterBlock(s, b, key).accounts, id) ==
            Wrapped(BalanceOf(s.accounts, id) + BlockMoved(s.accounts, b, id))
  {
    var times := BlockWraps(s, b, key, id);
    WrapsIsWrapped(BalanceOf(AfterBlock(s, b, key).accounts, id),
      BalanceOf(s.accounts, id) + BlockMoved(s.accounts, b, id), times);
  }

  lemma OneMoreExactly(p: Progress, tx: Transaction, id: string)
    requires Balances(p.accounts) + p.fees as int < LIMIT && Fits(tx)
    ensures BalanceOf(ThenExecute(p, tx).accounts, id) ==
            BalanceOf(p.accounts, id) + if Passes(p.accounts, tx) then Moved(tx, id) else 0
    ensures ThenExecute(p, tx).fees as int == p.fees as int + if Passes(p.accounts, tx) then tx.fee as int else 0
  {
    BalanceAfterExactly(p.accounts, tx, id);
    CountersAfter(p.accounts, tx, id);
    ExecuteConserves(p.accounts, tx);
  }

  lemma {:induction false} BalanceAfterTransactionsExactly(accounts: Accounts, txs: seq<Transaction>, id: string)
    requires Balances(accounts) < LIMIT && forall tx | tx in txs :: Fits(tx)
    ensures BalanceOf(After(accounts, txs), id) == BalanceOf(accounts, id) + AllMoved(accounts, txs, id)
    ensures AfterTransactions(accounts, txs).fees as int == FeesOf(accounts, txs)
    ensures BalanceOf(After(accounts, txs), id) + FeesOf(accounts, txs) < LIMIT
  {
    TransactionsConserve(accounts, txs);
    BalancesAfterUpdate(After(accounts, txs), id, NEW_ACCOUNT);
    if txs != [] {
      var front, last := txs[..|txs| - 1], txs[|txs| - 1];
      BalanceAfterTransactionsExactly(accounts, front, id);
      TransactionsConserve(accounts, front);
      OneMoreExactly(AfterTransactions(accounts, front), last, id);
    }
  }

  /** When the supply and what is spent fit 64 bits, a block changes each balance by exactly what its transactions move
  and, for the creator, by their fees: also when sender, receiver and creator coincide. */
  lemma BalanceAfterBlockExactly(s: State, b: Block, key: string, id: string)
    requires Balances(s.accounts) < LIMIT && BlockFits(b)
    ensures BalanceOf(AfterBlock(s, b, key).accounts, id) ==
            BalanceOf(s.accounts, id) + BlockMoved(s.accounts, b, id)
  {
    BalanceAfterTransactionsExactly(s.accounts, b.transactions, id);
  }

  /** What a run of blocks adds to a balance, block by block. */
  function RunMoved(s: State, blocks: seq<(Block, string)>, id: string): int {
    if blocks == [] then 0
    else
      var front, last := blocks[..|blocks| - 1], blocks[|blocks| - 1];
      RunMoved(s, front, id) + BlockMoved(AfterBlocks(s, front).accounts, last.0, id)
  }

  /** Over any run of blocks, each balance is what it was, plus all that was moved to it. */
  lemma {:induction false} BalanceAfterBlocks(s: State, blocks: seq<(Block, string)>, id: string)
    requires Balances(s.accounts) < LIMIT && forall b | b in blocks :: BlockFits(b.0)
    ensures BalanceOf(AfterBlocks(s, blocks).accounts, id) == BalanceOf(s.accounts, id) + RunMoved(s, blocks, id)
  {
    if blocks != [] {
      var front, last := blocks[..|blocks| - 1], blocks[|blocks| - 1];
      BalanceAfterBlocks(s, front, id);
      BlocksConserve(s, front);
      BalanceAfterBlockExactly(AfterBlocks(s, front), last.0, last.1, id);
    }
  }

  // ---------------------------------------------------------------------------------------------
  // Lists of delayed transactions
  // ---------------------------------------------------------------------------------------------

  /** Transaction i of a block is delayed and passes on the accounts it finds. */
  predicate AcceptedAt(accounts: Accounts, txs: seq<Transaction>, i: nat)
    requires i < |txs|
  {
    IsDelayed(txs[i]) && Passes(After(accounts, txs[..i]), txs[i])
  }

  /** The positions in the block of what is recorded, in the order of recording. */
  ghost predicate Records(accounts: Accounts, txs: seq<Transaction>, payloads: seq<Payload>, positions: seq<nat>) {
    && |positions| == |payloads|
    && (forall i, j | 0 <= i < j < |positions| :: positions[i] < positions[j])
    && (forall k | 0 <= k < |positions| :: positions[k] < |txs| && payloads[k] == txs[positions[k]].payload)
    && (forall i: nat | i < |txs| :: i in positions <==> AcceptedAt(accounts, txs, i))
  }

  lemma RecordsOneMore(
      accounts: Accounts, txs: seq<Transaction>, n: nat, payloads: seq<Payload>, positions: seq<nat>)
    requires |txs| == n + 1 && Records(accounts, txs[..n], payloads, positions)
    ensures Records(accounts, txs, payloads + if AcceptedAt(accounts, txs, n) then [txs[n].payload] else [],
              positions + if AcceptedAt(accounts, txs, n) then [n] else [])
  {
    var extended := positions + if AcceptedAt(accounts, txs, n) then [n] else [];
    forall i: nat | i < |txs|
      ensures i in extended <==> AcceptedAt(accounts, txs, i)
    {
      if i < n {
        assert txs[..n][..i] == txs[..i];
        assert i in positions <==> AcceptedAt(accounts, txs[..n], i);
      }
    }
  }

  /** A block collects the payloads of exactly its accepted delayed transactions, in their order. */
  lemma {:induction false} CollectedInOrder(accounts: Accounts, txs: seq<Transaction>) returns (positions: seq<nat>)
    ensures Records(accounts, txs, AfterTransactions(accounts, txs).payloads, positions)
  {
    positions := [];
    if txs != [] {
      var n := |txs| - 1;
      var before := CollectedInOrder(accounts, txs[..n]);
      CountersAfter(After(accounts, txs[..n]), txs[n], "");
      RecordsOneMore(accounts, txs, n, AfterTransactions(accounts, txs[..n]).payloads, before);
      positions := before + if AcceptedAt(accounts, txs, n) then [n] else [];
    }
  }

  /** What a run of blocks records under a key: the collected payloads of the blocks with that key, in their order. */
  function RecordedUnder(s: State, blocks: seq<(Block, string)>, key: string): seq<Payload> {
    if blocks == [] then []
    else
      var front, last := blocks[..|blocks| - 1], blocks[|blocks| - 1];
      RecordedUnder(s, front, key)
        + if last.1 == key then AfterTransactions(AfterBlocks(s, front).accounts, last.0.transactions).payloads else []
  }

  lemma AppendAssociates(a: seq<Payload>, b: seq<Payload>, c: seq<Payload>)
    ensures a + b + c == a + (b + c)
  {
  }

  lemma ListAfterBlock(s: State, b: Block, key: string, other: string)
    ensures ListAt(AfterBlock(s, b, key).delayed, other) ==
            ListAt(s.delayed, other)
            + if other == key then AfterTransactions(s.accounts, b.transactions).payloads else []
  {
  }

  /** Over any run of blocks, each list grows by what the blocks of its key collect, and loses nothing. */
  lemma {:induction false} ListAfterBlocks(s: State, blocks: seq<(Block, string)>, key: string)
    ensures ListAt(AfterBlocks(s, blocks).delayed, key) == ListAt(s.delayed, key) + RecordedUnder(s, blocks, key)
  {
    if blocks != [] {
      var front, last := blocks[..|blocks| - 1], blocks[|blocks| - 1];
      ListAfterBlocks(s, front, key);
      ListAfterBlock(AfterBlocks(s, front), last.0, last.1, key);
      AppendAssociates(ListAt(s.delayed, key), RecordedUnder(s, front, key),
        if last.1 == key then AfterTransactions(AfterBlocks(s, front).accounts, last.0.transactions).payloads else []);
    }
  }
}
