/** Block execution over the write-back cache: records are fetched as references and updated in place, and the batch
that is committed at the end of a block is what the ledger's functions say. */
module BlockExecution {
  import opened Wrappers
  import opened Integers
  import opened Ledger
  import opened WriteBackCache

  lemma LastWriteWins<V>(m: map<string, V>, k: string, a: V, b: V)
    ensures m[k := a][k := b] == m[k := b]
  {
  }

  class Executor {
    const accounts: Cache<Account>
    /** The lists of delayed transactions in the store. */
    var delayed: map<string, seq<Payload>>

    ghost predicate Valid()
      reads this, accounts, accounts.cells
    {
      accounts.Valid() && accounts.zero == NEW_ACCOUNT
    }

    /** What is in the store. */
    ghost function Stored(): State
      reads this, accounts
    {
      State(accounts.store, delayed)
    }

    constructor (cap: int, state: State)
      ensures Valid() && accounts.Flushed() && Stored() == state && fresh(accounts) && accounts.cells == {}
    {
      accounts := new Cache(cap, NEW_ACCOUNT, state.accounts);
      delayed := state.delayed;
    }

    method ExecuteDelayedTransaction(tx: Transaction, accountFrom: Cell<Account>)
      returns (success: bool, fee: uint64, payload: Option<Payload>)
      requires Valid() && tx.from in accounts.touched && accounts.touched[tx.from] == accountFrom && IsDelayed(tx)
      modifies accountFrom
      ensures Valid()
      ensures tx.from in old(accounts.Contents())
              && Outcome(accounts.Contents(), success, fee, payload) == ExecuteDelayed(old(accounts.Contents()), tx)
    {
      ghost var before := accounts.Contents();
      if !DelayedOk(tx, accountFrom.value) {
        return false, 0, None;
      }
      ghost var paid := Paid(accountFrom.value, tx.fee);
      ghost var staked := Paid(paid, StakeOf(tx.payload));
      accounts.Write(tx.from, accountFrom, Paid(accountFrom.value, tx.fee));
      if Field(tx.payload, "type") == "stake" {
        var stakeAmount := ParseUint64(Field(tx.payload, "amount"));
        accounts.Write(tx.from, accountFrom, Paid(accountFrom.value, stakeAmount.value));
        LastWriteWins(before, tx.from, paid, staked);
      }
      assert accounts.Contents() == before[tx.from := staked];
      LastWriteWins(before, tx.from, staked, Counted(staked));
      accounts.Write(tx.from, accountFrom, Counted(accountFrom.value));
      return true, tx.fee, Some(tx.payload);
    }

    method ExecuteTransfer(tx: Transaction, accountFrom: Cell<Account>) returns (success: bool, fee: uint64)
      requires Valid() && tx.from in accounts.touched && accounts.touched[tx.from] == accountFrom
      modifies accounts, accounts.cells
      ensures Valid() && accounts.store == old(accounts.store)
      ensures fresh(accounts.cells - old(accounts.cells)) && old(accounts.cells) <= accounts.cells
      ensures tx.from in old(accounts.Contents())
              && Outcome(accounts.Contents(), success, fee, None) == Transfer(old(accounts.Contents()), tx)
    {
      var accountTo := accounts.GetOrCreate(tx.to);
      var totalSpend := Add(tx.fee, tx.amount);
      if !NonceOk(tx, accountFrom.value) {
        return false, 0;
      }
      if accountFrom.value.balance >= totalSpend {
        accounts.Write(tx.from, accountFrom, Paid(accountFrom.value, totalSpend));
        accounts.Write(tx.to, accountTo, Credited(accountTo.value, tx.amount));
        accounts.Write(tx.from, accountFrom, Counted(accountFrom.value));
        return true, tx.fee;
      }
      return false, 0;
    }

    method ExecuteTransaction(tx: Transaction) returns (success: bool, fee: uint64, payload: Option<Payload>)
      requires Valid()
      modifies accounts, accounts.cells
      ensures Valid() && accounts.store == old(accounts.store)
      ensures fresh(accounts.cells - old(accounts.cells)) && old(accounts.cells) <= accounts.cells
      ensures Outcome(accounts.Contents(), success, fee, payload) == Execute(old(accounts.Contents()), tx)
    {
      if !tx.validKeys {
        return false, 0, None;
      }
      if tx.validSignature {
        var accountFrom := accounts.GetOrCreate(tx.from);
        accounts.Write(tx.from, accountFrom, accountFrom.value.(initiated := Add(accountFrom.value.initiated, 1)));
        if IsDelayed(tx) {
          success, fee, payload := ExecuteDelayedTransaction(tx, accountFrom);
          return;
        }
        success, fee := ExecuteTransfer(tx, accountFrom);
        payload := None;
        return;
      }
      return false, 0, None;
    }

    method ApplyTransactions(txs: seq<Transaction>) returns (blockFees: uint64, payloads: seq<Payload>)
      requires Valid()
      modifies accounts, accounts.cells
      ensures Valid() && accounts.store == old(accounts.store)
      ensures fresh(accounts.cells - old(accounts.cells)) && old(accounts.cells) <= accounts.cells
      ensures Progress(accounts.Contents(), blockFees, payloads) == AfterTransactions(old(accounts.Contents()), txs)
    {
      blockFees, payloads := 0, [];
      var i := 0;
      while i < |txs|
        invariant 0 <= i <= |txs|
        invariant Valid() && accounts.store == old(accounts.store)
        invariant fresh(accounts.cells - old(accounts.cells)) && old(accounts.cells) <= accounts.cells
        invariant Progress(accounts.Contents(), blockFees, payloads) ==
                  AfterTransactions(old(accounts.Contents()), txs[..i])
      {
        var _, fee, payload := ExecuteTransaction(txs[i]);
        if payload.Some? {
          payloads := payloads + [payload.value];
        }
        blockFees := Add(blockFees, fee);
        assert txs[..i + 1][..i] == txs[..i];
        i := i + 1;
      }
      assert txs[..i] == txs;
    }

    method SendFeesToValidatorAccount(creator: string, blockFees: uint64)
      requires Valid()
      modifies accounts, accounts.cells
      ensures Valid() && accounts.store == old(accounts.store)
      ensures fresh(accounts.cells - old(accounts.cells)) && old(accounts.cells) <= accounts.cells
      ensures accounts.Contents() == Deposit(old(accounts.Contents()), creator, blockFees)
    {
      var account := accounts.GetOrCreate(creator);
      accounts.Write(creator, account, Credited(account.value, blockFees));
    }

    /** The block's transactions and fees, in a batch of their own. */
    method ApplyBlock(b: Block) returns (payloads: seq<Payload>)
      requires Valid() && accounts.Flushed()
      modifies accounts, accounts.cells
      ensures Valid()
      ensures fresh(accounts.cells - old(accounts.cells)) && old(accounts.cells) <= accounts.cells
      ensures var p := AfterTransactions(old(accounts.store), b.transactions);
              payloads == p.payloads && accounts.Contents() == Deposit(p.accounts, b.creator, p.fees)
    {
      accounts.ResetTouched();
      var blockFees;
      blockFees, payloads := ApplyTransactions(b.transactions);
      SendFeesToValidatorAccount(b.creator, blockFees);
    }

    /** The block's delayed transactions go to the end of their list. */
    method RecordDelayed(key: string, payloads: seq<Payload>)
      modifies `delayed
      ensures delayed == Recorded(old(delayed), key, payloads)
    {
      if |payloads| > 0 {
        delayed := delayed[key := ListAt(delayed, key) + payloads];
      }
    }

    /** Executes a block and commits: store, cache and touched set agree afterwards. */
    method ExecuteBlock(b: Block, key: string)
      requires Valid() && accounts.Flushed()
      modifies `delayed, accounts, accounts.cells
      ensures Valid() && accounts.Flushed()
      ensures fresh(accounts.cells - old(accounts.cells)) && old(accounts.cells) <= accounts.cells
      ensures Stored() == AfterBlock(old(Stored()), b, key)
      ensures forall k | k in accounts.cache :: k in accounts.store && accounts.cache[k].value == accounts.store[k]
    {
      var payloads := ApplyBlock(b);
      RecordDelayed(key, payloads);
      accounts.Commit();
    }

    /** Any run of blocks leaves in the store what the ledger's run leaves, whatever was evicted on the way. */
    method ExecuteBlocks(blocks: seq<(Block, string)>)
      requires Valid() && accounts.Flushed()
      modifies `delayed, accounts, accounts.cells
      ensures Valid() && accounts.Flushed() && Stored() == AfterBlocks(old(Stored()), blocks)
    {
      var i := 0;
      while i < |blocks|
        invariant 0 <= i <= |blocks|
        invariant Valid() && accounts.Flushed()
        invariant fresh(accounts.cells - old(accounts.cells)) && old(accounts.cells) <= accounts.cells
        invariant Stored() == AfterBlocks(old(Stored()), blocks[..i])
      {
        ExecuteBlock(blocks[i].0, blocks[i].1);
        assert blocks[..i + 1][..i] == blocks[..i];
        i := i + 1;
      }
      assert blocks[..i] == blocks;
    }
  }
}
