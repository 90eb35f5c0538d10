/** A payment from the order to the balances, with the program's own operations. */
module Settlement {
  import opened Wrappers
  import opened Transactions
  import opened Blocks
  import opened Chains
  import opened Unspent
  import opened Ledger
  import opened Agreement
  import opened Payments
  import opened Mining
  import opened MiningRun

  /** Every output is spent at most once, and the hashes are in order. */
  ghost predicate Sane(c: Crypto, chain: seq<Block>) {
    GoodChain(c, chain) && Accounted(chain)
  }

  lemma {:induction false} AccountedWellFormed(chain: seq<Block>)
    requires ChainResolvable(chain)
    ensures TransactionsWellFormed(chain)
  {
    forall b <- chain, tx <- b.transactions ensures tx.WellFormed() {
      assert Resolvable(chain, b);
    }
  }

  /** The search for the block that holds the payment is over at the limit. */
  predicate SearchEnds(c: Crypto, chain: seq<Block>, tx: Transaction, wallet: string, now: int,
                       difficulty: nat, w: World, limit: nat)
    requires chain != []
  {
    OverAt(c, UnminedBlock(c, chain, [tx], wallet, now), difficulty, w, limit)
  }

  /** Mines the block that holds the one payment, and appends it. */
  method MineNext(chain: Blockchain, miner: Miner, tx: Transaction, wallet: string, now: int, w: World,
                  ghost limit: nat)
      returns (searched: ResultType, ghost block: Block)
    requires GoodChain(chain.crypto, chain.blocks) && chain.txQueue == [] && miner.crypto == chain.crypto
    requires OnlyCleared(w) && SearchEnds(chain.crypto, chain.blocks, tx, wallet, now, miner.difficulty, w, limit)
    modifies chain
    ensures searched == ResultType.SUCCESS ==>
              && chain.blocks == old(chain.blocks) + [block] && GoodChain(chain.crypto, chain.blocks)
              && block.index == |old(chain.blocks)|
              && block.transactions == [CreateCoinbaseTransaction(chain.crypto, block.index, wallet)]
                                       + WithIds(chain.crypto, [tx], block.index)
    ensures searched != ResultType.SUCCESS ==> chain.blocks == old(chain.blocks)
  {
    chain.QueueTransaction(tx);
    assert chain.txQueue == [tx];
    var template := chain.CreateUnminedBlock(wallet, now);
    assert template == template.SetMiner("").SetData("");
    var mined: Block;
    searched, mined := miner.MineBlock(template, w, limit);
    block := mined;
    if searched == ResultType.SUCCESS {
      MinedIsAccepted(chain.crypto, chain.blocks, [tx], wallet, now, "", "", miner.difficulty, w, limit);
      var added := chain.AddNewBlock(mined, true);
    }
  }

  /** Creates a payment, queues it, mines the next block and appends it. If the payment and the search both
      succeed, the block is taken, the sender's balance has fallen by the amount, the receiver's has risen
      by it, the miner's has risen by the reward, and no other balance has moved. */
  method PayAndMine(chain: Blockchain, miner: Miner, sender: string, receiver: string, amount: Amount,
                    wallet: string, now: int, w: World, ghost limit: Transaction -> nat, address: string)
      returns (paid: TxResult, searched: ResultType, before: Amount, after: Amount)
    requires Sane(chain.crypto, chain.blocks) && chain.txQueue == [] && miner.crypto == chain.crypto
    requires sender != "" && address != ""
    requires OnlyCleared(w)
    requires forall tx :: SearchEnds(chain.crypto, chain.blocks, tx, wallet, now, miner.difficulty, w, limit(tx))
    modifies chain
    ensures IndicesInRange(old(chain.blocks)) && ChainResolvable(old(chain.blocks))
    ensures old(LedgerOf(chain.blocks, address)).Some?
    ensures before == LedgerSum(old(LedgerOf(chain.blocks, address)).value)
    ensures IndicesInRange(chain.blocks) && ChainResolvable(chain.blocks) && LedgerOf(chain.blocks, address).Some?
    ensures after == LedgerSum(LedgerOf(chain.blocks, address).value)
    ensures paid == TxResult.SUCCESS ==> exists tx :: IsOutcome(old(chain.blocks), sender, receiver, amount, paid, tx)
    ensures paid == TxResult.SUCCESS && searched == ResultType.SUCCESS ==>
              && Sane(chain.crypto, chain.blocks) && |chain.blocks| == |old(chain.blocks)| + 1
              && after == before
                          + (if address == receiver then amount else 0.0)
                          - (if address == sender then amount else 0.0)
                          + (if address == wallet then COINBASE_REWARD else 0.0)
    ensures !(paid == TxResult.SUCCESS && searched == ResultType.SUCCESS) ==>
              chain.blocks == old(chain.blocks) && after == before
  {
    ghost var was := chain.blocks;
    BalancesAgree(chain.blocks, address);
    before := GetAddressBalance(chain.blocks, address);
    after := before;
    searched := ABORT;
    AccountedWellFormed(chain.blocks);
    var tx: Transaction;
    paid, tx := CreateTransaction(chain.blocks, sender, receiver, amount);
    if paid == TxResult.SUCCESS {
      ghost var block: Block;
      searched, block := MineNext(chain, miner, tx, wallet, now, w, limit(tx));
      if searched == ResultType.SUCCESS {
        OneOrder(chain.crypto, was, Order(sender, receiver, amount, tx), wallet, block, address);
        after := GetAddressBalance(chain.blocks, address);
      }
    }
  }

  /** The settlement of a single order. */
  lemma {:induction false} OneOrder(c: Crypto, chain: seq<Block>, o: Order, wallet: string, b: Block, address: string)
    requires chain != [] && Accounted(chain) && address != "" && Placeable(chain, o)
    requires b.index == |chain|
    requires b.transactions == [CreateCoinbaseTransaction(c, |chain|, wallet)] + WithIds(c, [o.tx], |chain|)
    ensures Accounted(chain + [b])
    ensures IndicesInRange(chain) && LedgerOf(chain, address).Some?
    ensures IndicesInRange(chain + [b]) && LedgerOf(chain + [b], address).Some?
    ensures LedgerSum(LedgerOf(chain + [b], address).value)
         == LedgerSum(LedgerOf(chain, address).value) + OrderEffect(o, address)
            + if address == wallet then COINBASE_REWARD else 0.0
  {
    assert OrderTransactions([o]) == [o.tx];
    PaymentsSettle(c, chain, [o], wallet, b, address);
    assert OrdersEffect([o], address, 0) == 0.0;
  }
}
