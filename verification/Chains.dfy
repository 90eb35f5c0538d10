/** The chain a node holds and the transactions that wait to be mined: one object, updated in place. */
module Chains {
  import opened Transactions
  import opened Blocks
  import opened Identifiers
  import opened Retarget

  // ----- what the operations compute, as functions -----

  function Pow2(n: nat): nat {
    if n == 0 then 1 else 2 * Pow2(n - 1)
  }

  /** The work in the first n blocks. */
  function TotalWork(chain: seq<Block>, n: nat): nat
    requires n <= |chain|
  {
    if n == 0 then 0 else TotalWork(chain, n - 1) + Pow2(chain[n - 1].difficulty)
  }

  /** That work as the program counts it, in 64 bits. */
  function CumDifficulty(chain: seq<Block>, n: nat): nat
    requires n <= |chain|
  {
    TotalWork(chain, n) % UINT64_SIZE
  }

  lemma {:induction false} SumWraps(a: nat, b: nat)
    ensures (a % UINT64_SIZE + b) % UINT64_SIZE == (a + b) % UINT64_SIZE
  {
    var q := a / UINT64_SIZE;
    assert a + b == (a % UINT64_SIZE + b) + UINT64_SIZE * q;
  }

  /** The work a chain is said to have: that of every block but the last. */
  function Work(chain: seq<Block>): nat
    requires chain != []
  {
    CumDifficulty(chain, |chain| - 1)
  }

  predicate Accepts(c: Crypto, chain: seq<Block>, b: Block)
    requires chain != []
  {
    ValidHash(c, b) && b.previousHash == chain[|chain| - 1].hash
  }

  function Extended(c: Crypto, chain: seq<Block>, b: Block): seq<Block>
    requires chain != []
  {
    if Accepts(c, chain, b) then chain + [b] else chain
  }

  function CreateCoinbaseTransaction(c: Crypto, blockIdx: nat, address: string): Transaction {
    var tx := Transaction("", [PlainTxIn(OutPoint(blockIdx, 0, 0), "")], [TxOut(address, COINBASE_REWARD)]);
    tx.(id := TransactionId(c, tx, blockIdx))
  }

  function WithId(c: Crypto, tx: Transaction, blockIdx: nat): Transaction {
    tx.(id := TransactionId(c, tx, blockIdx))
  }

  function WithIds(c: Crypto, txs: seq<Transaction>, blockIdx: nat): seq<Transaction> {
    seq(|txs|, i requires 0 <= i < |txs| => WithId(c, txs[i], blockIdx))
  }

  /** One coinbase, then the queue in order. */
  function UnminedBlock(c: Crypto, chain: seq<Block>, queue: seq<Transaction>, wallet: string, now: int): Block
    requires chain != []
  {
    NewBlock(c, |chain|, chain[|chain| - 1].hash,
             [CreateCoinbaseTransaction(c, |chain|, wallet)] + WithIds(c, queue, |chain|), now)
  }

  /** A template is the reward and the queue in order. Each payment keeps inputs and outputs, and has the
      identifier of its own content at the new height, whatever it had before. */
  lemma {:induction false} TemplateHolds(c: Crypto, chain: seq<Block>, queue: seq<Transaction>, wallet: string,
                                         now: int)
    requires chain != []
    ensures var txs := UnminedBlock(c, chain, queue, wallet, now).transactions;
            && |txs| == |queue| + 1
            && txs[0].id == TransactionId(c, txs[0], |chain|)
            && forall i :: 0 <= i < |queue| ==>
                 && txs[i + 1].txIns == queue[i].txIns && txs[i + 1].txOuts == queue[i].txOuts
                 && txs[i + 1].id == TransactionId(c, txs[i + 1], |chain|) == TransactionId(c, queue[i], |chain|)
  {
    var txs := UnminedBlock(c, chain, queue, wallet, now).transactions;
    var first := CreateCoinbaseTransaction(c, |chain|, wallet);
    assert TransactionId(c, first, |chain|) == TransactionId(c, first.(id := ""), |chain|);
    forall i | 0 <= i < |queue|
      ensures txs[i + 1] == WithId(c, queue[i], |chain|)
      ensures TransactionId(c, txs[i + 1], |chain|) == TransactionId(c, queue[i], |chain|)
    {
      IdIgnoresTheRest(c, txs[i + 1], queue[i], |chain|, |queue[i].txIns|);
    }
  }

  /** A block without difficulty counts one, and with each difficulty more a block counts twice as much. */
  lemma {:induction false} DifficultyDoubles(chain: seq<Block>, b: Block)
    ensures b.difficulty == 0 ==> TotalWork(chain + [b], |chain| + 1) == TotalWork(chain + [b], |chain|) + 1
    ensures var harder := b.(difficulty := b.difficulty + 1);
            TotalWork(chain + [harder], |chain| + 1) - TotalWork(chain + [harder], |chain|)
            == 2 * (TotalWork(chain + [b], |chain| + 1) - TotalWork(chain + [b], |chain|))
  {
  }

  /** The block that a node without a file begins with. Miner and data are filled in after hashing. */
  function GenesisBlock(c: Crypto, wallet: string, now: int, miner: string, data: string): Block {
    NewBlock(c, 0, "", [CreateCoinbaseTransaction(c, 0, wallet)], now).SetMiner(miner).SetData(data)
  }

  /** The transactions of a block that go back to the queue. */
  function NonCoinbase(txs: seq<Transaction>): seq<Transaction> {
    if txs == [] then []
    else
      var n := |txs| - 1;
      NonCoinbase(txs[..n]) + if txs[n].IsCoinbase() then [] else [txs[n]]
  }

  class Blockchain {
    const crypto: Crypto
    const params: Params
    var blocks: seq<Block>
    var txQueue: seq<Transaction>

    constructor (crypto: Crypto, params: Params)
      ensures blocks == [] && txQueue == []
      ensures this.crypto == crypto && this.params == params
    {
      this.crypto := crypto;
      this.params := params;
      blocks := [];
      txQueue := [];
    }

    /** `back` of an empty vector is undefined, and is only read once the hash has been found good. */
    method AddNewBlock(block: Block, checkPreviousBlock: bool) returns (added: bool)
      requires checkPreviousBlock && ValidHash(crypto, block) ==> blocks != []
      modifies `blocks
      ensures added <==> ValidHash(crypto, block)
                         && (checkPreviousBlock ==> block.previousHash == old(blocks)[|old(blocks)| - 1].hash)
      ensures blocks == if added then old(blocks) + [block] else old(blocks)
    {
      if !ValidHash(crypto, block) {
        return false;
      } else if checkPreviousBlock && block.previousHash != blocks[|blocks| - 1].hash {
        return false;
      }
      blocks := blocks + [block];
      return true;
    }

    /** At the length of the chain `at` throws; beyond it the answer is no. */
    function IsValidBlockPair(idx: nat): bool
      requires idx != |blocks|
      reads `blocks
    {
      if idx > |blocks| || idx < 1 then false
      else ValidPair(crypto, blocks[idx - 1], blocks[idx])
    }

    method IsValidChain() returns (valid: bool)
      ensures valid <==> ValidChain(crypto, blocks)
    {
      if |blocks| == 0 {
        return true;
      }
      for idx := 1 to |blocks|
        invariant forall i :: 1 <= i < idx ==> ValidPair(crypto, blocks[i - 1], blocks[i])
      {
        if !IsValidBlockPair(idx) {
          return false;
        }
      }
      return true;
    }

    method CumulativeDifficulty(idx: nat) returns (total: nat)
      requires idx <= |blocks|
      ensures total == CumDifficulty(blocks, idx)
    {
      total := 0;
      for current := 0 to idx
        invariant total == CumDifficulty(blocks, current)
      {
        SumWraps(TotalWork(blocks, current), Pow2(blocks[current].difficulty));
        total := (total + Pow2(blocks[current].difficulty)) % UINT64_SIZE;
      }
    }

    method QueueTransaction(tx: Transaction)
      modifies `txQueue
      ensures txQueue == old(txQueue) + [tx]
    {
      txQueue := txQueue + [tx];
    }

    /** The payments of the block go to the end of the queue. */
    method ReQueueTransactions(block: Block) returns (count: nat)
      modifies `txQueue
      ensures txQueue == old(txQueue) + NonCoinbase(block.transactions)
      ensures count == |NonCoinbase(block.transactions)|
    {
      count := 0;
      var txs := block.transactions;
      for i := 0 to |txs|
        invariant txQueue == old(txQueue) + NonCoinbase(txs[..i])
        invariant count == |NonCoinbase(txs[..i])|
      {
        assert txs[..i + 1][..i] == txs[..i];
        if txs[i].IsCoinbase() {
          continue;
        }
        txQueue := txQueue + [txs[i]];
        count := count + 1;
      }
      assert txs[..|txs|] == txs;
    }

    method GetAdjustedDifficulty() returns (difficulty: nat)
      requires CanLookBack(params, blocks)
      ensures difficulty == AdjustedDifficulty(params, blocks)
    {
      var last := blocks[|blocks| - 1];
      if (last.index + 1) % params.interval != 0 {
        return last.difficulty;
      }
      var first := blocks[|blocks| - params.interval];
      var timespan := Seconds(last.time - first.time);
      if timespan < params.timespan / 2 {
        return (last.difficulty + 1) % UINT64_SIZE;
      } else if timespan > params.timespan * 2 {
        return (last.difficulty + UINT64_SIZE - 1) % UINT64_SIZE;
      }
      return last.difficulty;
    }

    /** Empties the queue into a block that is still to be mined. `now` is the clock. */
    method CreateUnminedBlock(wallet: string, now: int) returns (block: Block)
      requires blocks != []
      modifies `txQueue
      ensures txQueue == []
      ensures block == UnminedBlock(crypto, blocks, old(txQueue), wallet, now)
    {
      hide TransactionId;
      var newblockidx := |blocks|;
      var txs := [CreateCoinbaseTransaction(crypto, newblockidx, wallet)];
      ghost var done: nat := 0;
      while txQueue != []
        invariant done <= |old(txQueue)| && txQueue == old(txQueue)[done..]
        invariant txs == [CreateCoinbaseTransaction(crypto, newblockidx, wallet)]
                         + WithIds(crypto, old(txQueue)[..done], newblockidx)
        decreases |txQueue|
      {
        var id := GetTransactionId(crypto, txQueue[0], newblockidx);
        var tx := txQueue[0].(id := id);
        txs := txs + [tx];
        txQueue := txQueue[1..];
        done := done + 1;
      }
      assert old(txQueue)[..done] == old(txQueue);
      block := NewBlock(crypto, newblockidx, blocks[|blocks| - 1].hash, txs, now);
    }
  }
}
