/** Transactions and their parts, as values: the program copies them into vectors. */
module Transactions {
  import opened Wrappers

  /** Amounts are exact; rounding of IEEE doubles is not modelled. */
  type Amount = real

  const COINBASE_REWARD: Amount := 57.0

  /** The three numbers that name an output: block, transaction in the block, output in the transaction. */
  datatype OutPoint = OutPoint(blockIndex: nat, txIndex: nat, txOutIndex: nat)

  /** A reference to an output, with the owner and the value once they are resolved. */
  datatype TxOutPoint = TxOutPoint(blockIndex: nat, txIndex: nat, txOutIndex: nat,
                                   address: Option<string>, amount: Option<Amount>)
  {
    function Key(): OutPoint {
      OutPoint(blockIndex, txIndex, txOutIndex)
    }
  }

  datatype TxIn = TxIn(txOutPt: TxOutPoint, signature: string)

  datatype TxOut = TxOut(address: string, amount: Amount)

  datatype Transaction = Transaction(id: string, txIns: seq<TxIn>, txOuts: seq<TxOut>)
  {
    /** What the program asserts of a transaction before it looks inside. */
    predicate WellFormed() {
      |txIns| > 0 && |txOuts| > 0
    }

    /** The block number of the input is not looked at. Without an input the program throws. */
    predicate IsCoinbase() {
      && |txIns| > 0
      && txIns[0].txOutPt.txIndex == 0
      && txIns[0].txOutPt.txOutIndex == 0
      && txIns[0].signature == ""
    }
  }

  /** A coinbase is known by its first input: unsigned, and naming the first output of the first transaction of
      some block, whichever. */
  lemma {:induction false} CoinbaseIff(tx: Transaction)
    ensures tx.IsCoinbase() <==>
            tx.txIns != [] && tx.txIns[0].signature == ""
            && exists n: nat :: tx.txIns[0].txOutPt.Key() == OutPoint(n, 0, 0)
  {
    if tx.IsCoinbase() {
      assert tx.txIns[0].txOutPt.Key() == OutPoint(tx.txIns[0].txOutPt.blockIndex, 0, 0);
    }
  }

  /** An input that carries no resolved owner or value. */
  function PlainTxIn(k: OutPoint, signature: string): TxIn {
    TxIn(TxOutPoint(k.blockIndex, k.txIndex, k.txOutIndex, None, None), signature)
  }
}
