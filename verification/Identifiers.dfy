/** The identifiers of transactions. */
module Identifiers {
  import opened Transactions
  import opened Blocks
  import opened Numerals

  /** The numbers of the outputs that the first n inputs refer to, with nothing between them. */
  function PointsText(txIns: seq<TxIn>, n: nat): string
    requires n <= |txIns|
  {
    if n == 0 then ""
    else
      var pt := txIns[n - 1].txOutPt;
      PointsText(txIns, n - 1) + Decimal(pt.blockIndex) + Decimal(pt.txIndex) + Decimal(pt.txOutIndex)
  }

  /** Payees and amounts of the first n outputs. */
  function PayeesText(c: Crypto, txOuts: seq<TxOut>, n: nat): string
    requires n <= |txOuts|
  {
    if n == 0 then "" else PayeesText(c, txOuts, n - 1) + txOuts[n - 1].address + c.amountText(txOuts[n - 1].amount)
  }

  function TransactionText(c: Crypto, tx: Transaction, blockid: nat): string {
    PointsText(tx.txIns, |tx.txIns|) + PayeesText(c, tx.txOuts, |tx.txOuts|) + Decimal(blockid)
  }

  function TransactionId(c: Crypto, tx: Transaction, blockid: nat): string {
    c.sha256(TransactionText(c, tx, blockid))
  }

  /** The loop over the outputs. */
  method WritePayees(c: Crypto, txOuts: seq<TxOut>, start: string) returns (text: string)
    ensures text == start + PayeesText(c, txOuts, |txOuts|)
  {
    text := start;
    assert start + "" == start;
    for o := 0 to |txOuts|
      invariant text == start + PayeesText(c, txOuts, o)
    {
      var txout := txOuts[o];
      ghost var before := PayeesText(c, txOuts, o);
      Join(start, before, txout.address);
      Join(start, before + txout.address, c.amountText(txout.amount));
      text := text + txout.address + c.amountText(txout.amount);
    }
  }

  method GetTransactionId(c: Crypto, tx: Transaction, blockid: nat) returns (id: string)
    ensures id == TransactionId(c, tx, blockid)
  {
    hide Decimal, PayeesText;
    var text := "";
    for i := 0 to |tx.txIns|
      invariant text == PointsText(tx.txIns, i)
    {
      var pt := tx.txIns[i].txOutPt;
      text := text + Decimal(pt.blockIndex) + Decimal(pt.txIndex) + Decimal(pt.txOutIndex);
    }
    text := WritePayees(c, tx.txOuts, text);
    id := c.sha256(text + Decimal(blockid));
  }

  /** An identifier says nothing of signatures, resolved owners, or the identifier there was before. */
  lemma {:induction false} IdIgnoresTheRest(c: Crypto, x: Transaction, y: Transaction, blockid: nat, n: nat)
    requires x.txOuts == y.txOuts && |x.txIns| == |y.txIns| && n <= |x.txIns|
    requires forall i :: 0 <= i < |x.txIns| ==> x.txIns[i].txOutPt.Key() == y.txIns[i].txOutPt.Key()
    ensures PointsText(x.txIns, n) == PointsText(y.txIns, n)
    ensures n == |x.txIns| ==> TransactionId(c, x, blockid) == TransactionId(c, y, blockid)
  {
    hide Decimal, PayeesText;
    if n > 0 {
      IdIgnoresTheRest(c, x, y, blockid, n - 1);
      assert x.txIns[n - 1].txOutPt.Key() == y.txIns[n - 1].txOutPt.Key();
    }
  }

  lemma {:induction false} EndsDiffer(x: string, y: string, middle: string)
    requires x + middle + x == y + middle + y
    ensures x == y
  {
    assert |x| == |y|;
    assert x == (x + middle + x)[..|x|] && y == (y + middle + y)[..|y|];
  }

  /** The rewards of one wallet at different heights have different texts, so equal identifiers would be two
      texts with one digest. */
  lemma {:induction false} RewardTextsDiffer(c: Crypto, wallet: string, n: nat, m: nat)
    requires n != m
    ensures var x := Transaction("", [PlainTxIn(OutPoint(n, 0, 0), "")], [TxOut(wallet, COINBASE_REWARD)]);
            var y := Transaction("", [PlainTxIn(OutPoint(m, 0, 0), "")], [TxOut(wallet, COINBASE_REWARD)]);
            TransactionText(c, x, n) != TransactionText(c, y, m)
  {
    RewardTextIs(c, wallet, n);
    RewardTextIs(c, wallet, m);
    var middle := Decimal(0) + Decimal(0) + wallet + c.amountText(COINBASE_REWARD);
    if Decimal(n) + middle + Decimal(n) == Decimal(m) + middle + Decimal(m) {
      EndsDiffer(Decimal(n), Decimal(m), middle);
      DecimalInjective(n, m);
    }
  }

  lemma {:induction false} RewardTextIs(c: Crypto, wallet: string, n: nat)
    ensures var tx := Transaction("", [PlainTxIn(OutPoint(n, 0, 0), "")], [TxOut(wallet, COINBASE_REWARD)]);
            TransactionText(c, tx, n)
            == Decimal(n) + (Decimal(0) + Decimal(0) + wallet + c.amountText(COINBASE_REWARD)) + Decimal(n)
  {
    var tx := Transaction("", [PlainTxIn(OutPoint(n, 0, 0), "")], [TxOut(wallet, COINBASE_REWARD)]);
    assert PointsText(tx.txIns, 0) == "" && PayeesText(c, tx.txOuts, 0) == "";
    assert PointsText(tx.txIns, 1) == "" + Decimal(n) + Decimal(0) + Decimal(0);
    assert PayeesText(c, tx.txOuts, 1) == "" + wallet + c.amountText(COINBASE_REWARD);
    var a, b, d, e, f := Decimal(n), Decimal(0), wallet, c.amountText(COINBASE_REWARD), Decimal(n);
    assert ("" + a + b + b) + ("" + d + e) + f == a + (b + b + d + e) + f;
  }
}
