/** Paying someone: which outputs are chosen, and what the transaction does to everybody's balance. */
module Payments {
  import opened Wrappers
  import opened Transactions
  import opened Blocks
  import opened Unspent
  import opened UnspentLaws
  import opened Agreement

  datatype TxResult = SUCCESS | INSUFFICIENT_FUNDS | TXOUTS_EMPTY | NOOP_TRANSACTION

  const EMPTY_TRANSACTION := Transaction("", [], [])

  function ToUpper(ch: char): char {
    if 'a' <= ch <= 'z' then ((ch as int) - ('a' as int) + ('A' as int)) as char else ch
  }

  /** Equality that does not distinguish upper and lower case letters. */
  predicate IEquals(a: string, b: string) {
    |a| == |b| && forall i :: 0 <= i < |a| ==> ToUpper(a[i]) == ToUpper(b[i])
  }

  ghost predicate Priced(list: seq<TxOutPoint>) {
    forall u <- list :: u.amount.Some?
  }

  /** How many of the listed outputs are taken, from number n on: up to the first with which the sum
      covers the amount, or all. */
  function Taken(list: seq<TxOutPoint>, amount: Amount, n: nat): (r: nat)
    requires n <= |list| && Priced(list)
    ensures n <= r <= |list|
    decreases |list| - n
  {
    if n == |list| || (n > 0 && ListValue(list[..n]) >= amount) then n
    else Taken(list, amount, n + 1)
  }

  function Inputs(list: seq<TxOutPoint>): seq<TxIn> {
    seq(|list|, i requires 0 <= i < |list| => PlainTxIn(list[i].Key(), "signature"))
  }

  function Change(left: Amount, sender: string): seq<TxOut> {
    if left > 0.0 then [TxOut(sender, left)] else []
  }

  /** What comes of a payment, given the sender's unspent outputs in the order they are listed. */
  function Payment(list: seq<TxOutPoint>, sender: string, receiver: string, amount: Amount): (TxResult, Transaction)
    requires Priced(list)
  {
    if IEquals(receiver, sender) then (NOOP_TRANSACTION, EMPTY_TRANSACTION)
    else if list == [] then (TXOUTS_EMPTY, EMPTY_TRANSACTION)
    else
      var chosen := list[..Taken(list, amount, 0)];
      var total := ListValue(chosen);
      if total < amount then (INSUFFICIENT_FUNDS, EMPTY_TRANSACTION)
      else (SUCCESS, Transaction("", Inputs(chosen), [TxOut(receiver, amount)] + Change(total - amount, sender)))
  }

  /** The running totals over the sender's unspent outputs. */
  method ChooseOutputs(list: seq<TxOutPoint>, amount: Amount)
      returns (included: seq<TxOutPoint>, currentAmount: Amount, leftoverAmount: Amount)
    requires Priced(list)
    ensures included == list[..Taken(list, amount, 0)] && currentAmount == ListValue(included)
    ensures list != [] && currentAmount >= amount ==> leftoverAmount == currentAmount - amount
  {
    currentAmount, leftoverAmount := 0.0, 0.0;
    included := [];
    for i := 0 to |list|
      invariant included == list[..i] && currentAmount == ListValue(included)
      invariant leftoverAmount == 0.0 && (i > 0 ==> currentAmount < amount)
      invariant Taken(list, amount, 0) == Taken(list, amount, i)
    {
      assert list[..i + 1][..i] == list[..i];
      included := included + [list[i]];
      currentAmount := currentAmount + list[i].amount.value;
      if currentAmount >= amount {
        leftoverAmount := currentAmount - amount;
        assert included == list[..i + 1];
        assert Taken(list, amount, i + 1) == i + 1;
        return;
      }
    }
  }

  /** The inputs of a payment, one for each chosen output. */
  method MakeInputs(included: seq<TxOutPoint>) returns (txins: seq<TxIn>)
    ensures txins == Inputs(included)
  {
    txins := [];
    for i := 0 to |included|
      invariant txins == Inputs(included[..i])
    {
      txins := txins + [PlainTxIn(included[i].Key(), "signature")];
    }
    assert included[..|included|] == included;
  }

  /** A result the program can come to: some order of the sender's unspent outputs leads to it. */
  ghost predicate IsOutcome(chain: seq<Block>, sender: string, receiver: string, amount: Amount,
                            result: TxResult, tx: Transaction) {
    exists list :: Enumerates(list, UnspentOf(chain, sender)) && Priced(list)
                   && Payment(list, sender, receiver, amount) == (result, tx)
  }

  /** The chain decides the sender's unspent outputs, and some order in which they are listed. The
      address belongs to the key the program is given. */
  method CreateTransaction(chain: seq<Block>, senderAddress: string, receiver: string, amount: Amount)
      returns (result: TxResult, tx: Transaction)
    requires TransactionsWellFormed(chain)
    ensures IsOutcome(chain, senderAddress, receiver, amount, result, tx)
  {
    var list := GetUnspentTxOuts(chain, senderAddress);
    EnumeratesPriced(list, UnspentOf(chain, senderAddress));
    if IEquals(receiver, senderAddress) {
      return NOOP_TRANSACTION, EMPTY_TRANSACTION;
    }
    if |list| == 0 {
      return TXOUTS_EMPTY, EMPTY_TRANSACTION;
    }
    var included, currentAmount, leftoverAmount := ChooseOutputs(list, amount);
    if currentAmount < amount {
      return INSUFFICIENT_FUNDS, EMPTY_TRANSACTION;
    }
    var txins := MakeInputs(included);
    var outs := [TxOut(receiver, amount)];
    if leftoverAmount > 0.0 {
      outs := outs + [TxOut(senderAddress, leftoverAmount)];
    }
    result, tx := SUCCESS, Transaction("", txins, outs);
    assert outs == [TxOut(receiver, amount)] + Change(currentAmount - amount, senderAddress);
    assert Payment(list, senderAddress, receiver, amount) == (result, tx);
  }

  // ----- which outputs are chosen -----

  ghost predicate NoneNegative(m: Outputs) {
    forall k <- m :: m[k].amount >= 0.0
  }

  /** Nothing is taken beyond need, and all is taken when it does not suffice. */
  lemma {:induction false} TakenIsLeast(list: seq<TxOutPoint>, amount: Amount, n: nat)
    requires n <= |list| && Priced(list)
    ensures var r := Taken(list, amount, n);
            && (r < |list| ==> r > 0 && ListValue(list[..r]) >= amount)
            && (forall i :: n <= i < r && i > 0 ==> ListValue(list[..i]) < amount)
    decreases |list| - n
  {
    if n < |list| && !(n > 0 && ListValue(list[..n]) >= amount) {
      TakenIsLeast(list, amount, n + 1);
    }
  }

  lemma {:induction false} PrefixValue(list: seq<TxOutPoint>, n: nat)
    requires n <= |list| && Priced(list) && forall u <- list :: u.amount.value >= 0.0
    ensures ListValue(list[..n]) <= ListValue(list)
    decreases |list|
  {
    if n == |list| {
      assert list[..n] == list;
    } else {
      var front := list[..|list| - 1];
      PrefixValue(front, n);
      assert front[..n] == list[..n];
      assert list[|list| - 1] in list;
    }
  }

  lemma {:induction false} EnumeratesPriced(list: seq<TxOutPoint>, m: Outputs)
    requires Enumerates(list, m)
    ensures Priced(list)
    ensures NoneNegative(m) ==> forall u <- list :: u.amount.value >= 0.0
    ensures list == [] <==> m == map[]
  {
    if list == [] {
      assert m == map[];
    } else {
      assert list[0].Key() in m;
    }
  }

  /** Whatever the values of the outputs: the payment goes through exactly when the first few of the list, at
      least one, cover it. */
  lemma {:induction false} PaymentResult(list: seq<TxOutPoint>, sender: string, receiver: string, amount: Amount)
    requires Priced(list)
    ensures var result := Payment(list, sender, receiver, amount).0;
            && (result == NOOP_TRANSACTION <==> IEquals(receiver, sender))
            && (result == TXOUTS_EMPTY <==> !IEquals(receiver, sender) && list == [])
            && (result == SUCCESS <==> !IEquals(receiver, sender) && Covered(list, amount))
  {
    var r := Taken(list, amount, 0);
    TakenIsLeast(list, amount, 0);
    if Covered(list, amount) {
      var n :| 1 <= n <= |list| && ListValue(list[..n]) >= amount;
      assert r <= n;
    }
    assert list != [] ==> r >= 1;
  }

  ghost predicate Covered(list: seq<TxOutPoint>, amount: Amount)
    requires Priced(list)
  {
    exists n :: 1 <= n <= |list| && ListValue(list[..n]) >= amount
  }

  /** The payment goes through exactly when the sender's unspent outputs cover it, whatever their order. */
  lemma {:induction false} PaymentSucceedsIff(list: seq<TxOutPoint>, m: Outputs, sender: string, receiver: string,
                                              amount: Amount)
    requires Enumerates(list, m) && NoneNegative(m)
    ensures Priced(list)
    ensures Payment(list, sender, receiver, amount).0
         == if IEquals(receiver, sender) then NOOP_TRANSACTION
            else if m == map[] then TXOUTS_EMPTY
            else if Value(m, "") < amount then INSUFFICIENT_FUNDS
            else SUCCESS
  {
    EnumeratesPriced(list, m);
    ListedValue(list, m);
    PaymentResult(list, sender, receiver, amount);
    assert list[..|list|] == list;
    if Covered(list, amount) {
      var n :| 1 <= n <= |list| && ListValue(list[..n]) >= amount;
      PrefixValue(list, n);
    }
  }

  /** Without the last output it chose, a successful payment would not be covered. */
  lemma {:induction false} PaymentIsFrugal(list: seq<TxOutPoint>, sender: string, receiver: string, amount: Amount)
    requires Priced(list) && amount > 0.0
    requires Payment(list, sender, receiver, amount).0 == SUCCESS
    ensures var n := |Payment(list, sender, receiver, amount).1.txIns|;
            1 <= n <= |list| && ListValue(list[..n - 1]) < amount <= ListValue(list[..n])
  {
    var r := Taken(list, amount, 0);
    TakenIsLeast(list, amount, 0);
    if r == 1 {
      assert list[..0] == [];
    }
  }

  /** The same character, or the same letter 32 code points apart. */
  predicate SameButCase(a: char, b: char) {
    || a == b
    || ('a' <= a <= 'z' && a as int == b as int + 32)
    || ('a' <= b <= 'z' && b as int == a as int + 32)
  }

  /** A payment is no payment exactly if the two addresses differ in nothing but the case of letters. */
  lemma {:induction false} NoopIff(list: seq<TxOutPoint>, sender: string, receiver: string, amount: Amount)
    requires Priced(list)
    ensures Payment(list, sender, receiver, amount).0 == NOOP_TRANSACTION
            <==> |receiver| == |sender| && forall i :: 0 <= i < |sender| ==> SameButCase(receiver[i], sender[i])
  {
    forall i | 0 <= i < |sender| && i < |receiver|
      ensures ToUpper(receiver[i]) == ToUpper(sender[i]) <==> SameButCase(receiver[i], sender[i])
    {
    }
    PaymentResult(list, sender, receiver, amount);
  }

  /** What the transaction of a payment holds: nothing without success; otherwise the first few outputs of the
      list as inputs, the receiver first among the payees, and the sender second exactly if something is left. */
  lemma {:induction false} PaymentHolds(list: seq<TxOutPoint>, sender: string, receiver: string, amount: Amount)
    requires Priced(list)
    ensures var (result, tx) := Payment(list, sender, receiver, amount);
            var n := |tx.txIns|;
            && tx.id == ""
            && (result != SUCCESS ==> n == 0 && tx.txOuts == [])
            && (result == SUCCESS ==>
                  && 1 <= n <= |list| && 1 <= |tx.txOuts| <= 2
                  && (forall i :: 0 <= i < n ==>
                        && tx.txIns[i].txOutPt.Key() == list[i].Key() && tx.txIns[i].signature == "signature"
                        && tx.txIns[i].txOutPt.address == None && tx.txIns[i].txOutPt.amount == None)
                  && tx.txOuts[0].address == receiver && tx.txOuts[0].amount == amount
                  && (|tx.txOuts| == 2 <==> ListValue(list[..n]) > amount)
                  && (|tx.txOuts| == 2 ==>
                        tx.txOuts[1].address == sender && tx.txOuts[1].amount == ListValue(list[..n]) - amount))
  {
    var r := Taken(list, amount, 0);
    TakenIsLeast(list, amount, 0);
    assert list != [] ==> r >= 1;
  }

  // ----- what a payment is, whatever the order -----

  /** The transaction moves `amount` from sender to receiver: it spends different unspent outputs of the
      sender, pays the receiver, and returns the rest, if there is any, to the sender. */
  ghost predicate Pays(m: Outputs, sender: string, receiver: string, amount: Amount, tx: Transaction) {
    && sender != receiver
    && |tx.txIns| > 0
    && InputsLive(m, tx)
    && (forall i :: 0 <= i < |tx.txIns| ==> tx.txIns[i] == PlainTxIn(tx.txIns[i].txOutPt.Key(), "signature"))
    && (forall i :: 0 <= i < |tx.txIns| ==> m[tx.txIns[i].txOutPt.Key()].address == sender)
    && var left := Debit(m, tx.txIns, "", |tx.txIns|) - amount;
       left >= 0.0 && tx.txOuts == [TxOut(receiver, amount)] + Change(left, sender)
  }

  lemma {:induction false} ChosenWorth(list: seq<TxOutPoint>, owned: Outputs, m: Outputs, ins: seq<TxIn>, n: nat)
    requires Enumerates(list, owned) && Priced(list)
    requires forall k <- owned :: k in m && m[k] == owned[k]
    requires n <= |ins| <= |list| && ins == Inputs(list[..|ins|])
    ensures Debit(m, ins, "", n) == ListValue(list[..n])
  {
    if n > 0 {
      ChosenWorth(list, owned, m, ins, n - 1);
      assert list[..n][..n - 1] == list[..n - 1];
      var k := list[n - 1].Key();
      assert k in owned && list[n - 1] == Resolved(k, owned[k]);
      assert ins[n - 1].txOutPt.Key() == k;
    } else {
      assert list[..0] == [];
    }
  }

  /** No payment that the program makes is shaped like a coinbase. */
  lemma {:induction false} OutcomeIsNoCoinbase(chain: seq<Block>, sender: string, receiver: string, amount: Amount,
                                               tx: Transaction)
    requires IsOutcome(chain, sender, receiver, amount, SUCCESS, tx)
    ensures tx.WellFormed() && !tx.IsCoinbase()
  {
    var list: seq<TxOutPoint> :| Enumerates(list, UnspentOf(chain, sender)) && Priced(list)
                && Payment(list, sender, receiver, amount) == (SUCCESS, tx);
    assert tx.txIns[0] == PlainTxIn(list[0].Key(), "signature");
  }

  lemma {:induction false} EqualIsIEqual(a: string)
    ensures IEquals(a, a)
  {
  }

  /** A successful payment pays. */
  lemma {:induction false} SuccessPays(list: seq<TxOutPoint>, m: Outputs, sender: string, receiver: string,
                                       amount: Amount)
    requires sender != "" && Enumerates(list, OwnedBy(m, sender)) && Priced(list)
    requires Payment(list, sender, receiver, amount).0 == SUCCESS
    ensures Pays(m, sender, receiver, amount, Payment(list, sender, receiver, amount).1)
  {
    hide Taken, ListValue, Debit;
    var tx := Payment(list, sender, receiver, amount).1;
    var n := |tx.txIns|;
    EqualIsIEqual(sender);
    assert n == Taken(list, amount, 0);
    TakenIsLeast(list, amount, 0);
    forall i | 0 <= i < n
      ensures var k := tx.txIns[i].txOutPt.Key();
              k == list[i].Key() && k in m && m[k].address == sender && tx.txIns[i] == PlainTxIn(k, "signature")
    {
      assert list[i].Key() in OwnedBy(m, sender);
    }
    forall i, j | 0 <= i < j < n ensures tx.txIns[i].txOutPt.Key() != tx.txIns[j].txOutPt.Key() {
      assert list[i].Key() != list[j].Key();
    }
    ChosenWorth(list, OwnedBy(m, sender), m, tx.txIns, n);
  }

  /** What a transaction must be to move value without making or losing any. */
  ghost predicate Transfer(m: Outputs, tx: Transaction) {
    && !tx.IsCoinbase()
    && Sound(m, tx)
    && Credit(tx.txOuts, "", |tx.txOuts|) == Debit(m, tx.txIns, "", |tx.txIns|)
  }

  /** What a transaction does to what an address owns. */
  function Net(m: Outputs, tx: Transaction, address: string): Amount {
    Credit(tx.txOuts, address, |tx.txOuts|) - Debit(m, tx.txIns, address, |tx.txIns|)
  }

  lemma {:induction false} OwnersDebit(m: Outputs, ins: seq<TxIn>, owner: string, address: string, n: nat)
    requires n <= |ins| && address != ""
    requires forall i :: 0 <= i < |ins| ==> ins[i].txOutPt.Key() in m && m[ins[i].txOutPt.Key()].address == owner
    ensures Debit(m, ins, address, n) == if address == owner then Debit(m, ins, "", n) else 0.0
  {
    if n > 0 {
      OwnersDebit(m, ins, owner, address, n - 1);
    }
  }

  /** Inputs and outputs of a payment are worth the same; the sender loses the amount, the receiver
      gains it, and nobody else is affected. */
  lemma {:induction false} PaymentEffect(m: Outputs, sender: string, receiver: string, amount: Amount,
                                         tx: Transaction, address: string)
    requires Pays(m, sender, receiver, amount, tx) && address != ""
    ensures Transfer(m, tx)
    ensures Net(m, tx, address)
         == (if address == receiver then amount else 0.0) - (if address == sender then amount else 0.0)
  {
    var left := Debit(m, tx.txIns, "", |tx.txIns|) - amount;
    var outs := tx.txOuts;
    assert tx.txIns[0] == PlainTxIn(tx.txIns[0].txOutPt.Key(), "signature");
    assert outs[0] == TxOut(receiver, amount);
    CreditOfOne(outs, address);
    CreditOfOne(outs, "");
    if left > 0.0 {
      assert outs[1] == TxOut(sender, left);
      CreditOfTwo(outs, address);
      CreditOfTwo(outs, "");
    }
    OwnersDebit(m, tx.txIns, sender, address, |tx.txIns|);
  }

  lemma {:induction false} CreditOfOne(outs: seq<TxOut>, address: string)
    requires |outs| >= 1
    ensures Credit(outs, address, 1) == Worth(outs[0], address)
  {
    assert Credit(outs, address, 0) == 0.0;
  }

  lemma {:induction false} CreditOfTwo(outs: seq<TxOut>, address: string)
    requires |outs| >= 2
    ensures Credit(outs, address, 2) == Worth(outs[0], address) + Worth(outs[1], address)
  {
    CreditOfOne(outs, address);
  }
}
