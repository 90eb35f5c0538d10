/** The ledger of an address: a second way to compute what the address owns. */
module Ledger {
  import opened Wrappers
  import opened Transactions
  import opened Blocks
  import opened Unspent

  datatype LedgerInfo = LedgerInfo(blockIdx: nat, txid: string, time: int, amount: Amount)

  // ----- resolving inputs -----

  predicate InRange(chain: seq<Block>, k: OutPoint) {
    && k.blockIndex < |chain|
    && k.txIndex < |chain[k.blockIndex].transactions|
    && k.txOutIndex < |chain[k.blockIndex].transactions[k.txIndex].txOuts|
  }

  function Lookup(chain: seq<Block>, k: OutPoint): TxOut
    requires InRange(chain, k)
  {
    chain[k.blockIndex].transactions[k.txIndex].txOuts[k.txOutIndex]
  }

  predicate InputsInRange(chain: seq<Block>, tx: Transaction) {
    forall txin <- tx.txIns :: InRange(chain, txin.txOutPt.Key())
  }

  /** What the program asserts of a block before it resolves its inputs. */
  predicate Resolvable(chain: seq<Block>, b: Block) {
    forall tx <- b.transactions :: tx.WellFormed() && InputsInRange(chain, tx)
  }

  function DetailedInput(chain: seq<Block>, txin: TxIn): TxIn
    requires InRange(chain, txin.txOutPt.Key())
  {
    var o := Lookup(chain, txin.txOutPt.Key());
    txin.(txOutPt := Resolved(txin.txOutPt.Key(), o))
  }

  function DetailedTransaction(chain: seq<Block>, tx: Transaction): (r: Transaction)
    requires InputsInRange(chain, tx)
  {
    tx.(txIns := seq(|tx.txIns|, i requires 0 <= i < |tx.txIns| => DetailedInput(chain, tx.txIns[i])))
  }

  /** A copy of the block in which every input carries the owner and the value it refers to. */
  method GetBlockDetails(chain: seq<Block>, index: nat) returns (r: Block)
    requires index < |chain| && Resolvable(chain, chain[index])
    ensures |r.transactions| == |chain[index].transactions|
    ensures forall t :: 0 <= t < |r.transactions| ==>
              r.transactions[t] == DetailedTransaction(chain, chain[index].transactions[t])
    ensures r.(transactions := chain[index].transactions) == chain[index]
  {
    r := chain[index];
    var txs := r.transactions;
    for t := 0 to |txs|
      invariant |txs| == |r.transactions|
      invariant forall j :: 0 <= j < t ==> txs[j] == DetailedTransaction(chain, r.transactions[j])
      invariant forall j :: t <= j < |txs| ==> txs[j] == r.transactions[j]
    {
      var tx := r.transactions[t];
      assert tx in r.transactions;
      var ins := tx.txIns;
      for i := 0 to |ins|
        invariant |ins| == |tx.txIns|
        invariant forall j :: 0 <= j < i ==> ins[j] == DetailedInput(chain, tx.txIns[j])
        invariant forall j :: i <= j < |ins| ==> ins[j] == tx.txIns[j]
      {
        assert tx.txIns[i] in tx.txIns;
        var o := Lookup(chain, ins[i].txOutPt.Key());
        ins := ins[i := ins[i].(txOutPt := ins[i].txOutPt.(address := Some(o.address), amount := Some(o.amount)))];
      }
      assert ins == DetailedTransaction(chain, tx).txIns;
      txs := txs[t := tx.(txIns := ins)];
    }
    r := r.(transactions := txs);
  }

  // ----- the ledger as a function of the transactions -----

  /** The first output from number n on that pays the address. */
  function FirstPaid(tx: Transaction, address: string, n: nat): (r: Option<Amount>)
    requires n <= |tx.txOuts|
    ensures r.None? <==> forall i :: n <= i < |tx.txOuts| ==> tx.txOuts[i].address != address
    decreases |tx.txOuts| - n
  {
    if n == |tx.txOuts| then None
    else if tx.txOuts[n].address == address then Some(tx.txOuts[n].amount)
    else FirstPaid(tx, address, n + 1)
  }

  /** What the first n inputs are worth. */
  function InputTotal(chain: seq<Block>, tx: Transaction, n: nat): Amount
    requires n <= |tx.txIns| && InputsInRange(chain, tx)
  {
    if n == 0 then 0.0
    else
      assert tx.txIns[n - 1] in tx.txIns;
      InputTotal(chain, tx, n - 1) + Lookup(chain, tx.txIns[n - 1].txOutPt.Key()).amount
  }

  /** The address spends in this transaction: the owner of the first input decides. */
  predicate Debits(chain: seq<Block>, tx: Transaction, address: string)
    requires tx.WellFormed() && InputsInRange(chain, tx)
  {
    assert tx.txIns[0] in tx.txIns;
    !tx.IsCoinbase() && Lookup(chain, tx.txIns[0].txOutPt.Key()).address == address
  }

  function Entry(e: Placed, amount: Amount): LedgerInfo {
    LedgerInfo(e.block, e.body.id, e.time, amount)
  }

  /** A payment to the address is pushed. A debit replaces the last entry, whatever that entry is;
      with no entry there the program reads past the end of an empty vector, and this is None. */
  function LedgerStep(chain: seq<Block>, ledger: seq<LedgerInfo>, e: Placed, address: string): Option<seq<LedgerInfo>>
    requires e.body.WellFormed() && InputsInRange(chain, e.body)
  {
    var paid := FirstPaid(e.body, address, 0);
    var pushed := if paid.Some? then ledger + [Entry(e, paid.value)] else ledger;
    if !Debits(chain, e.body, address) then Some(pushed)
    else if pushed == [] then None
    else
      var n := |pushed| - 1;
      Some(pushed[..n] + [Entry(e, -(InputTotal(chain, e.body, |e.body.txIns|) - pushed[n].amount))])
  }

  predicate EventsResolvable(chain: seq<Block>, events: seq<Placed>) {
    forall e <- events :: e.body.WellFormed() && InputsInRange(chain, e.body)
  }

  lemma {:induction false} FrontResolvable(chain: seq<Block>, events: seq<Placed>)
    requires events != [] && EventsResolvable(chain, events)
    ensures var n := |events| - 1;
            && EventsResolvable(chain, events[..n])
            && events[n].body.WellFormed() && InputsInRange(chain, events[n].body)
  {
    assert events[|events| - 1] in events && forall e <- events[..|events| - 1] :: e in events;
  }

  function LedgerAfter(chain: seq<Block>, events: seq<Placed>, address: string): Option<seq<LedgerInfo>>
    requires EventsResolvable(chain, events)
  {
    if events == [] then Some([])
    else
      var n := |events| - 1;
      assert events[n] in events;
      var before := LedgerAfter(chain, events[..n], address);
      if before.None? then None else LedgerStep(chain, before.value, events[n], address)
  }

  lemma {:induction false} LedgerSnoc(chain: seq<Block>, events: seq<Placed>, e: Placed, address: string)
    requires EventsResolvable(chain, events + [e])
    ensures EventsResolvable(chain, events)
    ensures e.body.WellFormed() && InputsInRange(chain, e.body)
    ensures LedgerAfter(chain, events + [e], address)
         == var before := LedgerAfter(chain, events, address);
            if before.None? then None else LedgerStep(chain, before.value, e, address)
  {
    assert (events + [e])[..|events|] == events;
    assert (events + [e])[|events|] == e;
    assert forall x <- events :: x in events + [e];
  }

  // ----- the program -----

  /** The program looks a block up again by the index it carries. */
  predicate IndicesInRange(chain: seq<Block>) {
    forall i :: 0 <= i < |chain| ==> chain[i].index < |chain|
  }

  function LookedUp(chain: seq<Block>, n: nat): seq<Block>
    requires IndicesInRange(chain) && n <= |chain|
  {
    seq(n, i requires 0 <= i < n => LookedUpBlock(chain, i))
  }

  function LookedUpBlock(chain: seq<Block>, i: nat): Block
    requires IndicesInRange(chain) && i < |chain|
  {
    chain[i].(transactions := chain[chain[i].index].transactions)
  }

  function LedgerEvents(chain: seq<Block>): seq<Placed>
    requires IndicesInRange(chain)
  {
    Flatten(LookedUp(chain, |chain|))
  }

  predicate ChainResolvable(chain: seq<Block>) {
    forall b <- chain :: Resolvable(chain, b)
  }

  lemma {:induction false} FlattenResolvable(chain: seq<Block>, blocks: seq<Block>)
    requires forall b <- blocks :: Resolvable(chain, b)
    ensures EventsResolvable(chain, Flatten(blocks))
  {
    if blocks != [] {
      var n := |blocks| - 1;
      FlattenResolvable(chain, blocks[..n]);
      var last := PlaceFirst(blocks[n], |blocks[n].transactions|);
      assert Resolvable(chain, blocks[n]);
      forall e <- last ensures e.body.WellFormed() && InputsInRange(chain, e.body) {
        assert e.body in blocks[n].transactions;
      }
    }
  }

  lemma {:induction false} LookedUpResolvable(chain: seq<Block>, n: nat)
    requires IndicesInRange(chain) && ChainResolvable(chain) && n <= |chain|
    ensures EventsResolvable(chain, Flatten(LookedUp(chain, n)))
  {
    forall b <- LookedUp(chain, n) ensures Resolvable(chain, b) {
      var i :| 0 <= i < n && b == LookedUp(chain, n)[i];
      assert Resolvable(chain, chain[chain[i].index]);
    }
    FlattenResolvable(chain, LookedUp(chain, n));
  }

  /** None when the program would read the last entry of an empty ledger. */
  function LedgerOf(chain: seq<Block>, address: string): Option<seq<LedgerInfo>>
    requires IndicesInRange(chain) && ChainResolvable(chain)
  {
    LookedUpResolvable(chain, |chain|);
    LedgerAfter(chain, LedgerEvents(chain), address)
  }

  lemma {:induction false} FlattenPrefix(chain: seq<Block>, n: nat)
    requires n <= |chain|
    ensures Flatten(chain[..n]) <= Flatten(chain)
    decreases |chain| - n
  {
    if n < |chain| {
      FlattenPrefix(chain, n + 1);
      assert chain[..n + 1][..n] == chain[..n];
    } else {
      assert chain[..n] == chain;
    }
  }

  /** A ledger that exists at the end exists all along. */
  lemma {:induction false} LedgerOfPrefix(chain: seq<Block>, all: seq<Placed>, prefix: seq<Placed>, address: string)
    requires EventsResolvable(chain, all) && prefix <= all && LedgerAfter(chain, all, address).Some?
    ensures EventsResolvable(chain, prefix) && LedgerAfter(chain, prefix, address).Some?
    decreases |all|
  {
    if prefix != all {
      var n := |all| - 1;
      assert prefix <= all[..n];
      LedgerOfPrefix(chain, all[..n], prefix, address);
    }
  }

  /** One transaction, as the innermost loops treat it. `tx` is the transaction with its inputs resolved. */
  method PostTransaction(chain: seq<Block>, ledger: seq<LedgerInfo>, e: Placed, tx: Transaction, address: string)
      returns (r: seq<LedgerInfo>)
    requires e.body.WellFormed() && InputsInRange(chain, e.body) && tx == DetailedTransaction(chain, e.body)
    requires LedgerStep(chain, ledger, e, address).Some?
    ensures LedgerStep(chain, ledger, e, address) == Some(r)
  {
    r := ledger;
    for o := 0 to |tx.txOuts|
      invariant r == ledger && FirstPaid(e.body, address, 0) == FirstPaid(e.body, address, o)
    {
      if tx.txOuts[o].address == address {
        r := r + [LedgerInfo(e.block, tx.id, e.time, tx.txOuts[o].amount)];
        break;
      }
    }
    if !tx.IsCoinbase() && tx.txIns[0].txOutPt.address == Some(address) {
      var txInTotal := 0.0;
      for i := 0 to |tx.txIns|
        invariant txInTotal == InputTotal(chain, e.body, i)
      {
        txInTotal := txInTotal + tx.txIns[i].txOutPt.amount.value;
      }
      var amount := txInTotal - r[|r| - 1].amount;
      r := r[..|r| - 1];
      r := r + [LedgerInfo(e.block, tx.id, e.time, amount * -1.0)];
    }
  }

  /** The transactions before number t of block b. */
  function Before(chain: seq<Block>, b: nat, t: nat): seq<Placed>
    requires IndicesInRange(chain) && b < |chain| && t <= |LookedUpBlock(chain, b).transactions|
  {
    Flatten(LookedUp(chain, b)) + PlaceFirst(LookedUpBlock(chain, b), t)
  }

  lemma {:induction false} BeforeWholeBlock(chain: seq<Block>, b: nat)
    requires IndicesInRange(chain) && b < |chain|
    ensures Before(chain, b, |LookedUpBlock(chain, b).transactions|) == Flatten(LookedUp(chain, b + 1))
  {
    assert LookedUp(chain, b + 1)[..b] == LookedUp(chain, b);
  }

  /** The transactions before a place are a beginning of all of them. */
  lemma {:induction false} BeforeIsPrefix(chain: seq<Block>, b: nat, t: nat)
    requires IndicesInRange(chain) && b < |chain| && t <= |LookedUpBlock(chain, b).transactions|
    ensures Before(chain, b, t) <= LedgerEvents(chain)
  {
    var looked := LookedUpBlock(chain, b);
    assert PlaceFirst(looked, t) <= PlaceFirst(looked, |looked.transactions|);
    BeforeWholeBlock(chain, b);
    assert LookedUp(chain, |chain|)[..b + 1] == LookedUp(chain, b + 1);
    FlattenPrefix(LookedUp(chain, |chain|), b + 1);
  }

  /** Transaction t of block b, as the ledger sees it. */
  function EventAt(chain: seq<Block>, b: nat, t: nat): Placed
    requires IndicesInRange(chain) && b < |chain| && t < |LookedUpBlock(chain, b).transactions|
  {
    Placed(chain[b].index, t, chain[b].time, chain[chain[b].index].transactions[t])
  }

  lemma {:induction false} BeforeSnoc(chain: seq<Block>, b: nat, t: nat)
    requires IndicesInRange(chain) && b < |chain| && t < |LookedUpBlock(chain, b).transactions|
    ensures Before(chain, b, t + 1) == Before(chain, b, t) + [EventAt(chain, b, t)]
  {
    var looked := LookedUpBlock(chain, b);
    assert PlaceFirst(looked, t + 1) == PlaceFirst(looked, t) + [EventAt(chain, b, t)];
  }

  lemma {:induction false} BeforeHasLedger(chain: seq<Block>, b: nat, t: nat, address: string)
    requires IndicesInRange(chain) && ChainResolvable(chain) && LedgerOf(chain, address).Some?
    requires b < |chain| && t <= |LookedUpBlock(chain, b).transactions|
    ensures EventsResolvable(chain, Before(chain, b, t)) && LedgerAfter(chain, Before(chain, b, t), address).Some?
  {
    LookedUpResolvable(chain, |chain|);
    BeforeIsPrefix(chain, b, t);
    LedgerOfPrefix(chain, LedgerEvents(chain), Before(chain, b, t), address);
  }

  /** What the loop knows when it takes up transaction t of block b. */
  lemma {:induction false} NextTransaction(chain: seq<Block>, b: nat, t: nat, address: string)
    requires IndicesInRange(chain) && ChainResolvable(chain) && LedgerOf(chain, address).Some?
    requires b < |chain| && t < |LookedUpBlock(chain, b).transactions|
    ensures EventAt(chain, b, t).body.WellFormed() && InputsInRange(chain, EventAt(chain, b, t).body)
    ensures EventsResolvable(chain, Before(chain, b, t)) && EventsResolvable(chain, Before(chain, b, t + 1))
    ensures LedgerAfter(chain, Before(chain, b, t), address).Some?
    ensures LedgerAfter(chain, Before(chain, b, t + 1), address)
         == LedgerStep(chain, LedgerAfter(chain, Before(chain, b, t), address).value, EventAt(chain, b, t), address)
    ensures LedgerAfter(chain, Before(chain, b, t + 1), address).Some?
  {
    BeforeHasLedger(chain, b, t, address);
    BeforeHasLedger(chain, b, t + 1, address);
    BeforeSnoc(chain, b, t);
    LedgerSnoc(chain, Before(chain, b, t), EventAt(chain, b, t), address);
  }

  /** The loop over the transactions of a block whose inputs have been resolved. */
  method PostBlock(chain: seq<Block>, b: nat, fullblock: Block, ledger: seq<LedgerInfo>, address: string)
      returns (r: seq<LedgerInfo>)
    requires IndicesInRange(chain) && ChainResolvable(chain) && LedgerOf(chain, address).Some? && b < |chain|
    requires |fullblock.transactions| == |chain[chain[b].index].transactions|
    requires Resolvable(chain, chain[chain[b].index])
    requires forall t :: 0 <= t < |fullblock.transactions| ==>
               fullblock.transactions[t] == DetailedTransaction(chain, chain[chain[b].index].transactions[t])
    requires EventsResolvable(chain, Before(chain, b, 0))
    requires LedgerAfter(chain, Before(chain, b, 0), address) == Some(ledger)
    ensures EventsResolvable(chain, Before(chain, b, |fullblock.transactions|))
    ensures LedgerAfter(chain, Before(chain, b, |fullblock.transactions|), address) == Some(r)
  {
    r := ledger;
    for t := 0 to |fullblock.transactions|
      invariant EventsResolvable(chain, Before(chain, b, t))
      invariant LedgerAfter(chain, Before(chain, b, t), address) == Some(r)
    {
      NextTransaction(chain, b, t, address);
      r := PostTransaction(chain, r, EventAt(chain, b, t), fullblock.transactions[t], address);
    }
  }

  method GetAddressLedger(chain: seq<Block>, address: string) returns (ledger: seq<LedgerInfo>)
    requires IndicesInRange(chain) && ChainResolvable(chain)
    requires LedgerOf(chain, address).Some?
    ensures LedgerOf(chain, address) == Some(ledger)
  {
    ledger := [];
    for b := 0 to |chain|
      invariant EventsResolvable(chain, Flatten(LookedUp(chain, b)))
      invariant LedgerAfter(chain, Flatten(LookedUp(chain, b)), address) == Some(ledger)
    {
      assert Resolvable(chain, chain[chain[b].index]);
      var fullblock := GetBlockDetails(chain, chain[b].index);
      assert Before(chain, b, 0) == Flatten(LookedUp(chain, b));
      ledger := PostBlock(chain, b, fullblock, ledger, address);
      BeforeWholeBlock(chain, b);
    }
  }

  function LedgerSum(ledger: seq<LedgerInfo>): Amount {
    if ledger == [] then 0.0 else LedgerSum(ledger[..|ledger| - 1]) + ledger[|ledger| - 1].amount
  }

  method GetAddressBalance(chain: seq<Block>, address: string) returns (balance: Amount)
    requires IndicesInRange(chain) && ChainResolvable(chain)
    requires LedgerOf(chain, address).Some?
    ensures balance == LedgerSum(LedgerOf(chain, address).value)
  {
    var ledger := GetAddressLedger(chain, address);
    balance := 0.0;
    for i := 0 to |ledger|
      invariant balance == LedgerSum(ledger[..i])
    {
      assert ledger[..i + 1][..i] == ledger[..i];
      balance := balance + ledger[i].amount;
    }
    assert ledger[..|ledger|] == ledger;
  }
}
