/** The two computations of what an address owns agree, as long as nothing is spent twice. */
module Agreement {
  import opened Wrappers
  import opened Transactions
  import opened Blocks
  import opened Unspent
  import opened UnspentLaws
  import opened Ledger

  ghost predicate DistinctPayees(tx: Transaction) {
    forall i, j :: 0 <= i < j < |tx.txOuts| ==> tx.txOuts[i].address != tx.txOuts[j].address
  }

  /** Every output the transaction refers to belongs to the owner of the first. */
  ghost predicate OneOwner(m: Outputs, tx: Transaction)
    requires tx.WellFormed() && InputsLive(m, tx)
  {
    forall i :: 0 <= i < |tx.txIns| ==> m[tx.txIns[i].txOutPt.Key()].address == m[tx.txIns[0].txOutPt.Key()].address
  }

  /** What the agreement needs of a transaction, given the outputs unspent before it. */
  ghost predicate Sound(m: Outputs, tx: Transaction) {
    && tx.WellFormed()
    && DistinctPayees(tx)
    && (!tx.IsCoinbase() ==> InputsLive(m, tx) && OneOwner(m, tx))
  }

  ghost predicate SoundEvents(events: seq<Placed>) {
    forall i :: 0 <= i < |events| ==> Sound(UnspentAfter(events[..i], ""), events[i].body)
  }

  /** Block indices are positions, inputs refer to outputs of the chain, and every output is unspent
      when it is used. */
  ghost predicate Accounted(chain: seq<Block>) {
    IndexIsPosition(chain) && ChainResolvable(chain) && SoundEvents(Flatten(chain))
  }

  // ----- when the ledger exists -----

  ghost predicate PaidIn(events: seq<Placed>, address: string, n: nat) {
    exists j :: 0 <= j < n && j < |events| && FirstPaid(events[j].body, address, 0).Some?
  }

  /** The address never spends before it has been paid. */
  ghost predicate PaidBeforeSpending(chain: seq<Block>, events: seq<Placed>, address: string)
    requires EventsResolvable(chain, events)
  {
    forall i :: 0 <= i < |events| ==>
      (assert events[i] in events; Debits(chain, events[i].body, address)) ==> PaidIn(events, address, i + 1)
  }

  /** Spending only after having been paid, one transaction later. */
  lemma {:induction false} PaidBeforeSpendingSnoc(chain: seq<Block>, events: seq<Placed>, e: Placed, address: string)
    requires EventsResolvable(chain, events) && e.body.WellFormed() && InputsInRange(chain, e.body)
    ensures EventsResolvable(chain, events + [e])
    ensures PaidBeforeSpending(chain, events + [e], address) <==>
            PaidBeforeSpending(chain, events, address) &&
            (Debits(chain, e.body, address) ==> PaidIn(events + [e], address, |events| + 1))
  {
    var all := events + [e];
    assert all[..|events|] == events && all[|events|] == e;
    forall i {:trigger events[i]} | 0 <= i < |events|
      ensures all[i] == events[i] && (PaidIn(events, address, i + 1) <==> PaidIn(all, address, i + 1))
    {
      PaidPrefix(all, address, |events|, i + 1);
    }
    if PaidBeforeSpending(chain, all, address) {
      forall i | 0 <= i < |events| && (assert events[i] in events; Debits(chain, events[i].body, address))
        ensures PaidIn(events, address, i + 1)
      {
        assert all[i] == events[i];
      }
    }
  }

  /** The program reads the last entry of an empty ledger exactly when the address spends before it
      has been paid; a ledger is empty exactly when the address was never paid. */
  lemma {:induction false} LedgerExists(chain: seq<Block>, events: seq<Placed>, address: string)
    requires EventsResolvable(chain, events)
    ensures LedgerAfter(chain, events, address).Some? <==> PaidBeforeSpending(chain, events, address)
    ensures LedgerAfter(chain, events, address).Some? ==>
              (LedgerAfter(chain, events, address).value != [] <==> PaidIn(events, address, |events|))
  {
    if events != [] {
      var n := |events| - 1;
      var front, e := events[..n], events[n];
      assert events == front + [e];
      LedgerSnoc(chain, front, e, address);
      LedgerExists(chain, front, address);
      PaidSnoc(events, address);
      PaidBeforeSpendingSnoc(chain, front, e, address);
    }
  }

  lemma {:induction false} PaidPrefix(events: seq<Placed>, address: string, n: nat, i: nat)
    requires i <= n <= |events|
    ensures PaidIn(events[..n], address, i) <==> PaidIn(events, address, i)
  {
    if PaidIn(events, address, i) {
      var j :| 0 <= j < i && FirstPaid(events[j].body, address, 0).Some?;
      assert events[..n][j] == events[j];
    }
  }

  lemma {:induction false} PaidSnoc(events: seq<Placed>, address: string)
    requires events != []
    ensures var n := |events| - 1;
            PaidIn(events, address, n + 1) <==>
            PaidIn(events[..n], address, n) || FirstPaid(events[n].body, address, 0).Some?
  {
    PaidPrefix(events, address, |events| - 1, |events| - 1);
  }

  // ----- one transaction -----

  lemma {:induction false} LedgerSumSnoc(ledger: seq<LedgerInfo>, x: LedgerInfo)
    ensures LedgerSum(ledger + [x]) == LedgerSum(ledger) + x.amount
  {
    assert (ledger + [x])[..|ledger|] == ledger;
  }

  function OrZero(a: Option<Amount>): Amount {
    if a.Some? then a.value else 0.0
  }

  /** Also when there is no change output, and the entry that is replaced is an unrelated one. */
  lemma {:induction false} LedgerStepSum(chain: seq<Block>, ledger: seq<LedgerInfo>, e: Placed, address: string)
    requires e.body.WellFormed() && InputsInRange(chain, e.body)
    requires LedgerStep(chain, ledger, e, address).Some?
    ensures LedgerSum(LedgerStep(chain, ledger, e, address).value)
         == LedgerSum(ledger) + OrZero(FirstPaid(e.body, address, 0))
            - if Debits(chain, e.body, address) then InputTotal(chain, e.body, |e.body.txIns|) else 0.0
  {
    var paid := FirstPaid(e.body, address, 0);
    var pushed := if paid.Some? then ledger + [Entry(e, paid.value)] else ledger;
    if paid.Some? {
      LedgerSumSnoc(ledger, Entry(e, paid.value));
    }
    if Debits(chain, e.body, address) {
      var n := |pushed| - 1;
      LedgerSumSnoc(pushed[..n], Entry(e, -(InputTotal(chain, e.body, |e.body.txIns|) - pushed[n].amount)));
    }
  }

  /** With distinct payees the first payment to an address is all of them. */
  lemma {:induction false} CreditIsFirst(tx: Transaction, address: string, n: nat)
    requires address != "" && DistinctPayees(tx) && n <= |tx.txOuts|
    ensures Credit(tx.txOuts, address, |tx.txOuts|) == Credit(tx.txOuts, address, n) + OrZero(FirstPaid(tx, address, n))
    decreases |tx.txOuts| - n
  {
    if n < |tx.txOuts| {
      CreditIsFirst(tx, address, n + 1);
    }
  }

  /** With one owner, either every input is the address's or none is. */
  lemma {:induction false} DebitIsTotal(chain: seq<Block>, m: Outputs, tx: Transaction, address: string, n: nat)
    requires address != "" && tx.WellFormed() && n <= |tx.txIns|
    requires InputsLive(m, tx) && OneOwner(m, tx) && InputsInRange(chain, tx)
    requires forall txin <- tx.txIns :: m[txin.txOutPt.Key()] == Lookup(chain, txin.txOutPt.Key())
    ensures Debit(m, tx.txIns, address, n)
         == if m[tx.txIns[0].txOutPt.Key()].address == address then InputTotal(chain, tx, n) else 0.0
  {
    if n > 0 {
      assert tx.txIns[n - 1] in tx.txIns;
      DebitIsTotal(chain, m, tx, address, n - 1);
    }
  }

  /** An unspent output is the output the chain has in that place. */
  lemma {:induction false} UnspentIsLookup(chain: seq<Block>, events: seq<Placed>, k: OutPoint)
    requires forall e <- events :: PlacedIn(chain, e)
    requires k in UnspentAfter(events, "")
    ensures InRange(chain, k) && Lookup(chain, k) == UnspentAfter(events, "")[k]
  {
    UnspentOrigin(events, "");
    var i :| 0 <= i < |events| && k in Created(events[i], "")
             && UnspentAfter(events, "")[k] == Created(events[i], "")[k];
    assert events[i] in events;
  }

  // ----- agreement -----

  /** What the ledger takes off for a transaction is what the unspent outputs lose by it. */
  lemma {:induction false} DebitsAgree(chain: seq<Block>, events: seq<Placed>, tx: Transaction, address: string)
    requires address != ""
    requires forall x <- events :: PlacedIn(chain, x)
    requires Sound(UnspentAfter(events, ""), tx) && InputsInRange(chain, tx) && !tx.IsCoinbase()
    ensures Debit(UnspentAfter(events, ""), tx.txIns, address, |tx.txIns|)
         == if Debits(chain, tx, address) then InputTotal(chain, tx, |tx.txIns|) else 0.0
  {
    var m := UnspentAfter(events, "");
    forall txin <- tx.txIns ensures m[txin.txOutPt.Key()] == Lookup(chain, txin.txOutPt.Key()) {
      UnspentIsLookup(chain, events, txin.txOutPt.Key());
    }
    assert tx.txIns[0] in tx.txIns;
    DebitIsTotal(chain, m, tx, address, |tx.txIns|);
  }

  lemma {:induction false} AgreeStep(chain: seq<Block>, events: seq<Placed>, e: Placed, ledger: seq<LedgerInfo>,
                                     address: string)
    requires address != ""
    requires forall x <- events :: PlacedIn(chain, x)
    requires UnspentAfter(events, "").Keys !! Created(e, "").Keys
    requires Sound(UnspentAfter(events, ""), e.body) && InputsInRange(chain, e.body)
    requires LedgerStep(chain, ledger, e, address).Some?
    requires LedgerSum(ledger) == Value(UnspentAfter(events, ""), address)
    ensures LedgerSum(LedgerStep(chain, ledger, e, address).value)
        == Value(Step(UnspentAfter(events, ""), e, ""), address)
  {
    hide Created, UnspentAfter, Value, Step, LedgerStep, PlacedIn;
    ValueStep(UnspentAfter(events, ""), e, address);
    LedgerStepSum(chain, ledger, e, address);
    CreditIsFirst(e.body, address, 0);
    if !e.body.IsCoinbase() {
      DebitsAgree(chain, events, e.body, address);
    }
  }

  /** An address that spends live outputs was paid before. */
  lemma {:induction false} SpenderWasPaid(chain: seq<Block>, events: seq<Placed>, e: Placed, address: string)
    requires forall x <- events :: PlacedIn(chain, x)
    requires Sound(UnspentAfter(events, ""), e.body) && InputsInRange(chain, e.body)
    requires Debits(chain, e.body, address)
    ensures PaidIn(events, address, |events|)
  {
    assert e.body.txIns[0] in e.body.txIns;
    var k := e.body.txIns[0].txOutPt.Key();
    UnspentIsLookup(chain, events, k);
    UnspentOrigin(events, "");
    var i :| 0 <= i < |events| && k in Created(events[i], "")
             && UnspentAfter(events, "")[k] == Created(events[i], "")[k];
    assert FirstPaid(events[i].body, address, 0).Some?;
  }

  lemma {:induction false} StepExists(chain: seq<Block>, events: seq<Placed>, e: Placed, address: string)
    requires forall x <- events :: PlacedIn(chain, x)
    requires EventsResolvable(chain, events) && LedgerAfter(chain, events, address).Some?
    requires Sound(UnspentAfter(events, ""), e.body) && InputsInRange(chain, e.body)
    ensures LedgerStep(chain, LedgerAfter(chain, events, address).value, e, address).Some?
  {
    if Debits(chain, e.body, address) {
      LedgerExists(chain, events, address);
      SpenderWasPaid(chain, events, e, address);
    }
  }

  /** What the agreement asks of a list of transactions. */
  ghost predicate Agreeable(chain: seq<Block>, events: seq<Placed>) {
    && (forall e <- events :: PlacedIn(chain, e))
    && DistinctPlaces(events) && EventsResolvable(chain, events) && SoundEvents(events)
  }

  lemma {:induction false} SoundFront(events: seq<Placed>)
    requires events != [] && SoundEvents(events)
    ensures var n := |events| - 1; SoundEvents(events[..n]) && Sound(UnspentAfter(events[..n], ""), events[n].body)
  {
    hide Sound, UnspentAfter;
    var n := |events| - 1;
    var front := events[..n];
    forall i | 0 <= i < n ensures Sound(UnspentAfter(front[..i], ""), front[i].body) {
      assert front[..i] == events[..i];
    }
  }

  lemma {:induction false} AgreeableFront(chain: seq<Block>, events: seq<Placed>)
    requires events != [] && Agreeable(chain, events)
    ensures var n := |events| - 1;
            Agreeable(chain, events[..n]) && Sound(UnspentAfter(events[..n], ""), events[n].body)
            && InputsInRange(chain, events[n].body) && events[..n] + [events[n]] == events
  {
    hide SoundEvents, Sound, EventsResolvable, DistinctPlaces, PlacedIn, InputsInRange;
    SoundFront(events);
    FrontResolvable(chain, events);
    FrontPlaced(chain, events);
    assert events[..|events| - 1] + [events[|events| - 1]] == events;
  }

  lemma {:induction false} FrontPlaced(chain: seq<Block>, events: seq<Placed>)
    requires events != [] && DistinctPlaces(events) && forall e <- events :: PlacedIn(chain, e)
    ensures var front := events[..|events| - 1];
            DistinctPlaces(front) && forall e <- front :: PlacedIn(chain, e)
  {
    hide PlacedIn;
    assert forall e <- events[..|events| - 1] :: e in events;
  }

  lemma {:induction false} AgreeOnEvents(chain: seq<Block>, events: seq<Placed>, address: string)
    requires address != "" && Agreeable(chain, events)
    ensures LedgerAfter(chain, events, address).Some?
    ensures LedgerSum(LedgerAfter(chain, events, address).value) == Value(UnspentAfter(events, ""), address)
  {
    if events == [] {
      assert UnspentAfter(events, "") == map[];
    } else {
      var n := |events| - 1;
      var front, e := events[..n], events[n];
      AgreeableFront(chain, events);
      AgreeOnEvents(chain, front, address);
      LedgerSnoc(chain, front, e, address);
      StepExists(chain, front, e, address);
      FreshOutputs(front, e, "");
      UnspentSnoc(front, e, "");
      AgreeStep(chain, front, e, LedgerAfter(chain, front, address).value, address);
    }
  }

  lemma {:induction false} LookedUpIsChain(chain: seq<Block>)
    requires IndexIsPosition(chain)
    ensures IndicesInRange(chain) && LookedUp(chain, |chain|) == chain
  {
    assert forall i :: 0 <= i < |chain| ==> LookedUp(chain, |chain|)[i] == chain[i];
  }

  /** The sum of an address's ledger is the value of its unspent outputs, and the program never reads
      the last entry of an empty ledger. */
  lemma {:induction false} BalancesAgree(chain: seq<Block>, address: string)
    requires Accounted(chain) && address != ""
    ensures IndicesInRange(chain) && LedgerOf(chain, address).Some?
    ensures LedgerSum(LedgerOf(chain, address).value) == Value(UnspentOf(chain, address), "")
    ensures LedgerSum(LedgerOf(chain, address).value) == Value(UnspentOf(chain, ""), address)
  {
    LookedUpIsChain(chain);
    LookedUpResolvable(chain, |chain|);
    FlattenPlaces(chain);
    AgreeOnEvents(chain, Flatten(chain), address);
    PerAddressOf(chain, address);
    ValueOwned(UnspentOf(chain, ""), address);
  }

  /** The two programs side by side. */
  method CompareBalances(chain: seq<Block>, address: string) returns (balance: Amount, list: seq<TxOutPoint>)
    requires Accounted(chain) && address != ""
    ensures Enumerates(list, UnspentOf(chain, address))
    ensures balance == ListValue(list)
  {
    BalancesAgree(chain, address);
    balance := GetAddressBalance(chain, address);
    list := GetUnspentTxOuts(chain, address);
    ListedValue(list, UnspentOf(chain, address));
  }
}
