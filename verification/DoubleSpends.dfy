/** What the two views say when outputs are spent that are no longer there: nothing rejects that. */
module DoubleSpends {
  import opened Wrappers
  import opened Transactions
  import opened Blocks
  import opened Unspent
  import opened UnspentLaws
  import opened Ledger
  import opened Agreement

  /** What the ledger takes off the address for a transaction. */
  function Debited(chain: seq<Block>, tx: Transaction, address: string): Amount
    requires tx.WellFormed() && InputsInRange(chain, tx)
  {
    if Debits(chain, tx, address) then InputTotal(chain, tx, |tx.txIns|) else 0.0
  }

  /** What it takes off for all transactions. */
  function LedgerDebits(chain: seq<Block>, events: seq<Placed>, address: string): Amount
    requires EventsResolvable(chain, events)
  {
    if events == [] then 0.0
    else
      var n := |events| - 1;
      assert events[n] in events;
      LedgerDebits(chain, events[..n], address) + Debited(chain, events[n].body, address)
  }

  lemma {:induction false} LedgerSumIs(chain: seq<Block>, events: seq<Placed>, address: string)
    requires address != "" && EventsResolvable(chain, events)
    requires forall e <- events :: DistinctPayees(e.body)
    requires LedgerAfter(chain, events, address).Some?
    ensures LedgerSum(LedgerAfter(chain, events, address).value)
         == ValueCreated(events, address) - LedgerDebits(chain, events, address)
  {
    if events != [] {
      var n := |events| - 1;
      var front, e := events[..n], events[n];
      assert events == front + [e] && e in events && forall x <- front :: x in events;
      LedgerSnoc(chain, front, e, address);
      LedgerSumIs(chain, front, address);
      LedgerStepSum(chain, LedgerAfter(chain, front, address).value, e, address);
      CreditIsFirst(e.body, address, 0);
    }
  }

  /** The guard of the program: input j is found among the outputs that the inputs before it have left. */
  predicate Found(m: Outputs, tx: Transaction, j: nat)
    requires j < |tx.txIns|
  {
    tx.txIns[j].txOutPt.Key() in m - InputKeysFirst(tx, j)
  }

  /** What those of the first n inputs are worth that are not found. */
  function MissedFirst(chain: seq<Block>, m: Outputs, tx: Transaction, n: nat): Amount
    requires n <= |tx.txIns| && InputsInRange(chain, tx)
  {
    if n == 0 then 0.0
    else
      assert tx.txIns[n - 1] in tx.txIns;
      MissedFirst(chain, m, tx, n - 1)
      + if Found(m, tx, n - 1) then 0.0 else Lookup(chain, tx.txIns[n - 1].txOutPt.Key()).amount
  }

  /** What the address spends in a transaction without its being there. */
  function MissedBy(chain: seq<Block>, m: Outputs, tx: Transaction, address: string): Amount
    requires tx.WellFormed() && InputsInRange(chain, tx)
  {
    if Debits(chain, tx, address) then MissedFirst(chain, m, tx, |tx.txIns|) else 0.0
  }

  /** The outputs that are there when the inputs of transaction i are looked for: it may spend its own. */
  function SeenBy(events: seq<Placed>, i: nat): Outputs
    requires i < |events|
  {
    Created(events[i], "") + UnspentAfter(events[..i], "")
  }

  function MissedAt(chain: seq<Block>, events: seq<Placed>, i: nat, address: string): Amount
    requires EventsResolvable(chain, events) && i < |events|
  {
    assert events[i] in events;
    MissedBy(chain, SeenBy(events, i), events[i].body, address)
  }

  /** What the address spends in all transactions without its being there. */
  function Missed(chain: seq<Block>, events: seq<Placed>, address: string): Amount
    requires EventsResolvable(chain, events)
  {
    if events == [] then 0.0
    else
      FrontResolvable(chain, events);
      Missed(chain, events[..|events| - 1], address) + MissedAt(chain, events, |events| - 1, address)
  }

  /** One owner for all inputs, and no payee twice: as the program makes them. */
  ghost predicate Ordinary(chain: seq<Block>, tx: Transaction)
    requires tx.WellFormed() && InputsInRange(chain, tx)
  {
    && DistinctPayees(tx)
    && (!tx.IsCoinbase() ==>
          forall i {:trigger tx.txIns[i]} :: 0 <= i < |tx.txIns| ==>
            (assert tx.txIns[i] in tx.txIns && tx.txIns[0] in tx.txIns;
             Lookup(chain, tx.txIns[i].txOutPt.Key()).address == Lookup(chain, tx.txIns[0].txOutPt.Key()).address))
  }

  ghost predicate AllOrdinary(chain: seq<Block>, events: seq<Placed>)
    requires EventsResolvable(chain, events)
  {
    forall e <- events :: Ordinary(chain, e.body)
  }

  // ----- one transaction -----

  /** What the first n inputs take out. */
  function ErasedFirst(m: Outputs, tx: Transaction, n: nat): Outputs
    requires n <= |tx.txIns|
  {
    Restrict(m, InputKeysFirst(tx, n))
  }

  lemma {:induction false} NothingErased(chain: seq<Block>, m: Outputs, tx: Transaction, address: string)
    requires InputsInRange(chain, tx)
    ensures Value(ErasedFirst(m, tx, 0), address) == 0.0
    ensures InputTotal(chain, tx, 0) == 0.0 == MissedFirst(chain, m, tx, 0)
  {
    assert ErasedFirst(m, tx, 0) == map[];
  }

  /** An input that is found takes its output out, any other takes nothing. */
  lemma {:induction false} ErasedOneMore(m: Outputs, tx: Transaction, address: string, n: nat)
    requires n < |tx.txIns|
    ensures Value(ErasedFirst(m, tx, n + 1), address)
         == Value(ErasedFirst(m, tx, n), address)
            + if Found(m, tx, n) then Worth(m[tx.txIns[n].txOutPt.Key()], address) else 0.0
  {
    var k := tx.txIns[n].txOutPt.Key();
    assert InputKeysFirst(tx, n + 1) == InputKeysFirst(tx, n) + {k};
    if Found(m, tx, n) {
      assert ErasedFirst(m, tx, n + 1) == ErasedFirst(m, tx, n)[k := m[k]];
      ValueAdds(ErasedFirst(m, tx, n), k, m[k], address);
    } else {
      assert ErasedFirst(m, tx, n + 1) == ErasedFirst(m, tx, n);
    }
  }

  /** What is found of the inputs is what the chain has in their places. */
  ghost predicate Faithful(chain: seq<Block>, m: Outputs, tx: Transaction)
    requires InputsInRange(chain, tx)
  {
    forall txin <- tx.txIns :: txin.txOutPt.Key() in m ==> m[txin.txOutPt.Key()] == Lookup(chain, txin.txOutPt.Key())
  }

  /** Every input is the address's; the empty address has them all. */
  ghost predicate OwnsInputs(chain: seq<Block>, tx: Transaction, address: string)
    requires InputsInRange(chain, tx)
  {
    forall txin <- tx.txIns :: Matches(address, Lookup(chain, txin.txOutPt.Key()))
  }

  /** One more input of the owner. */
  lemma {:induction false} OwnersInput(chain: seq<Block>, m: Outputs, tx: Transaction, address: string, n: nat)
    requires InputsInRange(chain, tx) && OwnsInputs(chain, tx, address) && Faithful(chain, m, tx) && n < |tx.txIns|
    ensures InputTotal(chain, tx, n + 1) - MissedFirst(chain, m, tx, n + 1)
         == InputTotal(chain, tx, n) - MissedFirst(chain, m, tx, n)
            + if Found(m, tx, n) then Worth(m[tx.txIns[n].txOutPt.Key()], address) else 0.0
  {
    assert tx.txIns[n] in tx.txIns;
  }

  /** What is erased and what is missed make up what the inputs of an owner are worth. */
  lemma {:induction false} ErasedOfOwner(chain: seq<Block>, m: Outputs, tx: Transaction, address: string, n: nat)
    requires InputsInRange(chain, tx) && OwnsInputs(chain, tx, address) && Faithful(chain, m, tx) && n <= |tx.txIns|
    ensures Value(ErasedFirst(m, tx, n), address) + MissedFirst(chain, m, tx, n) == InputTotal(chain, tx, n)
  {
    hide *;
    if n == 0 {
      NothingErased(chain, m, tx, address);
    } else {
      ErasedOfOwner(chain, m, tx, address, n - 1);
      ErasedOneMore(m, tx, address, n - 1);
      OwnersInput(chain, m, tx, address, n - 1);
    }
  }

  lemma {:induction false} OthersInput(chain: seq<Block>, m: Outputs, tx: Transaction, address: string, n: nat)
    requires tx.WellFormed() && InputsInRange(chain, tx) && Ordinary(chain, tx) && n < |tx.txIns|
    requires address != "" && !tx.IsCoinbase() && !Debits(chain, tx, address) && Faithful(chain, m, tx)
    ensures Found(m, tx, n) ==> Worth(m[tx.txIns[n].txOutPt.Key()], address) == 0.0
  {
    assert tx.txIns[n] in tx.txIns && tx.txIns[0] in tx.txIns;
  }

  lemma {:induction false} ErasedOfOthers(chain: seq<Block>, m: Outputs, tx: Transaction, address: string, n: nat)
    requires tx.WellFormed() && InputsInRange(chain, tx) && Ordinary(chain, tx) && n <= |tx.txIns|
    requires address != "" && !tx.IsCoinbase() && !Debits(chain, tx, address) && Faithful(chain, m, tx)
    ensures Value(ErasedFirst(m, tx, n), address) == 0.0
  {
    hide *;
    if n == 0 {
      NothingErased(chain, m, tx, address);
    } else {
      ErasedOfOthers(chain, m, tx, address, n - 1);
      ErasedOneMore(m, tx, address, n - 1);
      OthersInput(chain, m, tx, address, n - 1);
    }
  }

  lemma {:induction false} SpenderOwns(chain: seq<Block>, tx: Transaction, address: string)
    requires tx.WellFormed() && InputsInRange(chain, tx) && Ordinary(chain, tx) && Debits(chain, tx, address)
    ensures OwnsInputs(chain, tx, address)
  {
    forall txin <- tx.txIns ensures Matches(address, Lookup(chain, txin.txOutPt.Key())) {
      var i :| 0 <= i < |tx.txIns| && tx.txIns[i] == txin;
    }
  }

  function Erased(m: Outputs, tx: Transaction): Outputs {
    Restrict(m, Spent(tx))
  }

  /** One transaction: what it debits is what it erases and what it misses. */
  lemma {:induction false} ErasedAndDebited(chain: seq<Block>, m: Outputs, tx: Transaction, address: string)
    requires tx.WellFormed() && InputsInRange(chain, tx) && Ordinary(chain, tx)
    requires address != "" && Faithful(chain, m, tx)
    ensures Value(Erased(m, tx), address) + MissedBy(chain, m, tx, address) == Debited(chain, tx, address)
  {
    if tx.IsCoinbase() {
      assert Erased(m, tx) == map[];
    } else {
      assert Erased(m, tx) == ErasedFirst(m, tx, |tx.txIns|);
      if Debits(chain, tx, address) {
        SpenderOwns(chain, tx, address);
        ErasedOfOwner(chain, m, tx, address, |tx.txIns|);
      } else {
        ErasedOfOthers(chain, m, tx, address, |tx.txIns|);
      }
    }
  }

  lemma {:induction false} SeenIsFaithful(chain: seq<Block>, events: seq<Placed>, i: nat)
    requires i < |events| && InputsInRange(chain, events[i].body)
    requires forall e <- events :: PlacedIn(chain, e)
    ensures Faithful(chain, SeenBy(events, i), events[i].body)
  {
    var m, tx := SeenBy(events, i), events[i].body;
    assert events[i] in events && forall e <- events[..i] :: e in events;
    forall txin <- tx.txIns | txin.txOutPt.Key() in m
      ensures m[txin.txOutPt.Key()] == Lookup(chain, txin.txOutPt.Key())
    {
      if txin.txOutPt.Key() in UnspentAfter(events[..i], "") {
        UnspentIsLookup(chain, events[..i], txin.txOutPt.Key());
      }
    }
  }

  // ----- all transactions -----

  lemma {:induction false} LastErased(events: seq<Placed>, address: string)
    requires events != []
    ensures ValueErased(events, address)
         == ValueErased(events[..|events| - 1], address)
            + Value(Erased(SeenBy(events, |events| - 1), events[|events| - 1].body), address)
  {
    var n := |events| - 1;
    assert SeenBy(events, n) == Created(events[n], "") + UnspentAfter(events[..n], "");
  }

  lemma {:induction false} DebitedAndErased(chain: seq<Block>, events: seq<Placed>, address: string)
    requires address != "" && EventsResolvable(chain, events)
    requires AllOrdinary(chain, events) && forall e <- events :: PlacedIn(chain, e)
    ensures ValueErased(events, address) + Missed(chain, events, address) == LedgerDebits(chain, events, address)
  {
    if events != [] {
      var n := |events| - 1;
      assert events[n] in events && forall e <- events[..n] :: e in events;
      FrontResolvable(chain, events);
      DebitedAndErased(chain, events[..n], address);
      SeenIsFaithful(chain, events, n);
      ErasedAndDebited(chain, SeenBy(events, n), events[n].body, address);
      LastErased(events, address);
    }
  }

  // ----- the two views -----

  /** Double spends or not: the unspent outputs exceed the ledger by what the inputs of the address are worth
      that the program looks for and does not find. */
  lemma {:induction false} AgreementExactly(chain: seq<Block>, events: seq<Placed>, address: string)
    requires address != "" && EventsResolvable(chain, events) && DistinctPlaces(events)
    requires AllOrdinary(chain, events) && forall e <- events :: PlacedIn(chain, e)
    requires LedgerAfter(chain, events, address).Some?
    ensures Value(UnspentAfter(events, ""), address) - LedgerSum(LedgerAfter(chain, events, address).value)
         == Missed(chain, events, address)
  {
    LedgerSumIs(chain, events, address);
    SupplyAccounts(events, address);
    DebitedAndErased(chain, events, address);
  }

  lemma {:induction false} ChainEvents(chain: seq<Block>)
    requires IndexIsPosition(chain) && ChainResolvable(chain)
    requires forall b <- chain, tx <- b.transactions ::
               tx.WellFormed() && InputsInRange(chain, tx) && Ordinary(chain, tx)
    ensures EventsResolvable(chain, Flatten(chain)) && AllOrdinary(chain, Flatten(chain))
    ensures DistinctPlaces(Flatten(chain)) && forall e <- Flatten(chain) :: PlacedIn(chain, e)
  {
    LookedUpIsChain(chain);
    LookedUpResolvable(chain, |chain|);
    FlattenPlaces(chain);
    forall e <- Flatten(chain) ensures Ordinary(chain, e.body) {
      assert PlacedIn(chain, e);
      assert chain[e.block] in chain && e.body in chain[e.block].transactions;
    }
  }

  /** The same for the program's own computations over a chain. */
  lemma {:induction false} BalancesAgreeIff(chain: seq<Block>, address: string)
    requires address != "" && IndexIsPosition(chain) && ChainResolvable(chain)
    requires forall b <- chain, tx <- b.transactions ::
               tx.WellFormed() && InputsInRange(chain, tx) && Ordinary(chain, tx)
    requires IndicesInRange(chain) && LedgerOf(chain, address).Some?
    ensures EventsResolvable(chain, Flatten(chain))
    ensures Value(UnspentOf(chain, address), "") - LedgerSum(LedgerOf(chain, address).value)
         == Missed(chain, Flatten(chain), address)
    ensures LedgerSum(LedgerOf(chain, address).value) == Value(UnspentOf(chain, address), "")
            <==> Missed(chain, Flatten(chain), address) == 0.0
  {
    ChainEvents(chain);
    LookedUpIsChain(chain);
    AgreementExactly(chain, Flatten(chain), address);
    PerAddressOf(chain, address);
    ValueOwned(UnspentOf(chain, ""), address);
  }

  // ----- when nothing that is missed is negative -----

  /** Each of the first n inputs is found, or worth nothing. */
  ghost predicate AllFound(chain: seq<Block>, m: Outputs, tx: Transaction, n: nat)
    requires n <= |tx.txIns| && InputsInRange(chain, tx)
  {
    forall j :: 0 <= j < n ==>
      (assert tx.txIns[j] in tx.txIns; Lookup(chain, tx.txIns[j].txOutPt.Key()).amount == 0.0) || Found(m, tx, j)
  }

  /** Each of the first n inputs is found, or not negative. */
  ghost predicate NoDebtMissed(chain: seq<Block>, m: Outputs, tx: Transaction, n: nat)
    requires n <= |tx.txIns| && InputsInRange(chain, tx)
  {
    forall j :: 0 <= j < n ==>
      (assert tx.txIns[j] in tx.txIns; Lookup(chain, tx.txIns[j].txOutPt.Key()).amount >= 0.0) || Found(m, tx, j)
  }

  lemma {:induction false} MissedSign(chain: seq<Block>, m: Outputs, tx: Transaction, n: nat)
    requires InputsInRange(chain, tx) && n <= |tx.txIns| && NoDebtMissed(chain, m, tx, n)
    ensures MissedFirst(chain, m, tx, n) >= 0.0
    ensures MissedFirst(chain, m, tx, n) == 0.0 <==> AllFound(chain, m, tx, n)
  {
    if n > 0 {
      MissedSign(chain, m, tx, n - 1);
      assert tx.txIns[n - 1] in tx.txIns;
    }
  }

  /** The inputs of the address in transaction i are found or not negative. */
  ghost predicate NoDebtAt(chain: seq<Block>, events: seq<Placed>, i: nat, address: string)
    requires EventsResolvable(chain, events) && i < |events|
  {
    assert events[i] in events;
    var tx := events[i].body;
    Debits(chain, tx, address) ==> NoDebtMissed(chain, SeenBy(events, i), tx, |tx.txIns|)
  }

  /** If the address spends in transaction i, what it spends is there. */
  ghost predicate SpendAt(chain: seq<Block>, events: seq<Placed>, i: nat, address: string)
    requires EventsResolvable(chain, events) && i < |events|
  {
    assert events[i] in events;
    var tx := events[i].body;
    Debits(chain, tx, address) ==> AllFound(chain, SeenBy(events, i), tx, |tx.txIns|)
  }

  lemma {:induction false} MissedAtSign(chain: seq<Block>, events: seq<Placed>, i: nat, address: string)
    requires EventsResolvable(chain, events) && i < |events| && NoDebtAt(chain, events, i, address)
    ensures MissedAt(chain, events, i, address) >= 0.0
    ensures MissedAt(chain, events, i, address) == 0.0 <==> SpendAt(chain, events, i, address)
  {
    assert events[i] in events;
    var tx := events[i].body;
    if Debits(chain, tx, address) {
      MissedSign(chain, SeenBy(events, i), tx, |tx.txIns|);
    }
  }

  lemma {:induction false} MissedAtFront(chain: seq<Block>, events: seq<Placed>, i: nat, address: string)
    requires i + 1 < |events| && EventsResolvable(chain, events) && EventsResolvable(chain, events[..|events| - 1])
    ensures MissedAt(chain, events[..|events| - 1], i, address) == MissedAt(chain, events, i, address)
  {
    assert events[..|events| - 1][..i] == events[..i];
  }

  /** A sum of parts that are not negative is zero only if each part is. */
  lemma {:induction false} MissedParts(chain: seq<Block>, events: seq<Placed>, address: string)
    requires EventsResolvable(chain, events)
    requires forall i :: 0 <= i < |events| ==> MissedAt(chain, events, i, address) >= 0.0
    ensures Missed(chain, events, address) >= 0.0
    ensures Missed(chain, events, address) == 0.0
            <==> forall i :: 0 <= i < |events| ==> MissedAt(chain, events, i, address) == 0.0
  {
    hide MissedAt;
    if events != [] {
      FrontResolvable(chain, events);
      var front := events[..|events| - 1];
      forall i | 0 <= i < |front|
        ensures MissedAt(chain, front, i, address) == MissedAt(chain, events, i, address)
      {
        MissedAtFront(chain, events, i, address);
      }
      MissedParts(chain, front, address);
    }
  }

  /** As long as no input that is missed is negative, the ledger never says more than the unspent outputs, and
      the two agree exactly if every input of the address that is worth something is found. */
  lemma {:induction false} LedgerNeverSaysMore(chain: seq<Block>, events: seq<Placed>, address: string)
    requires address != "" && EventsResolvable(chain, events) && DistinctPlaces(events)
    requires AllOrdinary(chain, events) && forall e <- events :: PlacedIn(chain, e)
    requires LedgerAfter(chain, events, address).Some?
    requires forall i :: 0 <= i < |events| ==> NoDebtAt(chain, events, i, address)
    ensures LedgerSum(LedgerAfter(chain, events, address).value) <= Value(UnspentAfter(events, ""), address)
    ensures LedgerSum(LedgerAfter(chain, events, address).value) == Value(UnspentAfter(events, ""), address)
            <==> forall i :: 0 <= i < |events| ==> SpendAt(chain, events, i, address)
  {
    AgreementExactly(chain, events, address);
    hide *;
    forall i | 0 <= i < |events|
      ensures MissedAt(chain, events, i, address) >= 0.0
      ensures MissedAt(chain, events, i, address) == 0.0 <==> SpendAt(chain, events, i, address)
    {
      MissedAtSign(chain, events, i, address);
    }
    MissedParts(chain, events, address);
  }

  /** Then one spend of something that is not there is enough, whatever comes before and after it. */
  lemma {:induction false} DoubleSpendDisagrees(chain: seq<Block>, events: seq<Placed>, address: string, i: nat)
    requires address != "" && EventsResolvable(chain, events) && DistinctPlaces(events)
    requires AllOrdinary(chain, events) && forall e <- events :: PlacedIn(chain, e)
    requires LedgerAfter(chain, events, address).Some?
    requires forall i :: 0 <= i < |events| ==> NoDebtAt(chain, events, i, address)
    requires i < |events| && !SpendAt(chain, events, i, address)
    ensures LedgerSum(LedgerAfter(chain, events, address).value) < Value(UnspentAfter(events, ""), address)
  {
    LedgerNeverSaysMore(chain, events, address);
  }
}
