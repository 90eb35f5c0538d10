/** What the entries of a ledger are, and not only what they sum to. */
module LedgerEntries {
  import opened Wrappers
  import opened Transactions
  import opened Blocks
  import opened Unspent
  import opened UnspentLaws
  import opened Ledger
  import opened Agreement
  import opened DoubleSpends

  /** How many of the transactions pay the address. */
  function Payments(events: seq<Placed>, address: string): nat {
    if events == [] then 0
    else
      var n := |events| - 1;
      Payments(events[..n], address) + if Pays(events[n].body, address) then 1 else 0
  }

  /** Some output is the address's. */
  predicate Pays(tx: Transaction, address: string) {
    exists i :: 0 <= i < |tx.txOuts| && tx.txOuts[i].address == address
  }

  lemma {:induction false} PaysIsPaid(tx: Transaction, address: string)
    ensures Pays(tx, address) <==> FirstPaid(tx, address, 0).Some?
  {
  }

  /** The output that counts is the first of the address, however many it has in the transaction. */
  lemma {:induction false} FirstCounts(tx: Transaction, address: string, j: nat, n: nat)
    requires n <= j < |tx.txOuts| && tx.txOuts[j].address == address
    requires forall i :: n <= i < j ==> tx.txOuts[i].address != address
    ensures FirstPaid(tx, address, n) == Some(tx.txOuts[j].amount)
    decreases j - n
  {
    if n < j {
      FirstCounts(tx, address, j, n + 1);
    }
  }

  /** A transaction is a debit of one address, the owner of its first input, and a coinbase of none. */
  lemma {:induction false} OneIsDebited(chain: seq<Block>, tx: Transaction)
    requires tx.WellFormed() && InputsInRange(chain, tx)
    ensures tx.IsCoinbase() ==> forall a: string :: !Debits(chain, tx, a)
    ensures !tx.IsCoinbase() ==>
              (assert tx.txIns[0] in tx.txIns; Debits(chain, tx, Lookup(chain, tx.txIns[0].txOutPt.Key()).address))
    ensures forall a: string, b: string :: Debits(chain, tx, a) && Debits(chain, tx, b) ==> a == b
  {
  }

  /** The entry names the transaction: where it is, its identifier, its time. It pays or debits the address. */
  ghost predicate Names(chain: seq<Block>, entry: LedgerInfo, e: Placed, address: string)
    requires e.body.WellFormed() && InputsInRange(chain, e.body)
  {
    && entry.blockIdx == e.block && entry.txid == e.body.id && entry.time == e.time
    && (Pays(e.body, address) || Debits(chain, e.body, address))
  }

  // ----- one transaction -----

  /** A payment is one entry more; a debit with change is one entry worth change minus inputs; a debit without
      change adds none, and takes the inputs off the last. */
  lemma {:induction false} StepIs(chain: seq<Block>, ledger: seq<LedgerInfo>, e: Placed, address: string)
    requires e.body.WellFormed() && InputsInRange(chain, e.body) && LedgerStep(chain, ledger, e, address).Some?
    ensures var now, paid := LedgerStep(chain, ledger, e, address).value, FirstPaid(e.body, address, 0);
            && |now| == |ledger| + (if Pays(e.body, address) then 1 else 0)
            && (!Pays(e.body, address) && !Debits(chain, e.body, address) ==> now == ledger)
            && (Pays(e.body, address) || Debits(chain, e.body, address) ==>
                  now != [] && Names(chain, now[|now| - 1], e, address))
            && (Pays(e.body, address) ==>
                  && now[..|ledger|] == ledger
                  && now[|ledger|].amount == paid.value - Debited(chain, e.body, address))
            && (!Pays(e.body, address) && Debits(chain, e.body, address) ==>
                  && ledger != [] && now[..|ledger| - 1] == ledger[..|ledger| - 1]
                  && now[|ledger| - 1].amount == ledger[|ledger| - 1].amount - Debited(chain, e.body, address))
  {
    PaysIsPaid(e.body, address);
  }

  // ----- the whole ledger -----

  /** There is an entry for each transaction that pays the address: a debit never adds one. */
  lemma {:induction false} LedgerLength(chain: seq<Block>, events: seq<Placed>, address: string)
    requires EventsResolvable(chain, events) && LedgerAfter(chain, events, address).Some?
    ensures |LedgerAfter(chain, events, address).value| == Payments(events, address)
  {
    if events != [] {
      var n := |events| - 1;
      assert events == events[..n] + [events[n]];
      LedgerSnoc(chain, events[..n], events[n], address);
      LedgerLength(chain, events[..n], address);
      StepIs(chain, LedgerAfter(chain, events[..n], address).value, events[n], address);
    }
  }

  ghost predicate Named(chain: seq<Block>, entry: LedgerInfo, events: seq<Placed>, address: string)
    requires EventsResolvable(chain, events)
  {
    exists e <- events :: Names(chain, entry, e, address)
  }

  lemma {:induction false} StepNames(chain: seq<Block>, ledger: seq<LedgerInfo>, e: Placed, address: string, k: nat)
    requires e.body.WellFormed() && InputsInRange(chain, e.body) && LedgerStep(chain, ledger, e, address).Some?
    requires k < |LedgerStep(chain, ledger, e, address).value|
    ensures var entry := LedgerStep(chain, ledger, e, address).value[k];
            (k < |ledger| && entry == ledger[k]) || Names(chain, entry, e, address)
  {
    PaysIsPaid(e.body, address);
  }

  lemma {:induction false} EntriesAreNamed(chain: seq<Block>, events: seq<Placed>, address: string, k: nat)
    requires EventsResolvable(chain, events) && LedgerAfter(chain, events, address).Some?
    requires k < |LedgerAfter(chain, events, address).value|
    ensures Named(chain, LedgerAfter(chain, events, address).value[k], events, address)
  {
    if events != [] {
      var n := |events| - 1;
      var front, e := events[..n], events[n];
      assert events == front + [e] && e in events;
      LedgerSnoc(chain, front, e, address);
      var before := LedgerAfter(chain, front, address).value;
      StepNames(chain, before, e, address, k);
      var entry := LedgerAfter(chain, events, address).value[k];
      if !Names(chain, entry, e, address) {
        EntriesAreNamed(chain, front, address, k);
        var f :| f in front && Names(chain, entry, f, address);
        assert f in events;
      }
    }
  }

  /** The ledger of an address that always gets change back: one entry for each transaction that pays it, worth
      what it gets less what it spends there. */
  function Nets(chain: seq<Block>, events: seq<Placed>, address: string): seq<LedgerInfo>
    requires EventsResolvable(chain, events)
  {
    if events == [] then []
    else
      FrontResolvable(chain, events);
      var e := events[|events| - 1];
      Nets(chain, events[..|events| - 1], address)
      + if Pays(e.body, address)
        then [Entry(e, OrZero(FirstPaid(e.body, address, 0)) - Debited(chain, e.body, address))]
        else []
  }

  ghost predicate AlwaysChange(chain: seq<Block>, events: seq<Placed>, address: string)
    requires EventsResolvable(chain, events)
  {
    forall e <- events :: Debits(chain, e.body, address) ==> Pays(e.body, address)
  }

  lemma {:induction false} StepNets(chain: seq<Block>, ledger: seq<LedgerInfo>, e: Placed, address: string)
    requires e.body.WellFormed() && InputsInRange(chain, e.body)
    requires Debits(chain, e.body, address) ==> Pays(e.body, address)
    ensures LedgerStep(chain, ledger, e, address)
         == Some(ledger + if Pays(e.body, address)
                          then [Entry(e, OrZero(FirstPaid(e.body, address, 0)) - Debited(chain, e.body, address))]
                          else [])
  {
    PaysIsPaid(e.body, address);
    assert ledger + [] == ledger;
    if Pays(e.body, address) {
      var pushed := ledger + [Entry(e, FirstPaid(e.body, address, 0).value)];
      assert pushed[..|pushed| - 1] == ledger;
    }
  }

  lemma {:induction false} LedgerIsNets(chain: seq<Block>, events: seq<Placed>, address: string)
    requires EventsResolvable(chain, events) && AlwaysChange(chain, events, address)
    ensures LedgerAfter(chain, events, address) == Some(Nets(chain, events, address))
  {
    hide LedgerStep, Debits, Pays, FirstPaid;
    if events != [] {
      var n := |events| - 1;
      assert events == events[..n] + [events[n]] && events[n] in events;
      FrontResolvable(chain, events);
      LedgerSnoc(chain, events[..n], events[n], address);
      assert forall e <- events[..n] :: e in events;
      LedgerIsNets(chain, events[..n], address);
      StepNets(chain, Nets(chain, events[..n], address), events[n], address);
    }
  }

  // ----- the program's ledger -----

  /** Every transaction in order is one of the chain, with index and time of its block. */
  lemma {:induction false} EventIsOfChain(chain: seq<Block>, e: Placed)
    requires e in Flatten(chain)
    ensures exists b, t :: 0 <= b < |chain| && 0 <= t < |chain[b].transactions|
              && e == Placed(chain[b].index, t, chain[b].time, chain[b].transactions[t])
  {
    var n := |chain| - 1;
    if e in Flatten(chain[..n]) {
      EventIsOfChain(chain[..n], e);
      var b, t :| 0 <= b < n && 0 <= t < |chain[..n][b].transactions|
                  && e == Placed(chain[..n][b].index, t, chain[..n][b].time, chain[..n][b].transactions[t]);
      assert chain[..n][b] == chain[b];
    } else {
      var last := PlaceFirst(chain[n], |chain[n].transactions|);
      var t :| 0 <= t < |last| && last[t] == e;
      assert e == Placed(chain[n].index, t, chain[n].time, chain[n].transactions[t]);
    }
  }

  /** The ledger of an address on a chain whose indices are positions: as many entries as transactions pay it,
      each naming a transaction of the chain that pays or debits it. */
  lemma {:induction false} LedgerHolds(chain: seq<Block>, address: string, k: nat)
    requires IndexIsPosition(chain) && ChainResolvable(chain)
    requires IndicesInRange(chain) && LedgerOf(chain, address).Some?
    ensures |LedgerOf(chain, address).value| == Payments(Flatten(chain), address)
    ensures k < |LedgerOf(chain, address).value| ==>
              exists e :: e in Flatten(chain) && e.body.WellFormed() && InputsInRange(chain, e.body)
                          && Names(chain, LedgerOf(chain, address).value[k], e, address)
  {
    LookedUpIsChain(chain);
    LookedUpResolvable(chain, |chain|);
    LedgerLength(chain, Flatten(chain), address);
    if k < |LedgerOf(chain, address).value| {
      EntriesAreNamed(chain, Flatten(chain), address, k);
    }
  }
}
