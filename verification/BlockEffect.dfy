/** What one more block does to the chain and to everybody's balance. */
module BlockEffect {
  import opened Transactions
  import opened Blocks
  import opened Unspent
  import opened UnspentLaws
  import opened Ledger
  import opened Agreement
  import opened Payments

  function InputKeys(tx: Transaction): set<OutPoint> {
    InputKeysFirst(tx, |tx.txIns|)
  }

  /** No output is spent by two of the transactions. */
  ghost predicate PairwiseDisjoint(txs: seq<Transaction>) {
    forall i, j :: 0 <= i < j < |txs| ==> InputKeys(txs[i]) !! InputKeys(txs[j])
  }

  ghost predicate AllTransfer(m: Outputs, txs: seq<Transaction>) {
    forall tx <- txs :: Transfer(m, tx)
  }

  /** The first transaction of a block that is mined on a chain of n blocks. */
  predicate IsReward(tx: Transaction, n: nat, wallet: string) {
    && tx.txIns == [PlainTxIn(OutPoint(n, 0, 0), "")]
    && tx.txOuts == [TxOut(wallet, COINBASE_REWARD)]
  }

  /** A block that can be mined next: a reward, then transfers that do not get in each other's way. */
  ghost predicate Mintable(chain: seq<Block>, b: Block, wallet: string) {
    && b.index == |chain|
    && |b.transactions| >= 1 && IsReward(b.transactions[0], |chain|, wallet)
    && AllTransfer(UnspentOf(chain, ""), b.transactions[1..])
    && PairwiseDisjoint(b.transactions[1..])
  }

  function NetSum(m: Outputs, txs: seq<Transaction>, address: string, n: nat): Amount
    requires n <= |txs|
  {
    if n == 0 then 0.0 else NetSum(m, txs, address, n - 1) + Net(m, txs[n - 1], address)
  }

  // ----- transactions that do not touch each other -----

  /** The outputs the transaction refers to are the same in both sets. */
  ghost predicate SameInputs(m: Outputs, m': Outputs, tx: Transaction) {
    forall i :: 0 <= i < |tx.txIns| ==>
      var k := tx.txIns[i].txOutPt.Key(); k in m && k in m' && m'[k] == m[k]
  }

  lemma {:induction false} SameDebit(m: Outputs, m': Outputs, tx: Transaction, address: string, n: nat)
    requires SameInputs(m, m', tx) && n <= |tx.txIns|
    ensures Debit(m, tx.txIns, address, n) == Debit(m', tx.txIns, address, n)
  {
    if n > 0 {
      SameDebit(m, m', tx, address, n - 1);
    }
  }

  lemma {:induction false} TransferStays(m: Outputs, m': Outputs, tx: Transaction, address: string)
    requires Transfer(m, tx) && SameInputs(m, m', tx)
    ensures Transfer(m', tx) && Net(m', tx, address) == Net(m, tx, address)
  {
    SameDebit(m, m', tx, "", |tx.txIns|);
    SameDebit(m, m', tx, address, |tx.txIns|);
  }

  /** A transaction leaves alone what another one is about to spend. */
  lemma {:induction false} OthersKept(m: Outputs, m': Outputs, e: Placed, tx: Transaction)
    requires SameInputs(m, m', tx) && Spent(e.body) !! InputKeys(tx)
    ensures SameInputs(m, Step(m', e, ""), tx)
  {
    forall i | 0 <= i < |tx.txIns|
      ensures var k := tx.txIns[i].txOutPt.Key(); k in Step(m', e, "") && Step(m', e, "")[k] == m[k]
    {
      assert tx.txIns[i].txOutPt.Key() in InputKeys(tx);
    }
  }

  // ----- the transactions of the new block, one by one -----

  function After(chain: seq<Block>, b: Block, t: nat): Outputs
    requires t <= |b.transactions|
  {
    UnspentAfter(Flatten(chain) + PlaceFirst(b, t), "")
  }

  function NewEvent(b: Block, t: nat): Placed
    requires t < |b.transactions|
  {
    Placed(b.index, t, b.time, b.transactions[t])
  }

  lemma {:induction false} AfterSnoc(chain: seq<Block>, b: Block, t: nat)
    requires IndexIsPosition(chain) && b.index == |chain| && t < |b.transactions|
    ensures After(chain, b, t + 1) == Step(After(chain, b, t), NewEvent(b, t), "")
    ensures After(chain, b, t).Keys !! Created(NewEvent(b, t), "").Keys
  {
    var before := Flatten(chain) + PlaceFirst(b, t);
    var e := NewEvent(b, t);
    assert Flatten(chain) + PlaceFirst(b, t + 1) == before + [e];
    UnspentSnoc(before, e, "");
    assert DistinctPlaces(before + [e]) by {
      FlattenPlaces(chain + [b]);
      assert (chain + [b])[..|chain|] == chain;
      assert before + [e] <= Flatten(chain + [b]);
    }
    FreshOutputs(before, e, "");
  }

  lemma {:induction false} AfterNone(chain: seq<Block>, b: Block)
    ensures After(chain, b, 0) == UnspentOf(chain, "")
  {
    assert Flatten(chain) + PlaceFirst(b, 0) == Flatten(chain);
  }

  lemma {:induction false} UnspentExtended(chain: seq<Block>, b: Block)
    ensures UnspentOf(chain + [b], "") == After(chain, b, |b.transactions|)
    ensures Flatten(chain + [b]) == Flatten(chain) + PlaceFirst(b, |b.transactions|)
  {
    assert (chain + [b])[..|chain|] == chain;
  }

  lemma {:induction false} WaitingIsSame(m: Outputs, tx: Transaction)
    requires Transfer(m, tx)
    ensures SameInputs(m, m, tx)
  {
  }

  /** What the transaction before place t spends: nothing if it is the reward. */
  lemma {:induction false} SpentBefore(chain: seq<Block>, b: Block, wallet: string, t: nat, tx: Transaction)
    requires Mintable(chain, b, wallet) && t < |b.transactions|
    requires t >= 1 ==> InputKeys(b.transactions[t]) !! InputKeys(tx)
    ensures Spent(b.transactions[t]) !! InputKeys(tx)
  {
    if t == 0 {
      assert b.transactions[0].IsCoinbase();
    }
  }

  /** The outputs that a transaction waiting for its turn refers to are still as they were. */
  lemma {:induction false} StillThere(chain: seq<Block>, b: Block, wallet: string, t: nat, tx: Transaction)
    requires IndexIsPosition(chain) && Mintable(chain, b, wallet) && t <= |b.transactions|
    requires Transfer(UnspentOf(chain, ""), tx)
    requires forall s :: 1 <= s < t ==> InputKeys(b.transactions[s]) !! InputKeys(tx)
    ensures SameInputs(UnspentOf(chain, ""), After(chain, b, t), tx)
  {
    hide SameInputs, Transfer, After, Step;
    if t == 0 {
      AfterNone(chain, b);
      WaitingIsSame(UnspentOf(chain, ""), tx);
    } else {
      StillThere(chain, b, wallet, t - 1, tx);
      AfterSnoc(chain, b, t - 1);
      SpentBefore(chain, b, wallet, t - 1, tx);
      OthersKept(UnspentOf(chain, ""), After(chain, b, t - 1), NewEvent(b, t - 1), tx);
    }
  }

  /** When its turn comes, each transaction of the new block is as good as it was on the old chain. */
  lemma {:induction false} TurnComes(chain: seq<Block>, b: Block, wallet: string, t: nat, address: string)
    requires IndexIsPosition(chain) && Mintable(chain, b, wallet) && 1 <= t < |b.transactions|
    ensures Transfer(After(chain, b, t), b.transactions[t])
    ensures Net(After(chain, b, t), b.transactions[t], address) == Net(UnspentOf(chain, ""), b.transactions[t], address)
  {
    var rest := b.transactions[1..];
    var tx := b.transactions[t];
    assert rest[t - 1] == tx && tx in rest;
    forall s | 1 <= s < t ensures InputKeys(b.transactions[s]) !! InputKeys(tx) {
      assert rest[s - 1] == b.transactions[s];
    }
    StillThere(chain, b, wallet, t, tx);
    TransferStays(UnspentOf(chain, ""), After(chain, b, t), tx, address);
  }

  lemma {:induction false} RewardCredit(tx: Transaction, n: nat, wallet: string, address: string)
    requires IsReward(tx, n, wallet)
    ensures tx.IsCoinbase() && Credit(tx.txOuts, address, |tx.txOuts|) == Worth(TxOut(wallet, COINBASE_REWARD), address)
  {
    CreditOfOne(tx.txOuts, address);
  }

  /** What the reward adds. */
  lemma {:induction false} RewardTurn(chain: seq<Block>, b: Block, wallet: string, address: string)
    requires IndexIsPosition(chain) && Mintable(chain, b, wallet)
    ensures Value(After(chain, b, 1), address)
         == Value(UnspentOf(chain, ""), address) + Worth(TxOut(wallet, COINBASE_REWARD), address)
  {
    AfterSnoc(chain, b, 0);
    AfterNone(chain, b);
    RewardCredit(b.transactions[0], |chain|, wallet, address);
    ValueStep(After(chain, b, 0), NewEvent(b, 0), address);
  }

  /** What a transfer of the new block adds when its turn comes. */
  lemma {:induction false} TransferTurn(chain: seq<Block>, b: Block, wallet: string, t: nat, address: string)
    requires IndexIsPosition(chain) && Mintable(chain, b, wallet) && 1 <= t < |b.transactions|
    ensures Value(After(chain, b, t + 1), address)
         == Value(After(chain, b, t), address) + Net(UnspentOf(chain, ""), b.transactions[t], address)
  {
    AfterSnoc(chain, b, t);
    TurnComes(chain, b, wallet, t, address);
    ValueStep(After(chain, b, t), NewEvent(b, t), address);
  }

  lemma {:induction false} ValueAfter(chain: seq<Block>, b: Block, wallet: string, t: nat, address: string)
    requires IndexIsPosition(chain) && Mintable(chain, b, wallet) && 1 <= t <= |b.transactions|
    ensures Value(After(chain, b, t), address)
         == Value(UnspentOf(chain, ""), address) + Worth(TxOut(wallet, COINBASE_REWARD), address)
            + NetSum(UnspentOf(chain, ""), b.transactions[1..], address, t - 1)
  {
    hide Mintable, IndexIsPosition, After;
    if t == 1 {
      RewardTurn(chain, b, wallet, address);
    } else {
      ValueAfter(chain, b, wallet, t - 1, address);
      TransferTurn(chain, b, wallet, t - 1, address);
    }
  }

  // ----- the chain stays accounted for -----

  lemma {:induction false} StillInRange(chain: seq<Block>, b: Block, tx: Transaction)
    requires InputsInRange(chain, tx)
    ensures InputsInRange(chain + [b], tx)
  {
  }

  lemma {:induction false} NewInputsInRange(chain: seq<Block>, b: Block, wallet: string, t: nat)
    requires IndexIsPosition(chain) && Mintable(chain, b, wallet) && t < |b.transactions|
    ensures b.transactions[t].WellFormed() && InputsInRange(chain + [b], b.transactions[t])
  {
    var tx := b.transactions[t];
    if t > 0 {
      assert b.transactions[1..][t - 1] == tx && tx in b.transactions[1..];
      FlattenPlaces(chain);
      forall txin <- tx.txIns ensures InRange(chain, txin.txOutPt.Key()) {
        UnspentIsLookup(chain, Flatten(chain), txin.txOutPt.Key());
      }
      StillInRange(chain, b, tx);
    }
  }

  lemma {:induction false} ExtendedResolvable(chain: seq<Block>, b: Block, wallet: string)
    requires IndexIsPosition(chain) && ChainResolvable(chain) && Mintable(chain, b, wallet)
    ensures ChainResolvable(chain + [b])
  {
    forall x <- chain + [b] ensures Resolvable(chain + [b], x) {
      if x == b {
        forall tx <- b.transactions ensures tx.WellFormed() && InputsInRange(chain + [b], tx) {
          var t :| 0 <= t < |b.transactions| && b.transactions[t] == tx;
          NewInputsInRange(chain, b, wallet, t);
        }
      } else {
        assert x in chain;
        forall tx <- x.transactions ensures tx.WellFormed() && InputsInRange(chain + [b], tx) {
          StillInRange(chain, b, tx);
        }
      }
    }
  }

  lemma {:induction false} RewardSound(m: Outputs, tx: Transaction, n: nat, wallet: string)
    requires IsReward(tx, n, wallet)
    ensures Sound(m, tx)
  {
  }

  lemma {:induction false} TurnIsSound(chain: seq<Block>, b: Block, wallet: string, t: nat)
    requires IndexIsPosition(chain) && Mintable(chain, b, wallet) && t < |b.transactions|
    ensures Sound(After(chain, b, t), b.transactions[t])
  {
    if t > 0 {
      TurnComes(chain, b, wallet, t, "");
    } else {
      RewardSound(After(chain, b, 0), b.transactions[0], |chain|, wallet);
    }
  }

  lemma {:induction false} ExtendedSound(chain: seq<Block>, b: Block, wallet: string)
    requires IndexIsPosition(chain) && SoundEvents(Flatten(chain)) && Mintable(chain, b, wallet)
    ensures SoundEvents(Flatten(chain + [b]))
  {
    hide Sound, Mintable, IndexIsPosition;
    var before, after := Flatten(chain), Flatten(chain + [b]);
    UnspentExtended(chain, b);
    forall i | 0 <= i < |after| ensures Sound(UnspentAfter(after[..i], ""), after[i].body) {
      if i < |before| {
        assert after[..i] == before[..i];
      } else {
        var t := i - |before|;
        assert after[..i] == before + PlaceFirst(b, t);
        assert after[i] == NewEvent(b, t);
        TurnIsSound(chain, b, wallet, t);
      }
    }
  }

  lemma {:induction false} ExtendedAccounted(chain: seq<Block>, b: Block, wallet: string)
    requires Accounted(chain) && Mintable(chain, b, wallet)
    ensures Accounted(chain + [b])
  {
    ExtendedResolvable(chain, b, wallet);
    ExtendedSound(chain, b, wallet);
    assert IndexIsPosition(chain + [b]);
  }

  lemma {:induction false} AppendValue(chain: seq<Block>, b: Block, wallet: string, address: string)
    requires IndexIsPosition(chain) && Mintable(chain, b, wallet)
    ensures Value(UnspentOf(chain + [b], ""), address)
         == Value(UnspentOf(chain, ""), address) + Worth(TxOut(wallet, COINBASE_REWARD), address)
            + NetSum(UnspentOf(chain, ""), b.transactions[1..], address, |b.transactions| - 1)
  {
    UnspentExtended(chain, b);
    ValueAfter(chain, b, wallet, |b.transactions|, address);
  }

  /** One more block: the chain stays accounted for, the miner gains the reward, and everybody else
      gains and loses what the transfers say. */
  lemma {:induction false} AppendEffect(chain: seq<Block>, b: Block, wallet: string, address: string)
    requires Accounted(chain) && Mintable(chain, b, wallet)
    ensures Accounted(chain + [b])
    ensures Value(UnspentOf(chain + [b], ""), address)
         == Value(UnspentOf(chain, ""), address) + Worth(TxOut(wallet, COINBASE_REWARD), address)
            + NetSum(UnspentOf(chain, ""), b.transactions[1..], address, |b.transactions| - 1)
  {
    ExtendedAccounted(chain, b, wallet);
    AppendValue(chain, b, wallet, address);
  }

  lemma {:induction false} TransfersNetNothing(m: Outputs, txs: seq<Transaction>, n: nat)
    requires AllTransfer(m, txs) && n <= |txs|
    ensures NetSum(m, txs, "", n) == 0.0
  {
    if n > 0 {
      TransfersNetNothing(m, txs, n - 1);
      assert txs[n - 1] in txs;
    }
  }

  /** The supply grows by the reward and by nothing else. */
  lemma {:induction false} SupplyGrowsByReward(chain: seq<Block>, b: Block, wallet: string)
    requires Accounted(chain) && Mintable(chain, b, wallet)
    ensures Value(UnspentOf(chain + [b], ""), "") == Value(UnspentOf(chain, ""), "") + COINBASE_REWARD
  {
    hide *;
    AppendEffect(chain, b, wallet, "");
    RestNetsNothing(chain, b, wallet);
    RewardIsWorth(wallet);
  }

  lemma {:induction false} RestNetsNothing(chain: seq<Block>, b: Block, wallet: string)
    requires Mintable(chain, b, wallet)
    ensures |b.transactions| >= 1
    ensures NetSum(UnspentOf(chain, ""), b.transactions[1..], "", |b.transactions| - 1) == 0.0
  {
    TransfersNetNothing(UnspentOf(chain, ""), b.transactions[1..], |b.transactions| - 1);
  }

  lemma {:induction false} RewardIsWorth(wallet: string)
    ensures Worth(TxOut(wallet, COINBASE_REWARD), "") == COINBASE_REWARD
  {
  }

  /** A transfer that is not in the block and shares no input with it is still one afterwards. */
  lemma {:induction false} TransferOutlivesBlock(chain: seq<Block>, b: Block, wallet: string, tx: Transaction)
    requires IndexIsPosition(chain) && Mintable(chain, b, wallet)
    requires Transfer(UnspentOf(chain, ""), tx)
    requires forall other <- b.transactions[1..] :: InputKeys(other) !! InputKeys(tx)
    ensures Transfer(UnspentOf(chain + [b], ""), tx)
  {
    forall s | 1 <= s < |b.transactions| ensures InputKeys(b.transactions[s]) !! InputKeys(tx) {
      assert b.transactions[1..][s - 1] == b.transactions[s];
    }
    StillThere(chain, b, wallet, |b.transactions|, tx);
    UnspentExtended(chain, b);
    TransferStays(UnspentOf(chain, ""), UnspentOf(chain + [b], ""), tx, "");
  }
}
