/** Runs in which payments may spend what other payments spend: nothing keeps them from it. */
module Overspends {
  import opened Wrappers
  import opened Transactions
  import opened Blocks
  import opened Chains
  import opened ChainFile
  import opened Unspent
  import opened UnspentLaws
  import opened Ledger
  import opened Agreement
  import opened DoubleSpends
  import opened Payments
  import opened BlockEffect
  import opened Node
  import opened MiningRun

  /** A payment as the program makes it: one payer, distinct payees, and as much paid out as the outputs it
      refers to are worth in the chain, whether or not they are still unspent. */
  ghost predicate Funded(chain: seq<Block>, tx: Transaction) {
    && tx.WellFormed() && !tx.IsCoinbase() && InputsInRange(chain, tx) && Ordinary(chain, tx)
    && Credit(tx.txOuts, "", |tx.txOuts|) == InputTotal(chain, tx, |tx.txIns|)
  }

  /** The block follows on the chain: a reward, and payments that are funded by the chain. */
  ghost predicate BlockFunded(chain: seq<Block>, b: Block) {
    GoodTemplate(chain, b) && forall tx <- b.transactions[1..] :: Funded(chain, tx)
  }

  ghost predicate ChainFunded(chain: seq<Block>) {
    chain != [] ==> ChainFunded(chain[..|chain| - 1]) && BlockFunded(chain[..|chain| - 1], chain[|chain| - 1])
  }

  // ----- payments stay funded -----

  lemma {:induction false} LookupStays(chain: seq<Block>, more: seq<Block>, k: OutPoint)
    requires InRange(chain, k)
    ensures InRange(chain + more, k) && Lookup(chain + more, k) == Lookup(chain, k)
  {
  }

  lemma {:induction false} InputsStay(chain: seq<Block>, more: seq<Block>, tx: Transaction, n: nat)
    requires InputsInRange(chain, tx) && n <= |tx.txIns|
    ensures InputsInRange(chain + more, tx)
    ensures InputTotal(chain + more, tx, n) == InputTotal(chain, tx, n)
    ensures forall txin <- tx.txIns :: Lookup(chain + more, txin.txOutPt.Key()) == Lookup(chain, txin.txOutPt.Key())
  {
    forall txin <- tx.txIns
      ensures InRange(chain + more, txin.txOutPt.Key())
      ensures Lookup(chain + more, txin.txOutPt.Key()) == Lookup(chain, txin.txOutPt.Key())
    {
      LookupStays(chain, more, txin.txOutPt.Key());
    }
    if n > 0 {
      InputsStay(chain, more, tx, n - 1);
      assert tx.txIns[n - 1] in tx.txIns;
    }
  }

  lemma {:induction false} FundedStays(chain: seq<Block>, more: seq<Block>, tx: Transaction)
    requires Funded(chain, tx)
    ensures Funded(chain + more, tx)
  {
    InputsStay(chain, more, tx, |tx.txIns|);
    assert forall i :: 0 <= i < |tx.txIns| ==> tx.txIns[i] in tx.txIns;
  }

  lemma {:induction false} DebitIsWorth(chain: seq<Block>, m: Outputs, tx: Transaction, n: nat)
    requires InputsInRange(chain, tx) && n <= |tx.txIns|
    requires forall txin <- tx.txIns ::
               txin.txOutPt.Key() in m && m[txin.txOutPt.Key()] == Lookup(chain, txin.txOutPt.Key())
    ensures Debit(m, tx.txIns, "", n) == InputTotal(chain, tx, n)
  {
    if n > 0 {
      DebitIsWorth(chain, m, tx, n - 1);
      assert tx.txIns[n - 1] in tx.txIns;
    }
  }

  lemma {:induction false} TransferIsFunded(chain: seq<Block>, tx: Transaction)
    requires IndexIsPosition(chain) && Transfer(UnspentOf(chain, ""), tx)
    ensures Funded(chain, tx)
  {
    var m := UnspentOf(chain, "");
    FlattenPlaces(chain);
    forall txin <- tx.txIns
      ensures txin.txOutPt.Key() in m && InRange(chain, txin.txOutPt.Key())
      ensures m[txin.txOutPt.Key()] == Lookup(chain, txin.txOutPt.Key())
    {
      var i :| 0 <= i < |tx.txIns| && tx.txIns[i] == txin;
      UnspentIsLookup(chain, Flatten(chain), txin.txOutPt.Key());
    }
    DebitIsWorth(chain, m, tx, |tx.txIns|);
    assert forall i :: 0 <= i < |tx.txIns| ==> tx.txIns[i] in tx.txIns;
  }

  // ----- every step keeps it -----

  /** What every step keeps, careful or not. */
  ghost predicate OpenInv(n: Node) {
    && n.chain != [] && ChainFunded(n.chain)
    && (forall tx <- Pending(n) :: Funded(n.chain, tx))
    && (n.inflight.Some? ==> GoodTemplate(n.chain, n.inflight.value))
  }

  lemma {:induction false} FundedIndices(chain: seq<Block>)
    requires ChainFunded(chain)
    ensures IndexIsPosition(chain)
  {
    if chain != [] {
      FundedIndices(chain[..|chain| - 1]);
      assert forall i :: 0 <= i < |chain| - 1 ==> chain[..|chain| - 1][i] == chain[i];
    }
  }

  lemma {:induction false} SubmitStaysOpen(n: Node, tx: Transaction)
    requires OpenInv(n) && Funded(n.chain, tx)
    ensures OpenInv(n.(queue := n.queue + [tx]))
  {
    hide Funded;
    var longer := n.(queue := n.queue + [tx]);
    assert forall x <- Pending(longer) :: x == tx || x in Pending(n);
  }

  lemma {:induction false} IdsStayFunded(c: Crypto, chain: seq<Block>, tx: Transaction, n: nat)
    requires Funded(chain, tx)
    ensures Funded(chain, WithId(c, tx, n))
  {
    SameTotal(chain, tx, WithId(c, tx, n), |tx.txIns|);
  }

  lemma {:induction false} SameTotal(chain: seq<Block>, tx: Transaction, tx': Transaction, n: nat)
    requires tx.txIns == tx'.txIns && InputsInRange(chain, tx) && n <= |tx.txIns|
    ensures InputsInRange(chain, tx') && InputTotal(chain, tx, n) == InputTotal(chain, tx', n)
  {
    if n > 0 {
      SameTotal(chain, tx, tx', n - 1);
    }
  }

  lemma {:induction false} TemplateStaysOpen(c: Crypto, n: Node, wallet: string, now: int, miner: string, data: string)
    requires OpenInv(n) && n.inflight.None?
    ensures OpenInv(TakeTemplate(c, n, wallet, now, miner, data))
  {
    hide Funded, ChainFunded;
    var taken := TakeTemplate(c, n, wallet, now, miner, data);
    assert Pending(taken) == WithIds(c, n.queue, |n.chain|) && Pending(n) == n.queue;
    forall i | 0 <= i < |n.queue| ensures Funded(n.chain, Pending(taken)[i]) {
      assert n.queue[i] in Pending(n);
      IdsStayFunded(c, n.chain, n.queue[i], |n.chain|);
    }
  }

  lemma {:induction false} MinedStaysOpen(c: Crypto, d: DoubleCodec, n: Node, b: Block)
    requires OpenInv(n) && n.inflight.Some? && Accepts(c, n.chain, b)
    requires b.index == n.inflight.value.index && b.transactions == n.inflight.value.transactions
    ensures OpenInv(AppendMined(c, d, n, b))
  {
    hide Funded, ValidHash, EncodeBlock;
    assert b.transactions[1..] == InFlight(n);
    assert forall tx <- InFlight(n) :: tx in Pending(n);
    assert BlockFunded(n.chain, b);
    assert (n.chain + [b])[..|n.chain|] == n.chain;
    forall tx <- n.queue ensures Funded(n.chain + [b], tx) {
      assert tx in Pending(n);
      FundedStays(n.chain, [b], tx);
    }
  }

  lemma {:induction false} OpenIsQueueOk(n: Node)
    requires OpenInv(n)
    ensures QueueOk(n)
  {
    hide ChainFunded;
  }

  lemma {:induction false} OpenStep(c: Crypto, d: DoubleCodec, n: Node, a: Action)
    requires OpenInv(n)
    ensures OpenInv(Next(c, d, n, a))
  {
    hide OpenInv, Funded, IsOutcome, Accepts, AppendMined, TakeTemplate, Inv;
    if Enabled(c, n, a) {
      match a
      case Submit(sender, receiver, amount, tx) =>
        OpenIndices(n);
        OutcomeIsTransfer(n.chain, sender, receiver, amount, tx, sender);
        TransferIsFunded(n.chain, tx);
        SubmitStaysOpen(n, tx);
      case Template(wallet, now, miner, data) => TemplateStaysOpen(c, n, wallet, now, miner, data);
      case Mined(_, _, _, _) => MinedStaysOpen(c, d, n, MinedBlock(n.inflight.value, a));
      case Abort => AbortStaysOpen(n);
    }
  }

  lemma {:induction false} OpenIndices(n: Node)
    requires OpenInv(n)
    ensures n.chain != [] && IndexIsPosition(n.chain)
  {
    FundedIndices(n.chain);
  }

  lemma {:induction false} AbortStaysOpen(n: Node)
    requires OpenInv(n) && n.inflight.Some?
    ensures OpenInv(AbortMining(n))
  {
    OpenIsQueueOk(n);
    AbortPutsBack(n);
    hide Funded;
  }

  lemma {:induction false} OpenRun(c: Crypto, d: DoubleCodec, n: Node, actions: seq<Action>)
    requires OpenInv(n)
    ensures OpenInv(Run(c, d, n, actions))
  {
    hide OpenInv, Next;
    if actions != [] {
      var k := |actions| - 1;
      OpenRun(c, d, n, actions[..k]);
      OpenStep(c, d, Run(c, d, n, actions[..k]), actions[k]);
    }
  }

  lemma {:induction false} FirstIsOpen(n: Node, wallet: string)
    requires IsFirst(n.chain, wallet) && n.queue == [] && n.inflight.None?
    ensures OpenInv(n)
  {
    assert n.chain[..0] == [];
    assert n.chain[0].transactions[1..] == [];
  }

  // ----- what a block does to the supply -----

  /** The outputs that are there when the inputs of transaction t of a new block are looked for. */
  function SeenIn(chain: seq<Block>, b: Block, t: nat): Outputs
    requires t < |b.transactions|
  {
    Created(NewEvent(b, t), "") + After(chain, b, t)
  }

  /** What those inputs of the first t transactions of a new block are worth that are not found. */
  ghost function MissedIn(chain: seq<Block>, b: Block, t: nat): Amount
    requires BlockFunded(chain, b) && t <= |b.transactions|
  {
    if t <= 1 then 0.0
    else
      assert b.transactions[1..][t - 2] in b.transactions[1..];
      var tx := b.transactions[t - 1];
      MissedIn(chain, b, t - 1) + MissedFirst(chain, SeenIn(chain, b, t - 1), tx, |tx.txIns|)
  }

  lemma {:induction false} SeenInIsFaithful(chain: seq<Block>, b: Block, t: nat)
    requires IndexIsPosition(chain) && b.index == |chain| && t < |b.transactions|
    requires InputsInRange(chain, b.transactions[t])
    ensures Faithful(chain, SeenIn(chain, b, t), b.transactions[t])
  {
    var tx := b.transactions[t];
    var events := Flatten(chain) + PlaceFirst(b, t);
    assert forall e <- events :: PlacedIn(chain + [b], e) by {
      FlattenPlaces(chain + [b]);
      UnspentExtended(chain, b);
      assert events <= Flatten(chain + [b]);
    }
    forall txin <- tx.txIns | txin.txOutPt.Key() in SeenIn(chain, b, t)
      ensures SeenIn(chain, b, t)[txin.txOutPt.Key()] == Lookup(chain, txin.txOutPt.Key())
    {
      var k := txin.txOutPt.Key();
      assert k !in Created(NewEvent(b, t), "");
      UnspentIsLookup(chain + [b], events, k);
      LookupStays(chain, [b], k);
    }
  }

  /** One payment of a new block: value comes into being where inputs are not found. */
  lemma {:induction false} PaymentSupply(chain: seq<Block>, b: Block, t: nat)
    requires IndexIsPosition(chain) && b.index == |chain| && t < |b.transactions| && Funded(chain, b.transactions[t])
    ensures var tx := b.transactions[t];
            Value(After(chain, b, t + 1), "")
            == Value(After(chain, b, t), "") + MissedFirst(chain, SeenIn(chain, b, t), tx, |tx.txIns|)
  {
    var tx, m := b.transactions[t], SeenIn(chain, b, t);
    AfterSnoc(chain, b, t);
    SupplyStep(After(chain, b, t), NewEvent(b, t), "");
    SeenInIsFaithful(chain, b, t);
    assert OwnsInputs(chain, tx, "");
    ErasedOfOwner(chain, m, tx, "", |tx.txIns|);
    assert ErasedFirst(m, tx, |tx.txIns|) == Restrict(m, Spent(tx));
  }

  lemma {:induction false} RewardSupply(chain: seq<Block>, b: Block)
    requires IndexIsPosition(chain) && GoodTemplate(chain, b)
    ensures Value(After(chain, b, 1), "") == Value(UnspentOf(chain, ""), "") + COINBASE_REWARD
  {
    var wallet := b.transactions[0].txOuts[0].address;
    AfterSnoc(chain, b, 0);
    AfterNone(chain, b);
    RewardCredit(b.transactions[0], |chain|, wallet, "");
    RewardIsWorth(wallet);
    ValueStep(After(chain, b, 0), NewEvent(b, 0), "");
  }

  lemma {:induction false} SupplyUpTo(chain: seq<Block>, b: Block, t: nat)
    requires IndexIsPosition(chain) && BlockFunded(chain, b) && 1 <= t <= |b.transactions|
    ensures Value(After(chain, b, t), "")
         == Value(UnspentOf(chain, ""), "") + COINBASE_REWARD + MissedIn(chain, b, t)
  {
    hide *;
    BlockHas(chain, b);
    if t == 1 {
      RewardSupply(chain, b);
      NoneMissed(chain, b);
    } else {
      SupplyUpTo(chain, b, t - 1);
      PaymentIsFunded(chain, b, t - 1);
      PaymentSupply(chain, b, t - 1);
    }
  }

  lemma {:induction false} BlockHas(chain: seq<Block>, b: Block)
    requires BlockFunded(chain, b)
    ensures GoodTemplate(chain, b) && b.index == |chain| && |b.transactions| >= 1
  {
  }

  lemma {:induction false} NoneMissed(chain: seq<Block>, b: Block)
    requires BlockFunded(chain, b) && |b.transactions| >= 1
    ensures MissedIn(chain, b, 1) == 0.0
  {
  }

  lemma {:induction false} PaymentIsFunded(chain: seq<Block>, b: Block, t: nat)
    requires BlockFunded(chain, b) && 1 <= t < |b.transactions|
    ensures var tx := b.transactions[t];
            && Funded(chain, tx) && InputsInRange(chain, tx)
            && MissedIn(chain, b, t + 1)
               == MissedIn(chain, b, t) + MissedFirst(chain, SeenIn(chain, b, t), tx, |tx.txIns|)
  {
    assert b.transactions[1..][t - 1] in b.transactions[1..];
  }

  /** One more block, whatever its payments spend: the supply rises by the reward and by what the inputs are
      worth that are not found. So it rises by the reward alone exactly if those sum to nothing. */
  lemma {:induction false} BlockSupply(chain: seq<Block>, b: Block)
    requires IndexIsPosition(chain) && BlockFunded(chain, b)
    ensures Value(UnspentOf(chain + [b], ""), "")
         == Value(UnspentOf(chain, ""), "") + COINBASE_REWARD + MissedIn(chain, b, |b.transactions|)
  {
    hide Value, After, MissedIn;
    UnspentExtended(chain, b);
    SupplyUpTo(chain, b, |b.transactions|);
  }

  /** What the inputs in a chain are worth that were not found. */
  ghost function AllMissed(chain: seq<Block>): Amount
    requires ChainFunded(chain)
  {
    if chain == [] then 0.0
    else
      var front, b := chain[..|chain| - 1], chain[|chain| - 1];
      AllMissed(front) + MissedIn(front, b, |b.transactions|)
  }

  lemma {:induction false} FundedSupply(chain: seq<Block>)
    requires ChainFunded(chain)
    ensures Value(UnspentOf(chain, ""), "") == COINBASE_REWARD * (|chain| as real) + AllMissed(chain)
  {
    hide Value, BlockFunded, MissedIn, UnspentOf;
    if chain == [] {
      NoSupply();
    } else {
      var front, b := chain[..|chain| - 1], chain[|chain| - 1];
      FundedSupply(front);
      FundedIndices(front);
      BlockSupply(front, b);
      assert front + [b] == chain;
    }
  }

  lemma {:induction false} NoSupply()
    ensures Value(UnspentOf([], ""), "") == 0.0
  {
    assert UnspentOf([], "") == map[];
  }

  // ----- the two views -----

  lemma {:induction false} FundedResolves(chain: seq<Block>)
    requires ChainFunded(chain)
    ensures forall b <- chain, tx <- b.transactions ::
              tx.WellFormed() && InputsInRange(chain, tx) && Ordinary(chain, tx)
  {
    if chain != [] {
      var front, b := chain[..|chain| - 1], chain[|chain| - 1];
      assert front + [b] == chain;
      FundedResolves(front);
      hide BlockFunded, Ordinary, InputsInRange, ChainFunded;
      forall x <- chain, tx <- x.transactions
        ensures tx.WellFormed() && InputsInRange(chain, tx) && Ordinary(chain, tx)
      {
        if x in front {
          OrdinaryStays(front, [b], tx);
        } else {
          assert x == b;
          BlockResolves(front, b, tx);
        }
      }
    }
  }

  lemma {:induction false} BlockResolves(chain: seq<Block>, b: Block, tx: Transaction)
    requires BlockFunded(chain, b) && tx in b.transactions
    ensures tx.WellFormed() && InputsInRange(chain + [b], tx) && Ordinary(chain + [b], tx)
  {
    if tx in b.transactions[1..] {
      FundedStays(chain, [b], tx);
    } else {
      assert tx == b.transactions[0];
      RewardResolves(chain, b);
    }
  }

  lemma {:induction false} OrdinaryStays(chain: seq<Block>, more: seq<Block>, tx: Transaction)
    requires tx.WellFormed() && InputsInRange(chain, tx) && Ordinary(chain, tx)
    ensures InputsInRange(chain + more, tx) && Ordinary(chain + more, tx)
  {
    InputsStay(chain, more, tx, |tx.txIns|);
    assert forall i :: 0 <= i < |tx.txIns| ==> tx.txIns[i] in tx.txIns;
  }

  lemma {:induction false} RewardResolves(chain: seq<Block>, b: Block)
    requires GoodTemplate(chain, b)
    ensures var tx := b.transactions[0];
            tx.WellFormed() && InputsInRange(chain + [b], tx) && Ordinary(chain + [b], tx) && tx.IsCoinbase()
  {
    assert (chain + [b])[|chain|] == b;
  }

  /** The transaction in a place is among the transactions in order. */
  lemma {:induction false} PlaceIsEvent(chain: seq<Block>, b: nat, t: nat) returns (j: nat)
    requires b < |chain| && t < |chain[b].transactions|
    ensures j < |Flatten(chain)| && Flatten(chain)[j].body == chain[b].transactions[t]
  {
    var n := |chain| - 1;
    if b < n {
      j := PlaceIsEvent(chain[..n], b, t);
    } else {
      j := |Flatten(chain[..n])| + t;
    }
  }

  /** Who owns an output was paid by the transaction that made it. */
  lemma {:induction false} OwnerWasPaid(chain: seq<Block>, k: OutPoint, events: seq<Placed>, n: nat)
    requires InRange(chain, k) && Flatten(chain) <= events && |Flatten(chain)| <= n
    ensures PaidIn(events, Lookup(chain, k).address, n)
  {
    var j := PlaceIsEvent(chain, k.blockIndex, k.txIndex);
    assert events[j] == Flatten(chain)[j];
    assert FirstPaid(events[j].body, Lookup(chain, k).address, 0).Some?;
  }

  /** One more block: whoever spends in it was paid in an earlier one. */
  lemma {:induction false} BlockSpendersPaid(chain: seq<Block>, front: seq<Block>, b: Block, address: string, t: nat)
    requires front + [b] <= chain && BlockFunded(front, b) && t < |b.transactions|
    requires var tx := b.transactions[t]; tx.WellFormed() && InputsInRange(chain, tx) && Debits(chain, tx, address)
    ensures PaidIn(Flatten(front + [b]), address, |Flatten(front)| + t + 1)
  {
    var tx := b.transactions[t];
    UnspentExtended(front, b);
    if t == 0 {
      RewardResolves(front, b);
      assert false;
    } else {
      assert b.transactions[1..][t - 1] == tx && tx in b.transactions[1..];
      assert tx.txIns[0] in tx.txIns;
      var k := tx.txIns[0].txOutPt.Key();
      var more := chain[|front|..];
      assert chain == front + more;
      LookupStays(front, more, k);
      OwnerWasPaid(front, k, Flatten(front + [b]), |Flatten(front)| + t + 1);
    }
  }

  /** So if all are paid before they spend up to the block, they are up to its end. */
  lemma {:induction false} SpenderWasPaidFirst(chain: seq<Block>, front: seq<Block>, b: Block, address: string, i: nat)
    requires front + [b] <= chain && BlockFunded(front, b)
    requires EventsResolvable(chain, Flatten(front)) && PaidBeforeSpending(chain, Flatten(front), address)
    requires EventsResolvable(chain, Flatten(front + [b])) && i < |Flatten(front + [b])|
    requires (assert Flatten(front + [b])[i] in Flatten(front + [b]);
              Debits(chain, Flatten(front + [b])[i].body, address))
    ensures PaidIn(Flatten(front + [b]), address, i + 1)
  {
    var events, before := Flatten(front + [b]), Flatten(front);
    UnspentExtended(front, b);
    hide PaidIn, Debits, BlockFunded, Flatten;
    if i < |before| {
      assert events[..|before|] == before && before[i] == events[i];
      PaidPrefix(events, address, |before|, i + 1);
    } else {
      assert events[i] in events;
      BlockSpendersPaid(chain, front, b, address, i - |before|);
    }
  }

  lemma {:induction false} EventsBefore(chain: seq<Block>, front: seq<Block>, b: Block)
    requires EventsResolvable(chain, Flatten(front + [b]))
    ensures EventsResolvable(chain, Flatten(front))
  {
    UnspentExtended(front, b);
    assert forall e <- Flatten(front) :: e in Flatten(front + [b]);
  }

  /** On a chain whose payments are funded nobody spends before being paid, so every ledger exists. */
  lemma {:induction false} FundedIsPaid(chain: seq<Block>, blocks: seq<Block>, address: string)
    requires blocks <= chain && ChainFunded(blocks) && EventsResolvable(chain, Flatten(blocks))
    ensures PaidBeforeSpending(chain, Flatten(blocks), address)
  {
    if blocks != [] {
      var front, b := blocks[..|blocks| - 1], blocks[|blocks| - 1];
      assert front + [b] == blocks;
      EventsBefore(chain, front, b);
      FundedIsPaid(chain, front, address);
      var events := Flatten(blocks);
      hide PaidIn, Debits, ChainFunded, Flatten, BlockFunded;
      forall i | 0 <= i < |events| && (assert events[i] in events; Debits(chain, events[i].body, address))
        ensures PaidIn(events, address, i + 1)
      {
        SpenderWasPaidFirst(chain, front, b, address, i);
      }
    }
  }

  lemma {:induction false} FundedViews(chain: seq<Block>, address: string)
    requires ChainFunded(chain) && address != ""
    ensures IndicesInRange(chain) && ChainResolvable(chain) && LedgerOf(chain, address).Some?
    ensures EventsResolvable(chain, Flatten(chain))
    ensures Value(UnspentOf(chain, address), "") - LedgerSum(LedgerOf(chain, address).value)
         == Missed(chain, Flatten(chain), address)
  {
    FundedIndices(chain);
    FundedResolves(chain);
    ResolvesAll(chain);
    LookedUpIsChain(chain);
    ChainEvents(chain);
    FundedIsPaid(chain, chain, address);
    LedgerExists(chain, Flatten(chain), address);
    hide ChainFunded, LedgerAfter, Missed;
    BalancesAgreeIff(chain, address);
  }

  lemma {:induction false} ResolvesAll(chain: seq<Block>)
    requires forall b <- chain, tx <- b.transactions ::
               tx.WellFormed() && InputsInRange(chain, tx) && Ordinary(chain, tx)
    ensures ChainResolvable(chain)
  {
  }

  // ----- whole runs -----

  /** From the first block on, whatever is paid, mined and given up: the supply is the reward for each block
      and what the inputs are worth that were not found. */
  lemma {:induction false} SupplyOfAnyRun(c: Crypto, d: DoubleCodec, n: Node, wallet: string, actions: seq<Action>)
    requires IsFirst(n.chain, wallet) && n.queue == [] && n.inflight.None?
    ensures var chain := Run(c, d, n, actions).chain;
            && ChainFunded(chain)
            && Value(UnspentOf(chain, ""), "") == COINBASE_REWARD * (|chain| as real) + AllMissed(chain)
  {
    FirstIsOpen(n, wallet);
    OpenRun(c, d, n, actions);
    OpenIsFunded(Run(c, d, n, actions));
    hide *;
    FundedSupply(Run(c, d, n, actions).chain);
  }

  lemma {:induction false} OpenIsFunded(n: Node)
    requires OpenInv(n)
    ensures ChainFunded(n.chain)
  {
  }

  /** And for every address: the ledger exists, and the unspent outputs exceed it by what the inputs of the
      address are worth that were not found. */
  lemma {:induction false} ViewsOfAnyRun(c: Crypto, d: DoubleCodec, n: Node, wallet: string, actions: seq<Action>,
                                         address: string)
    requires IsFirst(n.chain, wallet) && n.queue == [] && n.inflight.None? && address != ""
    ensures var chain := Run(c, d, n, actions).chain;
            && IndicesInRange(chain) && ChainResolvable(chain) && LedgerOf(chain, address).Some?
            && EventsResolvable(chain, Flatten(chain))
            && Value(UnspentOf(chain, address), "") - LedgerSum(LedgerOf(chain, address).value)
               == Missed(chain, Flatten(chain), address)
  {
    FirstIsOpen(n, wallet);
    OpenRun(c, d, n, actions);
    OpenIsFunded(Run(c, d, n, actions));
    hide *;
    FundedViews(Run(c, d, n, actions).chain, address);
  }
}
