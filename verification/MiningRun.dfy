/** A node that queues payments and mines, without ever taking over another chain. */
module MiningRun {
  import opened Wrappers
  import opened Transactions
  import opened Blocks
  import opened Chains
  import opened ChainFile
  import opened Unspent
  import opened UnspentLaws
  import opened Ledger
  import opened Agreement
  import opened Payments
  import opened BlockEffect
  import opened Node

  datatype Action =
    | Submit(sender: string, receiver: string, amount: Amount, tx: Transaction)
    | Template(wallet: string, now: int, miner: string, data: string)
    | Mined(nonce: nat, difficulty: nat, time: int, hash: string)
    | Abort

  /** The payments in the block that is being mined. */
  function InFlight(n: Node): seq<Transaction> {
    if n.inflight.Some? && n.inflight.value.transactions != [] then n.inflight.value.transactions[1..] else []
  }

  /** The payments that are not in the chain yet. */
  function Pending(n: Node): seq<Transaction> {
    n.queue + InFlight(n)
  }

  function MinedBlock(b: Block, a: Action): Block
    requires a.Mined?
  {
    b.SetMinedData(a.nonce, a.difficulty, a.time, a.hash)
  }

  /** What can happen: any payment that the program makes is queued, whatever else waits, and a mined block
      is one that the chain accepts. The address of a sender is never empty: it begins with "1". */
  ghost predicate Enabled(c: Crypto, n: Node, a: Action) {
    match a
    case Submit(sender, receiver, amount, tx) =>
      sender != "" && IsOutcome(n.chain, sender, receiver, amount, SUCCESS, tx)
    case Template(_, _, _, _) => n.chain != [] && n.inflight.None?
    case Mined(_, _, _, _) => n.chain != [] && n.inflight.Some? && Accepts(c, n.chain, MinedBlock(n.inflight.value, a))
    case Abort => n.inflight.Some?
  }

  /** What is not enabled does not happen. */
  ghost function Next(c: Crypto, d: DoubleCodec, n: Node, a: Action): Node {
    if !Enabled(c, n, a) then n
    else match a
      case Submit(_, _, _, tx) => n.(queue := n.queue + [tx])
      case Template(wallet, now, miner, data) => TakeTemplate(c, n, wallet, now, miner, data)
      case Mined(_, _, _, _) => AppendMined(c, d, n, MinedBlock(n.inflight.value, a))
      case Abort => AbortMining(n)
  }

  ghost function Run(c: Crypto, d: DoubleCodec, n: Node, actions: seq<Action>): Node {
    if actions == [] then n
    else var k := |actions| - 1; Next(c, d, Run(c, d, n, actions[..k]), actions[k])
  }

  /** The program does not check that a payment leaves alone what a waiting payment spends. */
  ghost predicate Careful(c: Crypto, n: Node, a: Action) {
    a.Submit? && Enabled(c, n, a) ==> forall other <- Pending(n) :: InputKeys(other) !! InputKeys(a.tx)
  }

  ghost predicate CarefulRun(c: Crypto, d: DoubleCodec, n: Node, actions: seq<Action>) {
    actions != [] ==>
      var k := |actions| - 1;
      CarefulRun(c, d, n, actions[..k]) && Careful(c, Run(c, d, n, actions[..k]), actions[k])
  }

  ghost predicate GoodTemplate(chain: seq<Block>, b: Block) {
    && b.index == |chain|
    && |b.transactions| >= 1 && |b.transactions[0].txOuts| == 1
    && IsReward(b.transactions[0], |chain|, b.transactions[0].txOuts[0].address)
  }

  /** What every careful step keeps. */
  ghost predicate Inv(n: Node) {
    && n.chain != [] && Accounted(n.chain)
    && AllTransfer(UnspentOf(n.chain, ""), Pending(n))
    && PairwiseDisjoint(Pending(n))
    && (n.inflight.Some? ==> GoodTemplate(n.chain, n.inflight.value))
  }

  // ----- the steps -----

  lemma {:induction false} SameTransfer(m: Outputs, tx: Transaction, tx': Transaction)
    requires tx.txIns == tx'.txIns && tx.txOuts == tx'.txOuts
    ensures Transfer(m, tx) <==> Transfer(m, tx')
    ensures InputKeys(tx) == InputKeys(tx')
  {
  }

  /** A successful payment is a transfer, and its effect is what was ordered. */
  lemma {:induction false} OutcomeIsTransfer(chain: seq<Block>, sender: string, receiver: string, amount: Amount,
                                             tx: Transaction, address: string)
    requires IndexIsPosition(chain) && sender != "" && address != ""
    requires IsOutcome(chain, sender, receiver, amount, SUCCESS, tx)
    ensures Transfer(UnspentOf(chain, ""), tx)
    ensures Net(UnspentOf(chain, ""), tx, address)
         == (if address == receiver then amount else 0.0) - (if address == sender then amount else 0.0)
  {
    var m := UnspentOf(chain, "");
    PerAddressOf(chain, sender);
    var list :| Enumerates(list, UnspentOf(chain, sender)) && Priced(list)
                && Payment(list, sender, receiver, amount) == (SUCCESS, tx);
    SuccessPays(list, m, sender, receiver, amount);
    PaymentEffect(m, sender, receiver, amount, tx, address);
  }

  lemma {:induction false} InsertedDisjoint(a: seq<Transaction>, b: seq<Transaction>, tx: Transaction)
    requires PairwiseDisjoint(a + b) && forall other <- a + b :: InputKeys(other) !! InputKeys(tx)
    ensures PairwiseDisjoint(a + [tx] + b)
  {
    var was, now := a + b, a + [tx] + b;
    var q := |a|;
    forall i, j | 0 <= i < j < |now| ensures InputKeys(now[i]) !! InputKeys(now[j]) {
      var wi, wj := if i < q then i else i - 1, if j < q then j else j - 1;
      assert i != q ==> now[i] == was[wi];
      assert j != q ==> now[j] == was[wj];
    }
  }

  lemma {:induction false} InsertedTransfer(m: Outputs, a: seq<Transaction>, b: seq<Transaction>, tx: Transaction)
    requires AllTransfer(m, a + b) && Transfer(m, tx)
    ensures AllTransfer(m, a + [tx] + b)
  {
    assert forall x <- a + [tx] + b :: x == tx || x in a + b;
  }

  lemma {:induction false} SubmitKeeps(c: Crypto, d: DoubleCodec, n: Node, a: Action)
    requires Inv(n) && a.Submit? && Enabled(c, n, a) && Careful(c, n, a)
    ensures Inv(Next(c, d, n, a))
  {
    OutcomeIsTransfer(n.chain, a.sender, a.receiver, a.amount, a.tx, a.sender);
    InsertedDisjoint(n.queue, InFlight(n), a.tx);
    InsertedTransfer(UnspentOf(n.chain, ""), n.queue, InFlight(n), a.tx);
    assert Pending(Next(c, d, n, a)) == n.queue + [a.tx] + InFlight(n);
  }

  /** Identifiers aside, the payments stay what they are. */
  lemma {:induction false} TemplatePayments(c: Crypto, m: Outputs, txs: seq<Transaction>, n: nat)
    requires AllTransfer(m, txs) && PairwiseDisjoint(txs)
    ensures AllTransfer(m, WithIds(c, txs, n)) && PairwiseDisjoint(WithIds(c, txs, n))
  {
    hide Transfer, InputKeys;
    var now := WithIds(c, txs, n);
    forall i | 0 <= i < |now| ensures Transfer(m, now[i]) && InputKeys(now[i]) == InputKeys(txs[i]) {
      assert txs[i] in txs;
      SameTransfer(m, txs[i], now[i]);
    }
  }

  lemma {:induction false} TemplateKeeps(c: Crypto, d: DoubleCodec, n: Node, a: Action)
    requires Inv(n) && a.Template? && Enabled(c, n, a)
    ensures Inv(Next(c, d, n, a))
  {
    hide Accounted, AllTransfer, PairwiseDisjoint;
    assert Pending(Next(c, d, n, a)) == WithIds(c, n.queue, |n.chain|);
    assert Pending(n) == n.queue;
    TemplatePayments(c, UnspentOf(n.chain, ""), n.queue, |n.chain|);
  }

  /** The parts of a list of good payments are good. */
  lemma {:induction false} PartsGood(m: Outputs, a: seq<Transaction>, b: seq<Transaction>)
    requires AllTransfer(m, a + b) && PairwiseDisjoint(a + b)
    ensures AllTransfer(m, a) && PairwiseDisjoint(a)
    ensures AllTransfer(m, b) && PairwiseDisjoint(b)
    ensures forall x <- a, y <- b :: InputKeys(x) !! InputKeys(y)
  {
    var all := a + b;
    forall i, j | 0 <= i < j < |b| ensures InputKeys(b[i]) !! InputKeys(b[j]) {
      assert all[|a| + i] == b[i] && all[|a| + j] == b[j];
    }
    forall i, j | 0 <= i < j < |a| ensures InputKeys(a[i]) !! InputKeys(a[j]) {
      assert all[i] == a[i] && all[j] == a[j];
    }
    forall x <- a, y <- b ensures InputKeys(x) !! InputKeys(y) {
      var i :| 0 <= i < |a| && a[i] == x;
      var j :| 0 <= j < |b| && b[j] == y;
      assert all[i] == x && all[|a| + j] == y;
    }
    assert forall x <- a :: x in all;
    assert forall y <- b :: y in all;
  }

  /** The block in flight can be mined next. */
  lemma {:induction false} InFlightMintable(n: Node, b: Block)
    requires Inv(n) && n.inflight.Some?
    requires b.index == n.inflight.value.index && b.transactions == n.inflight.value.transactions
    ensures Mintable(n.chain, b, b.transactions[0].txOuts[0].address)
  {
    PartsGood(UnspentOf(n.chain, ""), n.queue, InFlight(n));
  }

  lemma {:induction false} MinedKeeps(c: Crypto, d: DoubleCodec, n: Node, a: Action)
    requires Inv(n) && a.Mined? && Enabled(c, n, a)
    ensures Inv(Next(c, d, n, a))
    ensures Value(UnspentOf(Next(c, d, n, a).chain, ""), "") == Value(UnspentOf(n.chain, ""), "") + COINBASE_REWARD
  {
    hide ValidHash;
    var b := MinedBlock(n.inflight.value, a);
    var wallet := b.transactions[0].txOuts[0].address;
    InFlightMintable(n, b);
    SupplyGrowsByReward(n.chain, b, wallet);
    ExtendedAccounted(n.chain, b, wallet);
    WaitingKept(n, b, wallet);
    assert Pending(Next(c, d, n, a)) == n.queue;
  }

  /** Mining the block in flight leaves the waiting payments as they were. */
  lemma {:induction false} WaitingKept(n: Node, b: Block, wallet: string)
    requires Inv(n) && Mintable(n.chain, b, wallet) && b.transactions[1..] == InFlight(n)
    ensures AllTransfer(UnspentOf(n.chain + [b], ""), n.queue) && PairwiseDisjoint(n.queue)
  {
    PartsGood(UnspentOf(n.chain, ""), n.queue, InFlight(n));
    forall tx <- n.queue ensures Transfer(UnspentOf(n.chain + [b], ""), tx) {
      TransferOutlivesBlock(n.chain, b, wallet, tx);
    }
  }

  lemma {:induction false} PaymentsConcat(a: seq<Transaction>, b: seq<Transaction>)
    ensures NonCoinbase(a + b) == NonCoinbase(a) + NonCoinbase(b)
  {
    if b == [] {
      assert a + b == a;
    } else {
      var n := |b| - 1;
      assert (a + b)[..|a + b| - 1] == a + b[..n];
      PaymentsConcat(a, b[..n]);
    }
  }

  lemma {:induction false} PaymentsArePutBack(txs: seq<Transaction>)
    requires forall tx <- txs :: !tx.IsCoinbase()
    ensures NonCoinbase(txs) == txs
  {
    hide Transaction.IsCoinbase;
    if txs != [] {
      var n := |txs| - 1;
      assert forall tx <- txs[..n] :: tx in txs;
      PaymentsArePutBack(txs[..n]);
      assert txs[n] in txs;
      assert txs[..n] + [txs[n]] == txs;
    }
  }

  lemma {:induction false} NoCoinbasePutBack(txs: seq<Transaction>, tx: Transaction)
    requires tx in NonCoinbase(txs)
    ensures !tx.IsCoinbase()
  {
    if txs != [] && tx in NonCoinbase(txs[..|txs| - 1]) {
      NoCoinbasePutBack(txs[..|txs| - 1], tx);
    }
  }

  /** Putting transactions back loses none exactly when none of them is shaped like a coinbase: a payment
      with an empty signature whose first input is the first output of a first transaction would be lost. */
  lemma {:induction false} AllPutBackIff(txs: seq<Transaction>)
    ensures NonCoinbase(txs) == txs <==> forall tx <- txs :: !tx.IsCoinbase()
  {
    if forall tx <- txs :: !tx.IsCoinbase() {
      PaymentsArePutBack(txs);
    } else {
      var tx :| tx in txs && tx.IsCoinbase();
      if tx in NonCoinbase(txs) {
        NoCoinbasePutBack(txs, tx);
      }
    }
  }

  /** No payment looks like a coinbase, and the block in flight begins with its own coinbase. */
  ghost predicate QueueOk(n: Node) {
    && (forall tx <- Pending(n) :: !tx.IsCoinbase())
    && (n.inflight.Some? ==> n.inflight.value.transactions != [] && n.inflight.value.transactions[0].IsCoinbase())
  }

  lemma {:induction false} CoinbaseStays(tx: Transaction)
    requires tx.IsCoinbase()
    ensures NonCoinbase([tx]) == []
  {
    assert [tx][..0] == [];
  }

  /** Giving a template up puts back exactly the payments it took, in their order. */
  lemma {:induction false} AbortPutsBack(n: Node)
    requires QueueOk(n) && n.inflight.Some?
    ensures NonCoinbase(n.inflight.value.transactions) == InFlight(n)
    ensures Pending(AbortMining(n)) == Pending(n) == AbortMining(n).queue
  {
    hide Transaction.IsCoinbase, NonCoinbase;
    var txs := n.inflight.value.transactions;
    assert txs == [txs[0]] + txs[1..];
    PaymentsConcat([txs[0]], txs[1..]);
    CoinbaseStays(txs[0]);
    forall tx <- txs[1..] ensures !tx.IsCoinbase() {
      assert tx in Pending(n);
    }
    AllPutBackIff(txs[1..]);
  }

  lemma {:induction false} InvIsQueueOk(n: Node)
    requires Inv(n)
    ensures QueueOk(n)
  {
  }

  lemma {:induction false} NextKeeps(c: Crypto, d: DoubleCodec, n: Node, a: Action)
    requires Inv(n) && Careful(c, n, a)
    ensures Inv(Next(c, d, n, a))
    ensures Value(UnspentOf(Next(c, d, n, a).chain, ""), "")
         == Value(UnspentOf(n.chain, ""), "")
            + if |Next(c, d, n, a).chain| == |n.chain| then 0.0 else COINBASE_REWARD
  {
    if Enabled(c, n, a) {
      match a
      case Submit(_, _, _, _) => SubmitKeeps(c, d, n, a);
      case Template(_, _, _, _) => TemplateKeeps(c, d, n, a);
      case Mined(_, _, _, _) => MinedKeeps(c, d, n, a);
      case Abort =>
        InvIsQueueOk(n);
        AbortPutsBack(n);
    }
  }

  lemma {:induction false} NextLength(c: Crypto, d: DoubleCodec, n: Node, a: Action)
    ensures |n.chain| <= |Next(c, d, n, a).chain| <= |n.chain| + 1
  {
  }

  // ----- whole runs -----

  /** Over any careful run: the chain stays accounted for, and the supply has grown by the reward for each
      block. */
  lemma {:induction false} SupplyOverRun(c: Crypto, d: DoubleCodec, n: Node, actions: seq<Action>)
    requires Inv(n) && CarefulRun(c, d, n, actions)
    ensures Inv(Run(c, d, n, actions)) && |n.chain| <= |Run(c, d, n, actions).chain|
    ensures Value(UnspentOf(Run(c, d, n, actions).chain, ""), "")
         == Value(UnspentOf(n.chain, ""), "")
            + COINBASE_REWARD * ((|Run(c, d, n, actions).chain| - |n.chain|) as real)
  {
    if actions != [] {
      var k := |actions| - 1;
      SupplyOverRun(c, d, n, actions[..k]);
      NextKeeps(c, d, Run(c, d, n, actions[..k]), actions[k]);
      NextLength(c, d, Run(c, d, n, actions[..k]), actions[k]);
    }
  }

  /** Over any careful run the two views of what an address owns agree. */
  lemma {:induction false} BalancesAgreeOverRun(c: Crypto, d: DoubleCodec, n: Node, actions: seq<Action>,
                                                address: string)
    requires Inv(n) && CarefulRun(c, d, n, actions) && address != ""
    ensures var chain := Run(c, d, n, actions).chain;
            && IndicesInRange(chain) && ChainResolvable(chain) && LedgerOf(chain, address).Some?
            && LedgerSum(LedgerOf(chain, address).value) == Value(UnspentOf(chain, address), "")
  {
    SupplyOverRun(c, d, n, actions);
    BalancesAgree(Run(c, d, n, actions).chain, address);
  }

  /** The first chain of a node: one block, with one reward. */
  ghost predicate IsFirst(chain: seq<Block>, wallet: string) {
    && |chain| == 1 && chain[0].index == 0
    && |chain[0].transactions| == 1 && IsReward(chain[0].transactions[0], 0, wallet)
  }

  lemma {:induction false} FirstChainInv(n: Node, wallet: string)
    requires IsFirst(n.chain, wallet) && n.queue == [] && n.inflight.None?
    ensures Inv(n) && Value(UnspentOf(n.chain, ""), "") == COINBASE_REWARD
  {
    var b := n.chain[0];
    assert n.chain == [] + [b] && b.transactions[1..] == [];
    ExtendedAccounted([], b, wallet);
    SupplyGrowsByReward([], b, wallet);
    assert UnspentOf([], "") == map[];
  }

  /** From the first block on, there is exactly the reward for each block in circulation. */
  lemma {:induction false} SupplyFromStart(c: Crypto, d: DoubleCodec, n: Node, wallet: string, actions: seq<Action>)
    requires IsFirst(n.chain, wallet) && n.queue == [] && n.inflight.None? && CarefulRun(c, d, n, actions)
    ensures Inv(Run(c, d, n, actions))
    ensures Value(UnspentOf(Run(c, d, n, actions).chain, ""), "")
         == COINBASE_REWARD * (|Run(c, d, n, actions).chain| as real)
  {
    FirstChainInv(n, wallet);
    SupplyOverRun(c, d, n, actions);
  }

  // ----- no payment is lost or doubled -----

  type Load = (seq<TxIn>, seq<TxOut>)

  /** The payments, identifiers aside, each as often as it occurs. */
  function Loads(txs: seq<Transaction>): multiset<Load> {
    if txs == [] then multiset{}
    else var n := |txs| - 1; Loads(txs[..n]) + multiset{(txs[n].txIns, txs[n].txOuts)}
  }

  lemma {:induction false} LoadsConcat(a: seq<Transaction>, b: seq<Transaction>)
    ensures Loads(a + b) == Loads(a) + Loads(b)
  {
    if b == [] {
      assert a + b == a;
    } else {
      var n := |b| - 1;
      assert (a + b)[..|a + b| - 1] == a + b[..n];
      LoadsConcat(a, b[..n]);
    }
  }

  lemma {:induction false} LoadsIgnoreIds(c: Crypto, txs: seq<Transaction>, n: nat)
    ensures Loads(WithIds(c, txs, n)) == Loads(txs)
  {
    if txs != [] {
      var k := |txs| - 1;
      LoadsIgnoreIds(c, txs[..k], n);
      assert WithIds(c, txs, n)[..k] == WithIds(c, txs[..k], n);
    }
  }

  /** The payments in the blocks from number `from` on. */
  function MinedLoads(chain: seq<Block>, from: nat): multiset<Load>
    requires from <= |chain|
  {
    if |chain| == from then multiset{}
    else
      var n := |chain| - 1;
      MinedLoads(chain[..n], from)
      + Loads(if chain[n].transactions == [] then [] else chain[n].transactions[1..])
  }

  /** The payments that wait, and those in the blocks from number `from` on. */
  function Held(n: Node, from: nat): multiset<Load>
    requires from <= |n.chain|
  {
    Loads(Pending(n)) + MinedLoads(n.chain, from)
  }

  /** The payment that is accepted in a step, if any. */
  ghost function Accepted(c: Crypto, n: Node, a: Action): multiset<Load> {
    if a.Submit? && Enabled(c, n, a) then multiset{(a.tx.txIns, a.tx.txOuts)} else multiset{}
  }

  /** The payments that were accepted in a run. */
  ghost function Submitted(c: Crypto, d: DoubleCodec, n: Node, actions: seq<Action>): multiset<Load> {
    if actions == [] then multiset{}
    else
      var k := |actions| - 1;
      Submitted(c, d, n, actions[..k]) + Accepted(c, Run(c, d, n, actions[..k]), actions[k])
  }

  lemma {:induction false} PendingLoads(n: Node)
    ensures Loads(Pending(n)) == Loads(n.queue) + Loads(InFlight(n))
  {
    LoadsConcat(n.queue, InFlight(n));
  }

  lemma {:induction false} SubmitLoads(n: Node, tx: Transaction, from: nat)
    requires from <= |n.chain|
    ensures Held(n.(queue := n.queue + [tx]), from) == Held(n, from) + multiset{(tx.txIns, tx.txOuts)}
  {
    var longer := n.(queue := n.queue + [tx]);
    PendingLoads(n);
    PendingLoads(longer);
    assert longer.queue[..|n.queue|] == n.queue;
    assert InFlight(longer) == InFlight(n);
  }

  lemma {:induction false} TemplateLoads(c: Crypto, n: Node, wallet: string, now: int, miner: string, data: string,
                                         from: nat)
    requires n.chain != [] && n.inflight.None? && from <= |n.chain|
    ensures Held(TakeTemplate(c, n, wallet, now, miner, data), from) == Held(n, from)
  {
    assert Pending(TakeTemplate(c, n, wallet, now, miner, data)) == WithIds(c, n.queue, |n.chain|);
    assert Pending(n) == n.queue;
    LoadsIgnoreIds(c, n.queue, |n.chain|);
  }

  lemma {:induction false} MinedLoadsMove(c: Crypto, d: DoubleCodec, n: Node, b: Block, from: nat)
    requires n.chain != [] && n.inflight.Some? && Accepts(c, n.chain, b)
    requires b.transactions == n.inflight.value.transactions && from <= |n.chain|
    ensures Held(AppendMined(c, d, n, b), from) == Held(n, from)
  {
    hide ValidHash, EncodeBlock;
    PendingLoads(n);
    assert Pending(AppendMined(c, d, n, b)) == n.queue;
    assert AppendMined(c, d, n, b).chain[..|n.chain|] == n.chain;
  }

  /** One step accepts at most one payment, and neither loses nor doubles any. */
  lemma {:induction false} HeldStep(c: Crypto, d: DoubleCodec, n: Node, a: Action, from: nat)
    requires QueueOk(n) && from <= |n.chain|
    ensures from <= |Next(c, d, n, a).chain|
    ensures Held(Next(c, d, n, a), from) == Held(n, from) + Accepted(c, n, a)
  {
    hide QueueOk, Held, IsOutcome, Accepts;
    NextLength(c, d, n, a);
    if Enabled(c, n, a) {
      match a
      case Submit(_, _, _, tx) => SubmitLoads(n, tx, from);
      case Template(wallet, now, miner, data) => TemplateLoads(c, n, wallet, now, miner, data, from);
      case Mined(_, _, _, _) => MinedLoadsMove(c, d, n, MinedBlock(n.inflight.value, a), from);
      case Abort => AbortHolds(n, from);
    }
  }

  lemma {:induction false} AbortHolds(n: Node, from: nat)
    requires QueueOk(n) && n.inflight.Some? && from <= |n.chain|
    ensures Held(AbortMining(n), from) == Held(n, from)
  {
    AbortPutsBack(n);
  }

  lemma {:induction false} QueueStep(c: Crypto, d: DoubleCodec, n: Node, a: Action)
    requires QueueOk(n)
    ensures QueueOk(Next(c, d, n, a))
  {
    if Enabled(c, n, a) {
      match a
      case Submit(sender, receiver, amount, tx) =>
        OutcomeIsNoCoinbase(n.chain, sender, receiver, amount, tx);
        SubmitQueueOk(n, tx);
      case Template(wallet, now, miner, data) => TemplateQueueOk(c, n, wallet, now, miner, data);
      case Mined(_, _, _, _) => MinedQueueOk(c, d, n, MinedBlock(n.inflight.value, a));
      case Abort => AbortPutsBack(n);
    }
  }

  lemma {:induction false} SubmitQueueOk(n: Node, tx: Transaction)
    requires QueueOk(n) && !tx.IsCoinbase()
    ensures QueueOk(n.(queue := n.queue + [tx]))
  {
    hide Transaction.IsCoinbase;
    var longer := n.(queue := n.queue + [tx]);
    assert forall x <- Pending(longer) :: x == tx || x in Pending(n);
  }

  lemma {:induction false} TemplateQueueOk(c: Crypto, n: Node, wallet: string, now: int, miner: string, data: string)
    requires QueueOk(n) && n.chain != [] && n.inflight.None?
    ensures QueueOk(TakeTemplate(c, n, wallet, now, miner, data))
  {
    var taken := TakeTemplate(c, n, wallet, now, miner, data);
    assert Pending(taken) == WithIds(c, n.queue, |n.chain|) && Pending(n) == n.queue;
    forall i | 0 <= i < |n.queue| ensures !Pending(taken)[i].IsCoinbase() {
      assert n.queue[i] in Pending(n);
    }
  }

  lemma {:induction false} MinedQueueOk(c: Crypto, d: DoubleCodec, n: Node, b: Block)
    requires QueueOk(n) && n.chain != []
    ensures QueueOk(AppendMined(c, d, n, b))
  {
    hide Transaction.IsCoinbase;
    assert Pending(AppendMined(c, d, n, b)) == n.queue;
    assert forall x <- n.queue :: x in Pending(n);
  }

  lemma {:induction false} SumsRegroup(a: multiset<Load>, b: multiset<Load>, c: multiset<Load>)
    ensures (a + b) + c == a + (b + c)
  {
  }

  /** Over any run, what was waiting and what was accepted is what still waits and what was mined, however
      often the payments spend the same outputs. */
  lemma {:induction false} PaymentsConserved(c: Crypto, d: DoubleCodec, n: Node, actions: seq<Action>)
    requires QueueOk(n)
    ensures QueueOk(Run(c, d, n, actions)) && |n.chain| <= |Run(c, d, n, actions).chain|
    ensures Held(Run(c, d, n, actions), |n.chain|) == Loads(Pending(n)) + Submitted(c, d, n, actions)
  {
    if actions == [] {
      assert Submitted(c, d, n, actions) == multiset{};
      NothingMined(n);
    } else {
      hide *;
      RunUnfolds(c, d, n, actions);
      var k := |actions| - 1;
      var mid := Run(c, d, n, actions[..k]);
      PaymentsConserved(c, d, n, actions[..k]);
      QueueStep(c, d, mid, actions[k]);
      HeldStep(c, d, mid, actions[k], |n.chain|);
      SumsRegroup(Loads(Pending(n)), Submitted(c, d, n, actions[..k]), Accepted(c, mid, actions[k]));
    }
  }

  lemma {:induction false} RunUnfolds(c: Crypto, d: DoubleCodec, n: Node, actions: seq<Action>)
    requires actions != []
    ensures var k := |actions| - 1;
            var mid := Run(c, d, n, actions[..k]);
            && Run(c, d, n, actions) == Next(c, d, mid, actions[k])
            && Submitted(c, d, n, actions) == Submitted(c, d, n, actions[..k]) + Accepted(c, mid, actions[k])
  {
    hide Next, Accepted;
  }

  lemma {:induction false} NothingMined(n: Node)
    ensures Held(n, |n.chain|) == Loads(Pending(n))
  {
  }

  // ----- from a payment to the balances -----

  datatype Order = Order(sender: string, receiver: string, amount: Amount, tx: Transaction)

  ghost predicate Placeable(chain: seq<Block>, o: Order) {
    o.sender != "" && IsOutcome(chain, o.sender, o.receiver, o.amount, SUCCESS, o.tx)
  }

  function OrderTransactions(orders: seq<Order>): seq<Transaction> {
    seq(|orders|, i requires 0 <= i < |orders| => orders[i].tx)
  }

  function OrderEffect(o: Order, address: string): Amount {
    (if address == o.receiver then o.amount else 0.0) - (if address == o.sender then o.amount else 0.0)
  }

  /** What the first n orders mean for an address. */
  function OrdersEffect(orders: seq<Order>, address: string, n: nat): Amount
    requires n <= |orders|
  {
    if n == 0 then 0.0 else OrdersEffect(orders, address, n - 1) + OrderEffect(orders[n - 1], address)
  }

  lemma {:induction false} OrderIsTransfer(chain: seq<Block>, o: Order, tx: Transaction, address: string)
    requires IndexIsPosition(chain) && Placeable(chain, o) && address != ""
    requires tx.txIns == o.tx.txIns && tx.txOuts == o.tx.txOuts
    ensures Transfer(UnspentOf(chain, ""), tx) && InputKeys(tx) == InputKeys(o.tx)
    ensures Net(UnspentOf(chain, ""), tx, address) == OrderEffect(o, address)
  {
    OutcomeIsTransfer(chain, o.sender, o.receiver, o.amount, o.tx, address);
    SameTransfer(UnspentOf(chain, ""), o.tx, tx);
  }

  lemma {:induction false} OrderNet(c: Crypto, chain: seq<Block>, orders: seq<Order>, address: string, i: nat)
    requires IndexIsPosition(chain) && address != "" && i < |orders|
    requires forall o <- orders :: Placeable(chain, o)
    ensures |WithIds(c, OrderTransactions(orders), |chain|)| == |orders|
    ensures Net(UnspentOf(chain, ""), WithIds(c, OrderTransactions(orders), |chain|)[i], address)
         == OrderEffect(orders[i], address)
  {
    assert orders[i] in orders;
    OrderIsTransfer(chain, orders[i], WithIds(c, OrderTransactions(orders), |chain|)[i], address);
  }

  lemma {:induction false} OrdersNet(c: Crypto, chain: seq<Block>, orders: seq<Order>, address: string, n: nat)
    requires IndexIsPosition(chain) && address != "" && n <= |orders|
    requires forall o <- orders :: Placeable(chain, o)
    ensures |WithIds(c, OrderTransactions(orders), |chain|)| == |orders|
    ensures NetSum(UnspentOf(chain, ""), WithIds(c, OrderTransactions(orders), |chain|), address, n)
         == OrdersEffect(orders, address, n)
  {
    hide *;
    NothingOrdered(c, chain, orders, address);
    if n > 0 {
      OrdersNet(c, chain, orders, address, n - 1);
      OrderNet(c, chain, orders, address, n - 1);
      OneOrderMore(UnspentOf(chain, ""), WithIds(c, OrderTransactions(orders), |chain|), orders, address, n - 1);
    }
  }

  lemma {:induction false} NothingOrdered(c: Crypto, chain: seq<Block>, orders: seq<Order>, address: string)
    ensures |WithIds(c, OrderTransactions(orders), |chain|)| == |orders|
    ensures NetSum(UnspentOf(chain, ""), WithIds(c, OrderTransactions(orders), |chain|), address, 0) == 0.0
    ensures OrdersEffect(orders, address, 0) == 0.0
  {
  }

  lemma {:induction false} OneOrderMore(m: Outputs, txs: seq<Transaction>, orders: seq<Order>, address: string, n: nat)
    requires n < |txs| && n < |orders|
    ensures NetSum(m, txs, address, n + 1) == NetSum(m, txs, address, n) + Net(m, txs[n], address)
    ensures OrdersEffect(orders, address, n + 1) == OrdersEffect(orders, address, n) + OrderEffect(orders[n], address)
  {
  }

  lemma {:induction false} OrdersMintable(c: Crypto, chain: seq<Block>, orders: seq<Order>, wallet: string, b: Block)
    requires IndexIsPosition(chain)
    requires forall o <- orders :: Placeable(chain, o)
    requires PairwiseDisjoint(OrderTransactions(orders))
    requires b.index == |chain|
    requires b.transactions
          == [CreateCoinbaseTransaction(c, |chain|, wallet)] + WithIds(c, OrderTransactions(orders), |chain|)
    ensures Mintable(chain, b, wallet)
  {
    var rest := b.transactions[1..];
    assert rest == WithIds(c, OrderTransactions(orders), |chain|);
    forall i | 0 <= i < |rest|
      ensures Transfer(UnspentOf(chain, ""), rest[i]) && InputKeys(rest[i]) == InputKeys(orders[i].tx)
    {
      assert orders[i] in orders;
      OrderIsTransfer(chain, orders[i], rest[i], orders[i].sender);
    }
    forall i, j | 0 <= i < j < |rest| ensures InputKeys(rest[i]) !! InputKeys(rest[j]) {
      assert OrderTransactions(orders)[i] == orders[i].tx && OrderTransactions(orders)[j] == orders[j].tx;
    }
  }

  /** Payments made, queued, mined and appended: every balance moves by exactly what the payments say,
      and the miner's by the reward. */
  lemma {:induction false} PaymentsSettle(c: Crypto, chain: seq<Block>, orders: seq<Order>, wallet: string,
                                          b: Block, address: string)
    requires chain != [] && Accounted(chain) && address != ""
    requires forall o <- orders :: Placeable(chain, o)
    requires PairwiseDisjoint(OrderTransactions(orders))
    requires b.index == |chain|
    requires b.transactions
          == [CreateCoinbaseTransaction(c, |chain|, wallet)] + WithIds(c, OrderTransactions(orders), |chain|)
    ensures Accounted(chain + [b])
    ensures IndicesInRange(chain) && LedgerOf(chain, address).Some?
    ensures IndicesInRange(chain + [b]) && LedgerOf(chain + [b], address).Some?
    ensures LedgerSum(LedgerOf(chain + [b], address).value)
         == LedgerSum(LedgerOf(chain, address).value)
            + OrdersEffect(orders, address, |orders|)
            + if address == wallet then COINBASE_REWARD else 0.0
  {
    OrdersMintable(c, chain, orders, wallet, b);
    AppendEffect(chain, b, wallet, address);
    assert b.transactions[1..] == WithIds(c, OrderTransactions(orders), |chain|);
    OrdersNet(c, chain, orders, address, |orders|);
    BalancesAgree(chain, address);
    BalancesAgree(chain + [b], address);
  }
}
