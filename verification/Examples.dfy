/** Inputs on which the program does not do what one might expect. */
module Examples {
  import opened Wrappers
  import opened Transactions
  import opened Blocks
  import opened Chains
  import opened ChainFile
  import opened Unspent
  import opened UnspentLaws
  import opened Ledger
  import opened Agreement
  import opened DoubleSpends
  import opened Payments
  import opened Node
  import opened CatchUp
  import opened MinerApp

  // ----- what is missed in a list of transactions -----

  /** One more transaction that spends nothing of the address, or finds what it spends. */
  lemma {:induction false} MissedSnoc(chain: seq<Block>, events: seq<Placed>, e: Placed, address: string)
    requires EventsResolvable(chain, events + [e])
    ensures EventsResolvable(chain, events) && e.body.WellFormed() && InputsInRange(chain, e.body)
    ensures Missed(chain, events + [e], address)
         == Missed(chain, events, address)
            + MissedBy(chain, Created(e, "") + UnspentAfter(events, ""), e.body, address)
  {
    FrontResolvable(chain, events + [e]);
    assert (events + [e])[..|events|] == events;
  }

  function Reward(n: nat, wallet: string): Transaction {
    Transaction("", [PlainTxIn(OutPoint(n, 0, 0), "")], [TxOut(wallet, COINBASE_REWARD)])
  }

  function Pay(k: OutPoint, outs: seq<TxOut>): Transaction {
    Transaction("", [PlainTxIn(k, "signature")], outs)
  }

  function Holding(index: nat, txs: seq<Transaction>): Block {
    Block(index, 0, 1, "", 0, "", txs, "", "")
  }

  /** A transaction in which the address spends nothing. */
  lemma {:induction false} NoDebit(chain: seq<Block>, events: seq<Placed>, e: Placed, address: string)
    requires EventsResolvable(chain, events + [e])
    requires (assert (events + [e])[|events|] in events + [e]; !Debits(chain, e.body, address))
    ensures EventsResolvable(chain, events)
    ensures Missed(chain, events + [e], address) == Missed(chain, events, address)
  {
    MissedSnoc(chain, events, e, address);
  }

  /** The first input of a payment: what is missed by it. */
  lemma {:induction false} MissedByOne(chain: seq<Block>, m: Outputs, k: OutPoint, outs: seq<TxOut>, address: string)
    requires outs != [] && InRange(chain, k) && Lookup(chain, k).address == address
    ensures var tx := Pay(k, outs);
            && tx.WellFormed() && InputsInRange(chain, tx) && Debits(chain, tx, address)
            && MissedBy(chain, m, tx, address) == if k in m then 0.0 else Lookup(chain, k).amount
  {
    var tx := Pay(k, outs);
    assert tx.txIns[0].txOutPt.Key() == k && InputKeysFirst(tx, 0) == {};
    assert MissedFirst(chain, m, tx, 1)
        == MissedFirst(chain, m, tx, 0) + if Found(m, tx, 0) then 0.0 else Lookup(chain, k).amount;
    assert Found(m, tx, 0) <==> k in m;
  }

  lemma {:induction false} PaySpends(k: OutPoint, outs: seq<TxOut>)
    ensures Spent(Pay(k, outs)) == {k}
  {
    var tx := Pay(k, outs);
    assert tx.txIns[0].txOutPt.Key() == k;
    assert tx.txIns[0].signature[0] == 's';
  }

  lemma {:induction false} CreatedHere(e: Placed, k: OutPoint)
    requires (k.blockIndex, k.txIndex) != (e.block, e.tx)
    ensures k !in Created(e, "")
  {
  }

  lemma {:induction false} GoneOnceSpent(events: seq<Placed>, e: Placed, k: OutPoint)
    requires k in Spent(e.body)
    ensures k !in UnspentAfter(events + [e], "")
  {
    UnspentSnoc(events, e, "");
  }

  /** The same unspent output is paid out twice: the second time it is missed. */
  lemma {:induction false} PaidTwiceMisses(chain: seq<Block>, events: seq<Placed>, one: Placed, two: Placed,
                                           k: OutPoint, outs: seq<TxOut>)
    requires EventsResolvable(chain, events + [one] + [two])
    requires one.body == two.body == Pay(k, outs) && outs != []
    requires InRange(chain, k) && k in UnspentAfter(events, "")
    requires (k.blockIndex, k.txIndex) != (one.block, one.tx) && (k.blockIndex, k.txIndex) != (two.block, two.tx)
    ensures EventsResolvable(chain, events)
    ensures var owed := Lookup(chain, k);
            Missed(chain, events + [one] + [two], owed.address) == Missed(chain, events, owed.address) + owed.amount
  {
    var address := Lookup(chain, k).address;
    MissedSnoc(chain, events + [one], two, address);
    MissedSnoc(chain, events, one, address);
    PaySpends(k, outs);
    GoneOnceSpent(events, one, k);
    CreatedHere(one, k);
    CreatedHere(two, k);
    MissedByOne(chain, Created(one, "") + UnspentAfter(events, ""), k, outs, address);
    MissedByOne(chain, Created(two, "") + UnspentAfter(events + [one], ""), k, outs, address);
  }

  // ----- a double spend -----

  /** All of the first reward, from its owner to somebody else. */
  const SPEND := Pay(OutPoint(0, 0, 0), [TxOut("B", COINBASE_REWARD)])

  const SPENT_TWICE := [Holding(0, [Reward(0, "A")]), Holding(1, [Reward(1, "M"), SPEND, SPEND])]

  /** Both rewards, and then the two payments. */
  const REWARDS := [Placed(0, 0, 0, Reward(0, "A")), Placed(1, 0, 0, Reward(1, "M"))]
  const ONCE := REWARDS + [Placed(1, 1, 0, SPEND)]
  const TWICE := ONCE + [Placed(1, 2, 0, SPEND)]

  lemma {:induction false} TwiceIsFlat()
    ensures Flatten(SPENT_TWICE) == TWICE
  {
    assert SPENT_TWICE[..1] == [SPENT_TWICE[0]] && [SPENT_TWICE[0]][..0] == [];
    assert Flatten([]) == [] && Flatten([SPENT_TWICE[0]]) == PlaceFirst(SPENT_TWICE[0], 1);
  }

  lemma {:induction false} SpentTwiceInRange()
    ensures forall b <- SPENT_TWICE, tx <- b.transactions :: tx.WellFormed() && InputsInRange(SPENT_TWICE, tx)
  {
  }

  lemma {:induction false} SpentTwiceResolves()
    ensures IndexIsPosition(SPENT_TWICE) && IndicesInRange(SPENT_TWICE) && ChainResolvable(SPENT_TWICE)
    ensures forall b <- SPENT_TWICE, tx <- b.transactions ::
              tx.WellFormed() && InputsInRange(SPENT_TWICE, tx) && Ordinary(SPENT_TWICE, tx)
  {
    SpentTwiceInRange();
    hide InputsInRange, Lookup;
  }

  /** An address that the first transaction pays spends only after being paid. */
  lemma {:induction false} PaidFromStart(chain: seq<Block>, events: seq<Placed>, address: string, n: nat)
    requires n < |events| && EventsResolvable(chain, events) && FirstPaid(events[n].body, address, 0).Some?
    requires forall i :: 0 <= i < n ==> (assert events[i] in events; !Debits(chain, events[i].body, address))
    ensures LedgerAfter(chain, events, address).Some?
  {
    forall i {:trigger events[i]} | n <= i < |events| ensures PaidIn(events, address, i + 1) {
      assert FirstPaid(events[n].body, address, 0).Some?;
    }
    LedgerExists(chain, events, address);
  }

  lemma {:induction false} RewardsUnspent()
    ensures OutPoint(0, 0, 0) in UnspentAfter(REWARDS, "")
  {
    var first := [REWARDS[0]];
    assert REWARDS == first + [REWARDS[1]] && first == [] + [REWARDS[0]];
    UnspentSnoc([], REWARDS[0], "");
    UnspentSnoc(first, REWARDS[1], "");
    assert Spent(Reward(0, "A")) == {} && Spent(Reward(1, "M")) == {};
    assert OutPoint(0, 0, 0) in Created(REWARDS[0], "");
  }

  lemma {:induction false} RewardsMissNothing(chain: seq<Block>)
    requires EventsResolvable(chain, REWARDS)
    ensures Missed(chain, REWARDS, "A") == 0.0
  {
    var first := [REWARDS[0]];
    assert REWARDS == first + [REWARDS[1]] && first == [] + [REWARDS[0]];
    MissedSnoc(chain, first, REWARDS[1], "A");
    MissedSnoc(chain, [], REWARDS[0], "A");
  }

  lemma {:induction false} TwiceMisses()
    requires EventsResolvable(SPENT_TWICE, TWICE)
    ensures Missed(SPENT_TWICE, TWICE, "A") == COINBASE_REWARD
  {
    var k := OutPoint(0, 0, 0);
    RewardsUnspent();
    PaidTwiceMisses(SPENT_TWICE, REWARDS, Placed(1, 1, 0, SPEND), Placed(1, 2, 0, SPEND), k, SPEND.txOuts);
    RewardsMissNothing(SPENT_TWICE);
  }

  /** The same output is spent twice in one block: the owner's ledger says less than the unspent outputs. */
  lemma {:induction false} DoubleSpendExample()
    ensures IndicesInRange(SPENT_TWICE) && ChainResolvable(SPENT_TWICE) && LedgerOf(SPENT_TWICE, "A").Some?
    ensures LedgerSum(LedgerOf(SPENT_TWICE, "A").value)
         == Value(UnspentOf(SPENT_TWICE, "A"), "") - COINBASE_REWARD
  {
    SpentTwiceResolves();
    TwiceIsFlat();
    LookedUpIsChain(SPENT_TWICE);
    LookedUpResolvable(SPENT_TWICE, 2);
    PaidFromStart(SPENT_TWICE, TWICE, "A", 0);
    BalancesAgreeIff(SPENT_TWICE, "A");
    TwiceMisses();
  }

  // ----- negative amounts -----

  /** A pays B minus five. */
  const DEBT := Pay(OutPoint(0, 0, 0), [TxOut("B", -5.0), TxOut("A", 62.0)])

  /** B pays C minus ten, with the minus five it has. */
  const PASSED_ON := Pay(OutPoint(1, 1, 0), [TxOut("C", -10.0), TxOut("B", 5.0)])

  const ZEROTH := Holding(0, [Reward(0, "A")])
  const INDEBTED := Holding(1, [Reward(1, "M"), DEBT])
  const DEBT_TWICE := [ZEROTH, INDEBTED, Holding(2, [Reward(2, "M"), PASSED_ON, PASSED_ON])]

  const FIRST_REWARD := [Placed(0, 0, 0, Reward(0, "A"))]
  const TWO_REWARDS := FIRST_REWARD + [Placed(1, 0, 0, Reward(1, "M"))]
  const OWING := TWO_REWARDS + [Placed(1, 1, 0, DEBT)]
  const MINED_ON := OWING + [Placed(2, 0, 0, Reward(2, "M"))]
  const ONE_DEBT := MINED_ON + [Placed(2, 1, 0, PASSED_ON)]
  const TWO_DEBTS := ONE_DEBT + [Placed(2, 2, 0, PASSED_ON)]

  lemma {:induction false} FlatSnoc(chain: seq<Block>, b: Block)
    ensures Flatten(chain + [b]) == Flatten(chain) + PlaceFirst(b, |b.transactions|)
  {
    assert (chain + [b])[..|chain|] == chain;
  }

  lemma {:induction false} DebtsAreFlat()
    ensures Flatten([ZEROTH]) == FIRST_REWARD && Flatten([ZEROTH, INDEBTED]) == OWING
    ensures Flatten(DEBT_TWICE) == TWO_DEBTS
  {
    assert [] + [ZEROTH] == [ZEROTH] && [ZEROTH] + [INDEBTED] == [ZEROTH, INDEBTED];
    assert [ZEROTH, INDEBTED] + [DEBT_TWICE[2]] == DEBT_TWICE;
    FlatSnoc([], ZEROTH);
    FlatSnoc([ZEROTH], INDEBTED);
    FlatSnoc([ZEROTH, INDEBTED], DEBT_TWICE[2]);
  }

  /** What one transaction of an example leaves. */
  lemma {:induction false} RewardLeaves(events: seq<Placed>, e: Placed, wallet: string, address: string)
    requires e.body == Reward(e.block, wallet) && address != "" && wallet != address
    ensures UnspentAfter(events + [e], address) == UnspentAfter(events, address)
  {
    UnspentSnoc(events, e, address);
    assert Created(e, address) == map[] && Spent(e.body) == {};
  }

  /** The first output of the address that is created and not spent at once. */
  lemma {:induction false} FirstLeaves(events: seq<Placed>, e: Placed, address: string, k: OutPoint, o: TxOut)
    requires UnspentAfter(events, address) == map[] && Created(e, address) == map[k := o] && k !in Spent(e.body)
    ensures UnspentAfter(events + [e], address) == map[k := o]
  {
    hide Created, Spent;
    UnspentSnoc(events, e, address);
  }

  /** Of two payees, the address is one. */
  lemma {:induction false} CreatedIsFirst(e: Placed)
    requires e.body.txOuts != [] && e.body.txOuts[0].address != ""
    requires forall i :: 1 <= i < |e.body.txOuts| ==> e.body.txOuts[i].address != e.body.txOuts[0].address
    ensures Created(e, e.body.txOuts[0].address) == map[OutPoint(e.block, e.tx, 0) := e.body.txOuts[0]]
  {
  }

  lemma {:induction false} RewardSpendsNothing(n: nat, wallet: string)
    ensures Spent(Reward(n, wallet)) == {}
  {
  }

  lemma {:induction false} RewardUnspent()
    ensures UnspentAfter(FIRST_REWARD, "A") == map[OutPoint(0, 0, 0) := TxOut("A", COINBASE_REWARD)]
  {
    var e := Placed(0, 0, 0, Reward(0, "A"));
    CreatedIsFirst(e);
    RewardSpendsNothing(0, "A");
    hide Created, Spent;
    FirstLeaves([], e, "A", OutPoint(0, 0, 0), TxOut("A", COINBASE_REWARD));
    assert FIRST_REWARD == [] + [e];
  }

  lemma {:induction false} NothingForB()
    ensures UnspentAfter(TWO_REWARDS, "B") == map[]
  {
    assert FIRST_REWARD == [] + [FIRST_REWARD[0]];
    RewardLeaves([], Placed(0, 0, 0, Reward(0, "A")), "A", "B");
    RewardLeaves(FIRST_REWARD, Placed(1, 0, 0, Reward(1, "M")), "M", "B");
  }

  lemma {:induction false} DebtIsUnspent()
    ensures UnspentAfter(OWING, "B") == map[OutPoint(1, 1, 0) := TxOut("B", -5.0)]
  {
    var e := Placed(1, 1, 0, DEBT);
    CreatedIsFirst(e);
    PaySpends(OutPoint(0, 0, 0), DEBT.txOuts);
    NothingForB();
    hide Created, Spent, UnspentAfter;
    FirstLeaves(TWO_REWARDS, e, "B", OutPoint(1, 1, 0), TxOut("B", -5.0));
  }

  /** With one unspent output a payment comes out in one way. */
  lemma {:induction false} OnlyPayment(chain: seq<Block>, k: OutPoint, o: TxOut, receiver: string, amount: Amount)
    requires UnspentOf(chain, o.address) == map[k := o] && !IEquals(receiver, o.address) && o.amount > amount
    ensures IsOutcome(chain, o.address, receiver, amount, SUCCESS,
                      Pay(k, [TxOut(receiver, amount), TxOut(o.address, o.amount - amount)]))
  {
    var list := [Resolved(k, o)];
    assert list[0].Key() == k;
    assert Enumerates(list, UnspentOf(chain, o.address)) && Priced(list);
    assert list[..1] == list && list[..0] == [];
    assert ListValue(list) == o.amount;
    assert Taken(list, amount, 1) == 1 && Taken(list, amount, 0) == 1;
    var tx := Pay(k, [TxOut(receiver, amount), TxOut(o.address, o.amount - amount)]);
    assert Inputs(list) == tx.txIns;
    assert [TxOut(receiver, amount)] + Change(o.amount - amount, o.address) == tx.txOuts;
    assert Payment(list, o.address, receiver, amount) == (SUCCESS, tx);
  }

  lemma {:induction false} DebtsAreOutcomes()
    ensures IsOutcome([ZEROTH], "A", "B", -5.0, SUCCESS, DEBT)
    ensures IsOutcome([ZEROTH, INDEBTED], "B", "C", -10.0, SUCCESS, PASSED_ON)
  {
    DebtsAreFlat();
    RewardUnspent();
    DebtIsUnspent();
    OnlyPayment([ZEROTH], OutPoint(0, 0, 0), TxOut("A", COINBASE_REWARD), "B", -5.0);
    OnlyPayment([ZEROTH, INDEBTED], OutPoint(1, 1, 0), TxOut("B", -5.0), "C", -10.0);
  }

  lemma {:induction false} DebtsInRange()
    ensures forall b <- DEBT_TWICE, tx <- b.transactions :: tx.WellFormed() && InputsInRange(DEBT_TWICE, tx)
  {
  }

  lemma {:induction false} DebtsResolve()
    ensures IndexIsPosition(DEBT_TWICE) && IndicesInRange(DEBT_TWICE) && ChainResolvable(DEBT_TWICE)
    ensures forall b <- DEBT_TWICE, tx <- b.transactions ::
              tx.WellFormed() && InputsInRange(DEBT_TWICE, tx) && Ordinary(DEBT_TWICE, tx)
  {
    DebtsInRange();
    hide InputsInRange, Lookup;
  }

  lemma {:induction false} DebtUnspent()
    ensures OutPoint(1, 1, 0) in UnspentAfter(MINED_ON, "")
  {
    var k := OutPoint(1, 1, 0);
    PaySpends(OutPoint(0, 0, 0), DEBT.txOuts);
    RewardSpendsNothing(2, "M");
    assert k in Created(Placed(1, 1, 0, DEBT), "");
    UnspentSnoc(TWO_REWARDS, Placed(1, 1, 0, DEBT), "");
    hide Created, Spent, UnspentAfter;
    UnspentSnoc(OWING, Placed(2, 0, 0, Reward(2, "M")), "");
  }

  lemma {:induction false} NoDebitsBefore()
    requires EventsResolvable(DEBT_TWICE, TWO_REWARDS)
    ensures Missed(DEBT_TWICE, TWO_REWARDS, "B") == 0.0
  {
    NoDebit(DEBT_TWICE, FIRST_REWARD, Placed(1, 0, 0, Reward(1, "M")), "B");
    assert FIRST_REWARD == [] + [FIRST_REWARD[0]];
    NoDebit(DEBT_TWICE, [], FIRST_REWARD[0], "B");
  }

  lemma {:induction false} DebtorPaysNot(events: seq<Placed>)
    requires EventsResolvable(DEBT_TWICE, events + [Placed(1, 1, 0, DEBT)])
    ensures EventsResolvable(DEBT_TWICE, events)
    ensures Missed(DEBT_TWICE, events + [Placed(1, 1, 0, DEBT)], "B") == Missed(DEBT_TWICE, events, "B")
  {
    assert DEBT.txIns[0].txOutPt.Key() == OutPoint(0, 0, 0);
    assert Lookup(DEBT_TWICE, OutPoint(0, 0, 0)) == TxOut("A", COINBASE_REWARD);
    NoDebit(DEBT_TWICE, events, Placed(1, 1, 0, DEBT), "B");
  }

  lemma {:induction false} EarlierMissNothing()
    requires EventsResolvable(DEBT_TWICE, MINED_ON)
    ensures Missed(DEBT_TWICE, MINED_ON, "B") == 0.0
  {
    NoDebit(DEBT_TWICE, OWING, Placed(2, 0, 0, Reward(2, "M")), "B");
    hide Missed, EventsResolvable;
    DebtorPaysNot(TWO_REWARDS);
    NoDebitsBefore();
  }

  lemma {:induction false} DebtsMiss()
    requires EventsResolvable(DEBT_TWICE, TWO_DEBTS)
    ensures Missed(DEBT_TWICE, TWO_DEBTS, "B") == -5.0
  {
    var k := OutPoint(1, 1, 0);
    DebtUnspent();
    assert InRange(DEBT_TWICE, k) && Lookup(DEBT_TWICE, k) == TxOut("B", -5.0);
    hide Missed, EventsResolvable, UnspentAfter;
    PaidTwiceMisses(DEBT_TWICE, MINED_ON, Placed(2, 1, 0, PASSED_ON), Placed(2, 2, 0, PASSED_ON), k, PASSED_ON.txOuts);
    EarlierMissNothing();
  }

  lemma {:induction false} DebtorWasPaid()
    requires EventsResolvable(DEBT_TWICE, TWO_DEBTS)
    ensures LedgerAfter(DEBT_TWICE, TWO_DEBTS, "B").Some?
  {
    PaidFromStart(DEBT_TWICE, TWO_DEBTS, "B", 2);
  }

  /** The program takes any amount. A debt that is passed on twice makes the ledger say more than the unspent
      outputs. */
  lemma {:induction false} NegativeExample()
    ensures IndicesInRange(DEBT_TWICE) && ChainResolvable(DEBT_TWICE) && LedgerOf(DEBT_TWICE, "B").Some?
    ensures LedgerSum(LedgerOf(DEBT_TWICE, "B").value) == Value(UnspentOf(DEBT_TWICE, "B"), "") + 5.0
  {
    DebtsResolve();
    DebtsAreFlat();
    LookedUpIsChain(DEBT_TWICE);
    LookedUpResolvable(DEBT_TWICE, 3);
    DebtorWasPaid();
    hide Flatten, Ordinary, InputsInRange, LedgerAfter, Missed, Value;
    BalancesAgreeIff(DEBT_TWICE, "B");
    DebtsMiss();
  }

  /** With a negative output, the order in which outputs are listed decides whether a payment goes through. */
  lemma {:induction false} OrderMatters(sender: string, receiver: string, k: OutPoint, l: OutPoint)
    requires !IEquals(receiver, sender) && k != l
    ensures var m := map[k := TxOut(sender, 10.0), l := TxOut(sender, -8.0)];
            var up, down := [Resolved(k, m[k]), Resolved(l, m[l])], [Resolved(l, m[l]), Resolved(k, m[k])];
            && Enumerates(up, m) && Enumerates(down, m) && Priced(up) && Priced(down)
            && Payment(up, sender, receiver, 5.0).0 == SUCCESS
            && Payment(down, sender, receiver, 5.0).0 == INSUFFICIENT_FUNDS
  {
    var m := map[k := TxOut(sender, 10.0), l := TxOut(sender, -8.0)];
    var up, down := [Resolved(k, m[k]), Resolved(l, m[l])], [Resolved(l, m[l]), Resolved(k, m[k])];
    assert up[0].Key() == k && up[1].Key() == l && down[0].Key() == l && down[1].Key() == k;
    ValuesInOrder(up[0], up[1]);
    ValuesInOrder(down[0], down[1]);
    PaymentResult(up, sender, receiver, 5.0);
    PaymentResult(down, sender, receiver, 5.0);
  }

  lemma {:induction false} ValuesInOrder(a: TxOutPoint, b: TxOutPoint)
    requires a.amount.Some? && b.amount.Some?
    ensures ListValue([a, b][..1]) == a.amount.value && ListValue([a, b][..2]) == a.amount.value + b.amount.value
  {
    assert [a, b][..1] == [a] && [a][..0] == [] && [a, b][..2] == [a, b];
  }

  // ----- chains -----

  /** Digests of 64 characters that begin with 63 zeros. The last tells whether the length is even. */
  function Parity(s: string): string {
    seq(HASH_LENGTH, i => if i + 1 == HASH_LENGTH && |s| % 2 == 1 then '1' else '0')
  }

  const CODE := Crypto(Parity, _ => "", _ => "")

  function Hashed(index: nat, difficulty: nat, data: string, previous: string): Block {
    var b := Block(index, 0, difficulty, data, 0, previous, [], "", "");
    b.(hash := CalculateBlockHash(CODE, b))
  }

  lemma {:induction false} HashedIsValid(index: nat, difficulty: nat, data: string, previous: string)
    requires difficulty < HASH_LENGTH
    ensures var b := Hashed(index, difficulty, data, previous);
            ValidHash(CODE, b) && |b.hash| == HASH_LENGTH && CalculateBlockHash(CODE, b) == b.hash
  {
  }

  const GENESIS := Hashed(0, 1, "", "")

  /** Two blocks on the first one: one with difficulty zero, one with difficulty one. */
  const EASY := Hashed(1, 0, "", GENESIS.hash)
  const HARD := Hashed(1, 1, "x", GENESIS.hash)

  const MINE := [GENESIS, EASY, Hashed(2, 0, "", EASY.hash)]
  const THEIRS := [GENESIS, HARD, Hashed(2, 0, "", HARD.hash)]

  lemma {:induction false} ChainsAreGood()
    ensures HexDigests(CODE) && GoodChain(CODE, MINE) && GoodChain(CODE, THEIRS)
    ensures |GENESIS.hash| == HASH_LENGTH
  {
    HashedIsValid(0, 1, "", "");
    HashedIsValid(1, 0, "", GENESIS.hash);
    HashedIsValid(1, 1, "x", GENESIS.hash);
    HashedIsValid(2, 0, "", EASY.hash);
    HashedIsValid(2, 0, "", HARD.hash);
  }

  lemma {:induction false} TheirsIsMoreWork()
    ensures Work(MINE) == 3 && Work(THEIRS) == 4
  {
    assert Pow2(0) == 1 && Pow2(1) == 2;
    assert TotalWork(MINE, 1) == 2 && TotalWork(THEIRS, 1) == 2;
    assert TotalWork(MINE, 2) == 3 && TotalWork(THEIRS, 2) == 4;
  }

  /** The peer's chain has more work and is not longer: the node hears of it and stays behind. */
  lemma {:induction false} StaysBehindExample(d: DoubleCodec, queue: seq<Transaction>, disk: Option<Bytes>)
    ensures var n := Node(MINE, None, queue, None, disk);
            && HearsOf(CODE, n, THEIRS) && Work(n.chain) < Work(THEIRS)
            && AfterCatchUp(CODE, d, n, THEIRS, Range(|MINE|, |THEIRS| - 1)) == Some(n)
  {
    ChainsAreGood();
    TheirsIsMoreWork();
    ShorterIsNoHelp(CODE, d, Node(MINE, None, queue, None, disk), THEIRS);
  }

  // ----- a late write -----

  /** The block that is mined, and two updates: one in its place, and one that follows on it. */
  const INSTEAD := [HARD]
  const AFTERWARDS := [Hashed(2, 0, "", EASY.hash)]

  /** Either update, taken over between appending and writing, leaves a file that differs from the memory. */
  lemma {:induction false} LateWriteExample(d: DoubleCodec, update: seq<Block>)
    requires update == INSTEAD || update == AFTERWARDS
    ensures var n := Node([GENESIS], Some(update), [], None, Some(EncodeChain(d, [GENESIS])));
            && DiskAgrees(d, n) && Accepts(CODE, n.chain, EASY) && CanSync(Appended(n, EASY))
            && !DiskAgrees(d, Written(d, Sync(CODE, d, Appended(n, EASY)), EASY))
  {
    var n := Node([GENESIS], Some(update), [], None, Some(EncodeChain(d, [GENESIS])));
    HashedIsValid(1, 0, "", GENESIS.hash);
    assert Last([GENESIS, EASY]) == EASY && n.chain + [EASY] == [GENESIS, EASY];
    if update == AFTERWARDS {
      HashedIsValid(2, 0, "", EASY.hash);
      AfterIsAdded();
    }
    LateWrite(CODE, d, n, EASY, true);
  }

  lemma {:induction false} AfterIsAdded()
    ensures Added(CODE, [GENESIS, EASY], AFTERWARDS) == AFTERWARDS
  {
    HashedIsValid(2, 0, "", EASY.hash);
    assert AFTERWARDS[..0] == [];
    assert AddedBy(HashCheck(CODE), [GENESIS, EASY], []) == [];
    assert [GENESIS, EASY] + [] == [GENESIS, EASY];
  }

  // ----- the data of a mined block -----

  lemma {:induction false} DataExample(n: Node)
    requires |n.chain| == 12
    ensures MinedData(n) == "coinbase block #12"
  {
    assert Digits(12) == "12";
  }
}
