/** The outputs a chain leaves unspent. */
module Unspent {
  import opened Wrappers
  import opened Transactions
  import opened Blocks

  /** A transaction together with the place it has in the chain. */
  datatype Placed = Placed(block: nat, tx: nat, time: int, body: Transaction)

  type Outputs = map<OutPoint, TxOut>

  /** The first n transactions of a block. */
  function PlaceFirst(b: Block, n: nat): seq<Placed>
    requires n <= |b.transactions|
  {
    seq(n, i requires 0 <= i < n => Placed(b.index, i, b.time, b.transactions[i]))
  }

  /** The transactions of a chain in block and transaction order. */
  function Flatten(chain: seq<Block>): seq<Placed> {
    if chain == [] then []
    else
      var b := chain[|chain| - 1];
      Flatten(chain[..|chain| - 1]) + PlaceFirst(b, |b.transactions|)
  }

  /** The empty address stands for every address. */
  predicate Matches(address: string, out: TxOut) {
    address == "" || out.address == address
  }

  /** What the first n outputs of a transaction add. */
  function CreatedFirst(e: Placed, address: string, n: nat): (r: Outputs)
    requires n <= |e.body.txOuts|
    ensures forall k :: k in r <==>
              (k.blockIndex, k.txIndex) == (e.block, e.tx) && k.txOutIndex < n
              && Matches(address, e.body.txOuts[k.txOutIndex])
    ensures forall k <- r :: r[k] == e.body.txOuts[k.txOutIndex]
  {
    if n == 0 then map[]
    else
      var before, out := CreatedFirst(e, address, n - 1), e.body.txOuts[n - 1];
      if Matches(address, out) then before[OutPoint(e.block, e.tx, n - 1) := out] else before
  }

  function Created(e: Placed, address: string): Outputs {
    CreatedFirst(e, address, |e.body.txOuts|)
  }

  function InputKeysFirst(tx: Transaction, n: nat): set<OutPoint>
    requires n <= |tx.txIns|
  {
    set i | 0 <= i < n :: tx.txIns[i].txOutPt.Key()
  }

  function Spent(tx: Transaction): set<OutPoint> {
    if tx.IsCoinbase() then {} else InputKeysFirst(tx, |tx.txIns|)
  }

  /** One transaction: outputs not yet present go in, then the outputs it refers to come out. */
  function Step(outs: Outputs, e: Placed, address: string): Outputs {
    (Created(e, address) + outs) - Spent(e.body)
  }

  function UnspentAfter(events: seq<Placed>, address: string): Outputs {
    if events == [] then map[]
    else Step(UnspentAfter(events[..|events| - 1], address), events[|events| - 1], address)
  }

  function UnspentOf(chain: seq<Block>, address: string): Outputs {
    UnspentAfter(Flatten(chain), address)
  }

  lemma {:induction false} UnspentSnoc(events: seq<Placed>, e: Placed, address: string)
    ensures UnspentAfter(events + [e], address) == Step(UnspentAfter(events, address), e, address)
  {
    assert (events + [e])[..|events|] == events;
  }

  /** An unspent output as the program hands it out. */
  function Resolved(k: OutPoint, o: TxOut): TxOutPoint {
    TxOutPoint(k.blockIndex, k.txIndex, k.txOutIndex, Some(o.address), Some(o.amount))
  }

  /** The list names each entry of the map once, in some order. */
  ghost predicate Enumerates(list: seq<TxOutPoint>, m: Outputs) {
    && (forall i :: 0 <= i < |list| ==> list[i].Key() in m && list[i] == Resolved(list[i].Key(), m[list[i].Key()]))
    && (forall i, j :: 0 <= i < j < |list| ==> list[i].Key() != list[j].Key())
    && (forall k :: k in m ==> exists i :: 0 <= i < |list| && list[i].Key() == k)
  }

  predicate TransactionsWellFormed(chain: seq<Block>) {
    forall b <- chain :: forall tx <- b.transactions :: tx.WellFormed()
  }

  /** One more output. */
  lemma {:induction false} CreatedSnoc(e: Placed, address: string, n: nat)
    requires n < |e.body.txOuts|
    ensures CreatedFirst(e, address, n + 1)
         == if Matches(address, e.body.txOuts[n])
            then CreatedFirst(e, address, n)[OutPoint(e.block, e.tx, n) := e.body.txOuts[n]]
            else CreatedFirst(e, address, n)
    ensures OutPoint(e.block, e.tx, n) !in CreatedFirst(e, address, n)
  {
  }

  /** Inserting leaves an entry that is already there as it is. */
  lemma {:induction false} InsertKeeps(c: Outputs, outs: Outputs, k: OutPoint, o: TxOut)
    requires k !in c
    ensures c[k := o] + outs == if k in c + outs then c + outs else (c + outs)[k := o]
  {
  }

  /** The loop over the outputs of a transaction. */
  method InsertOutputs(outs: Outputs, e: Placed, address: string) returns (r: Outputs)
    ensures r == Created(e, address) + outs
  {
    r := outs;
    for o := 0 to |e.body.txOuts|
      invariant r == CreatedFirst(e, address, o) + outs
    {
      var txout := e.body.txOuts[o];
      var key := OutPoint(e.block, e.tx, o);
      CreatedSnoc(e, address, o);
      InsertKeeps(CreatedFirst(e, address, o), outs, key, txout);
      if !(|address| > 0 && txout.address != address) {
        if key !in r {
          r := r[key := txout];
        }
      }
    }
  }

  /** The loop over the inputs: each is searched for and, when found, erased. */
  method EraseInputs(outs: Outputs, tx: Transaction) returns (r: Outputs)
    requires tx.WellFormed()
    ensures r == outs - Spent(tx)
  {
    r := outs;
    if tx.IsCoinbase() {
      return;
    }
    for i := 0 to |tx.txIns|
      invariant r == outs - InputKeysFirst(tx, i)
    {
      var key := tx.txIns[i].txOutPt.Key();
      assert InputKeysFirst(tx, i + 1) == InputKeysFirst(tx, i) + {key};
      if key in r {
        r := r - {key};
      }
    }
  }

  /** The nested loops over blocks and transactions. The set is ordered by a hash of the outpoint, so
      the order of the result is left open. */
  method GetUnspentTxOuts(chain: seq<Block>, address: string) returns (list: seq<TxOutPoint>)
    requires TransactionsWellFormed(chain)
    ensures Enumerates(list, UnspentOf(chain, address))
  {
    hide Created, Spent, Enumerates;
    var outs: Outputs := map[];
    for b := 0 to |chain|
      invariant outs == UnspentOf(chain[..b], address)
    {
      var block := chain[b];
      ghost var before := Flatten(chain[..b]);
      assert before + PlaceFirst(block, 0) == before;
      for t := 0 to |block.transactions|
        invariant outs == UnspentAfter(before + PlaceFirst(block, t), address)
      {
        var e := Placed(block.index, t, block.time, block.transactions[t]);
        outs := InsertOutputs(outs, e, address);
        outs := EraseInputs(outs, e.body);
        UnspentSnoc(before + PlaceFirst(block, t), e, address);
        assert before + PlaceFirst(block, t + 1) == before + PlaceFirst(block, t) + [e];
      }
      assert chain[..b + 1][..b] == chain[..b];
    }
    assert chain[..|chain|] == chain;
    list := ListOutputs(outs);
  }

  /** One more entry at the end of the list. */
  lemma {:induction false} EnumeratesSnoc(list: seq<TxOutPoint>, m: Outputs, k: OutPoint, o: TxOut)
    requires Enumerates(list, m) && k !in m
    ensures Enumerates(list + [Resolved(k, o)], m[k := o])
  {
    var longer := list + [Resolved(k, o)];
    assert longer[|list|].Key() == k;
    forall j | j in m ensures exists i :: 0 <= i < |longer| && longer[i].Key() == j {
      var i :| 0 <= i < |list| && list[i].Key() == j;
      assert longer[i] == list[i];
    }
  }

  /** Moves the entries of the set into a list. */
  method ListOutputs(outs: Outputs) returns (list: seq<TxOutPoint>)
    ensures Enumerates(list, outs)
  {
    list := [];
    var rest := outs;
    while rest != map[]
      invariant rest.Keys <= outs.Keys && forall k <- rest :: rest[k] == outs[k]
      invariant Enumerates(list, outs - rest.Keys)
      decreases |rest|
    {
      var k :| k in rest;
      EnumeratesSnoc(list, outs - rest.Keys, k, rest[k]);
      assert outs - (rest - {k}).Keys == (outs - rest.Keys)[k := rest[k]];
      list := list + [Resolved(k, rest[k])];
      rest := rest - {k};
    }
    assert outs - rest.Keys == outs;
  }
}
