/** What the unspent set means, and what it is worth. */
module UnspentLaws {
  import opened Wrappers
  import opened Transactions
  import opened Blocks
  import opened Unspent

  // ----- meaning -----

  /** Transaction i created the output, and no transaction from i on refers to it. */
  ghost predicate CreatedAndKept(events: seq<Placed>, address: string, k: OutPoint, i: nat) {
    && i < |events|
    && k in Created(events[i], address)
    && forall j :: i <= j < |events| ==> k !in Spent(events[j].body)
  }

  /** Being created and kept, one transaction later. */
  lemma {:induction false} KeptSnoc(events: seq<Placed>, e: Placed, address: string, k: OutPoint, i: nat)
    ensures i < |events| ==>
              (CreatedAndKept(events + [e], address, k, i) <==>
               CreatedAndKept(events, address, k, i) && k !in Spent(e.body))
    ensures CreatedAndKept(events + [e], address, k, |events|) <==> k in Created(e, address) && k !in Spent(e.body)
  {
    var all := events + [e];
    assert all[|events|] == e;
    if i < |events| {
      assert forall j :: i <= j < |events| ==> all[j] == events[j];
    }
  }

  /** An output is unspent iff a transaction created it and neither that one nor a later one refers to it. */
  lemma {:induction false} UnspentMeaning(events: seq<Placed>, address: string, k: OutPoint)
    ensures k in UnspentAfter(events, address) <==> exists i: nat :: CreatedAndKept(events, address, k, i)
  {
    if events != [] {
      var n := |events| - 1;
      var front, e := events[..n], events[n];
      assert events == front + [e];
      UnspentMeaning(front, address, k);
      KeptSnoc(front, e, address, k, n);
      forall i: nat | i < n
        ensures CreatedAndKept(events, address, k, i) <==> CreatedAndKept(front, address, k, i) && k !in Spent(e.body)
      {
        KeptSnoc(front, e, address, k, i);
      }
      UnspentSnoc(front, e, address);
    }
  }

  /** No two transactions have the same place. */
  ghost predicate DistinctPlaces(events: seq<Placed>) {
    forall i, j :: 0 <= i < j < |events| ==> (events[i].block, events[i].tx) != (events[j].block, events[j].tx)
  }

  /** The place of every transaction leads back to it: block indices are positions. */
  ghost predicate PlacedIn(chain: seq<Block>, e: Placed) {
    && e.block < |chain|
    && e.tx < |chain[e.block].transactions|
    && chain[e.block].transactions[e.tx] == e.body
  }

  ghost predicate IndexIsPosition(chain: seq<Block>) {
    forall i :: 0 <= i < |chain| ==> chain[i].index == i
  }

  lemma {:induction false} FlattenPlaces(chain: seq<Block>)
    requires IndexIsPosition(chain)
    ensures forall e <- Flatten(chain) :: PlacedIn(chain, e)
    ensures DistinctPlaces(Flatten(chain))
  {
    if chain != [] {
      var n := |chain| - 1;
      var front := chain[..n];
      FlattenPlaces(front);
      assert forall e <- Flatten(front) :: PlacedIn(front, e) && front[e.block] == chain[e.block];
      var b := chain[n];
      var last := PlaceFirst(b, |b.transactions|);
      assert forall i :: 0 <= i < |last| ==> last[i] == Placed(n, i, b.time, b.transactions[i]);
      var all := Flatten(chain);
      assert all == Flatten(front) + last;
      forall i, j | 0 <= i < j < |all| ensures (all[i].block, all[i].tx) != (all[j].block, all[j].tx) {
        var m := |Flatten(front)|;
        assert i < m ==> all[i] in Flatten(front);
        assert j < m ==> all[j] in Flatten(front);
      }
      forall e <- all ensures PlacedIn(chain, e) {
        assert e in Flatten(front) || e in last;
      }
    }
  }

  /** Unspent outputs come from the transactions seen so far. */
  lemma {:induction false} UnspentOrigin(events: seq<Placed>, address: string)
    ensures forall k <- UnspentAfter(events, address) ::
              exists i :: 0 <= i < |events| && k in Created(events[i], address)
                          && UnspentAfter(events, address)[k] == Created(events[i], address)[k]
  {
    hide Created, CreatedFirst, Spent;
    if events != [] {
      var n := |events| - 1;
      var front := events[..n];
      UnspentOrigin(front, address);
      forall k <- UnspentAfter(events, address)
        ensures exists i :: 0 <= i < |events| && k in Created(events[i], address)
                            && UnspentAfter(events, address)[k] == Created(events[i], address)[k]
      {
        if k in UnspentAfter(front, address) {
          var i :| 0 <= i < n && k in Created(front[i], address)
                   && UnspentAfter(front, address)[k] == Created(front[i], address)[k];
          assert events[i] == front[i];
        } else {
          assert k in Created(events[n], address);
        }
      }
    }
  }

  /** A transaction in a new place creates only outputs that were not there. */
  lemma {:induction false} FreshOutputs(events: seq<Placed>, e: Placed, address: string)
    requires DistinctPlaces(events + [e])
    ensures UnspentAfter(events, address).Keys !! Created(e, address).Keys
  {
    UnspentOrigin(events, address);
    var all := events + [e];
    forall k <- UnspentAfter(events, address) ensures k !in Created(e, address) {
      var i :| 0 <= i < |events| && k in Created(events[i], address);
      assert all[i] == events[i] && all[|events|] == e;
    }
  }

  // ----- one address -----

  /** The entries that belong to an address. */
  function OwnedBy(m: Outputs, address: string): Outputs {
    m - (set k <- m | !Matches(address, m[k]))
  }

  lemma {:induction false} StepPerAddress(all: Outputs, e: Placed, address: string)
    requires all.Keys !! Created(e, "").Keys
    ensures Step(OwnedBy(all, address), e, address) == OwnedBy(Step(all, e, ""), address)
  {
    var lhs, rhs := Step(OwnedBy(all, address), e, address), OwnedBy(Step(all, e, ""), address);
    var some, every := Created(e, address), Created(e, "");
    forall k ensures k in some <==> k in every && Matches(address, every[k]) {
    }
    forall k ensures k in lhs <==> k in rhs {
    }
    forall k | k in lhs ensures lhs[k] == rhs[k] {
    }
  }

  /** Asking for one address gives the same as asking for all and keeping what belongs to it. */
  lemma {:induction false} PerAddress(events: seq<Placed>, address: string)
    requires DistinctPlaces(events)
    ensures UnspentAfter(events, address) == OwnedBy(UnspentAfter(events, ""), address)
  {
    if events != [] {
      var n := |events| - 1;
      PerAddress(events[..n], address);
      assert events[..n] + [events[n]] == events;
      FreshOutputs(events[..n], events[n], "");
      StepPerAddress(UnspentAfter(events[..n], ""), events[n], address);
    }
  }

  ghost predicate DistinctIndices(chain: seq<Block>) {
    forall i, j :: 0 <= i < j < |chain| ==> chain[i].index != chain[j].index
  }

  /** A transaction of the chain has the index of one of its blocks. */
  lemma {:induction false} IndexOfSome(chain: seq<Block>, i: nat)
    requires i < |Flatten(chain)|
    ensures exists b :: 0 <= b < |chain| && chain[b].index == Flatten(chain)[i].block
  {
    var n := |chain| - 1;
    if i < |Flatten(chain[..n])| {
      IndexOfSome(chain[..n], i);
      var b :| 0 <= b < n && chain[..n][b].index == Flatten(chain[..n])[i].block;
      assert chain[b].index == Flatten(chain)[i].block;
    }
  }

  lemma {:induction false} DistinctIndicesPlace(chain: seq<Block>)
    requires DistinctIndices(chain)
    ensures DistinctPlaces(Flatten(chain))
  {
    if chain != [] {
      var n := |chain| - 1;
      DistinctIndicesPlace(chain[..n]);
      var all, front := Flatten(chain), Flatten(chain[..n]);
      forall i, j | 0 <= i < j < |all| ensures (all[i].block, all[i].tx) != (all[j].block, all[j].tx) {
        if i < |front| <= j {
          IndexOfSome(chain[..n], i);
          var b :| 0 <= b < n && chain[..n][b].index == front[i].block;
          assert chain[b].index != chain[n].index;
        }
      }
    }
  }

  lemma {:induction false} PerAddressOf(chain: seq<Block>, address: string)
    requires DistinctIndices(chain)
    ensures UnspentOf(chain, address) == OwnedBy(UnspentOf(chain, ""), address)
  {
    DistinctIndicesPlace(chain);
    PerAddress(Flatten(chain), address);
  }

  /** An address is given what is its own, and without an address everything is given. */
  lemma {:induction false} AddressIsGiven(chain: seq<Block>, address: string, k: OutPoint)
    requires DistinctIndices(chain)
    ensures var own, all := UnspentOf(chain, address), UnspentOf(chain, "");
            && (address != "" ==> (k in own <==> k in all && all[k].address == address))
            && (k in own ==> k in all && own[k] == all[k])
  {
    PerAddressOf(chain, address);
  }

  /** With no address every output of a transaction is created, in its place and with its number. */
  lemma {:induction false} EveryOutputIsCreated(e: Placed, i: nat)
    requires i < |e.body.txOuts|
    ensures var k := OutPoint(e.block, e.tx, i); k in Created(e, "") && Created(e, "")[k] == e.body.txOuts[i]
  {
  }

  /** The entries with the given keys. */
  function Restrict(m: Outputs, keys: set<OutPoint>): (r: Outputs)
    ensures forall k :: k in r <==> k in m && k in keys
    ensures forall k <- r :: r[k] == m[k]
  {
    m - (m.Keys - keys)
  }

  // ----- worth -----

  /** What an output is worth to an address. */
  function Worth(o: TxOut, address: string): Amount {
    if Matches(address, o) then o.amount else 0.0
  }

  /** What a set of outputs is worth to an address; with the empty address, its whole value. */
  ghost function Value(m: Outputs, address: string): Amount
    decreases |m|
  {
    if m == map[] then 0.0
    else
      var k :| k in m;
      Worth(m[k], address) + Value(m - {k}, address)
  }

  /** Any entry may be counted first. */
  lemma {:induction false} ValueTakes(m: Outputs, k: OutPoint, address: string)
    requires k in m
    ensures Value(m, address) == Worth(m[k], address) + Value(m - {k}, address)
    decreases |m|
  {
    var j :| j in m && Value(m, address) == Worth(m[j], address) + Value(m - {j}, address);
    if j != k {
      ValueTakes(m - {j}, k, address);
      ValueTakes(m - {k}, j, address);
      assert m - {j} - {k} == m - {k} - {j};
    }
  }

  lemma {:induction false} ValueAdds(m: Outputs, k: OutPoint, o: TxOut, address: string)
    requires k !in m
    ensures Value(m[k := o], address) == Value(m, address) + Worth(o, address)
  {
    ValueTakes(m[k := o], k, address);
    assert m[k := o] - {k} == m;
  }

  /** What the first n outputs are worth to an address. */
  function Credit(outs: seq<TxOut>, address: string, n: nat): Amount
    requires n <= |outs|
  {
    if n == 0 then 0.0 else Credit(outs, address, n - 1) + Worth(outs[n - 1], address)
  }

  /** What the outputs that the first n inputs refer to are worth to an address. */
  function Debit(m: Outputs, ins: seq<TxIn>, address: string, n: nat): Amount
    requires n <= |ins|
  {
    if n == 0 then 0.0
    else
      var k := ins[n - 1].txOutPt.Key();
      Debit(m, ins, address, n - 1) + if k in m then Worth(m[k], address) else 0.0
  }

  /** The inputs of a transaction are different outputs, all of them in the set. */
  ghost predicate InputsLive(m: Outputs, tx: Transaction) {
    && (forall i :: 0 <= i < |tx.txIns| ==> tx.txIns[i].txOutPt.Key() in m)
    && (forall i, j :: 0 <= i < j < |tx.txIns| ==> tx.txIns[i].txOutPt.Key() != tx.txIns[j].txOutPt.Key())
  }

  /** One more output is one more entry. */
  lemma {:induction false} CreatedGrows(m: Outputs, e: Placed, n: nat)
    requires n < |e.body.txOuts| && OutPoint(e.block, e.tx, n) !in m
    ensures var k := OutPoint(e.block, e.tx, n);
            var was := CreatedFirst(e, "", n) + m;
            k !in was && CreatedFirst(e, "", n + 1) + m == was[k := e.body.txOuts[n]]
  {
    var k := OutPoint(e.block, e.tx, n);
    assert CreatedFirst(e, "", n + 1) == CreatedFirst(e, "", n)[k := e.body.txOuts[n]];
  }

  lemma {:induction false} ValueOfOneMore(m: Outputs, e: Placed, address: string, n: nat)
    requires n < |e.body.txOuts| && m.Keys !! Created(e, "").Keys
    ensures Value(CreatedFirst(e, "", n + 1) + m, address)
         == Value(CreatedFirst(e, "", n) + m, address) + Worth(e.body.txOuts[n], address)
  {
    var k := OutPoint(e.block, e.tx, n);
    assert k in Created(e, "");
    CreatedGrows(m, e, n);
    ValueAdds(CreatedFirst(e, "", n) + m, k, e.body.txOuts[n], address);
  }

  lemma {:induction false} CreatedNone(m: Outputs, e: Placed)
    ensures CreatedFirst(e, "", 0) + m == m
  {
  }

  lemma {:induction false} ValueOfCreated(m: Outputs, e: Placed, address: string, n: nat)
    requires n <= |e.body.txOuts| && m.Keys !! Created(e, "").Keys
    ensures Value(CreatedFirst(e, "", n) + m, address) == Value(m, address) + Credit(e.body.txOuts, address, n)
  {
    hide Value, Created, CreatedFirst;
    if n == 0 {
      CreatedNone(m, e);
    } else {
      ValueOfCreated(m, e, address, n - 1);
      ValueOfOneMore(m, e, address, n - 1);
    }
  }

  lemma {:induction false} ValueOfSpent(m: Outputs, live: Outputs, tx: Transaction, address: string, n: nat)
    requires n <= |tx.txIns| && InputsLive(live, tx)
    requires forall k <- live :: k in m && m[k] == live[k]
    ensures Value(m - InputKeysFirst(tx, n), address) == Value(m, address) - Debit(live, tx.txIns, address, n)
  {
    if n == 0 {
      assert m - InputKeysFirst(tx, 0) == m;
    } else {
      ValueOfSpent(m, live, tx, address, n - 1);
      var k := tx.txIns[n - 1].txOutPt.Key();
      var rest := m - InputKeysFirst(tx, n - 1);
      assert k in live;
      assert k in rest;
      assert m - InputKeysFirst(tx, n) == rest - {k};
      ValueTakes(rest, k, address);
    }
  }

  /** One transaction with live inputs changes what the unspent outputs are worth to an address by
      what it pays that address less what it spends of it. */
  lemma {:induction false} ValueStep(m: Outputs, e: Placed, address: string)
    requires m.Keys !! Created(e, "").Keys
    requires !e.body.IsCoinbase() ==> InputsLive(m, e.body)
    ensures Value(Step(m, e, ""), address)
         == Value(m, address) + Credit(e.body.txOuts, address, |e.body.txOuts|)
            - if e.body.IsCoinbase() then 0.0 else Debit(m, e.body.txIns, address, |e.body.txIns|)
  {
    ValueOfCreated(m, e, address, |e.body.txOuts|);
    var grown := Created(e, "") + m;
    if e.body.IsCoinbase() {
      assert Step(m, e, "") == grown;
    } else {
      ValueOfSpent(grown, m, e.body, address, |e.body.txIns|);
    }
  }

  lemma {:induction false} OwnedWithout(m: Outputs, k: OutPoint, address: string)
    requires k in m
    ensures Matches(address, m[k]) ==>
              k in OwnedBy(m, address) && OwnedBy(m, address)[k] == m[k]
              && OwnedBy(m, address) - {k} == OwnedBy(m - {k}, address)
    ensures !Matches(address, m[k]) ==> OwnedBy(m, address) == OwnedBy(m - {k}, address)
  {
  }

  lemma {:induction false} ValueOwned(m: Outputs, address: string)
    ensures Value(OwnedBy(m, address), "") == Value(m, address)
    decreases |m|
  {
    if m == map[] {
      assert OwnedBy(m, address) == map[];
    } else {
      var k :| k in m;
      ValueTakes(m, k, address);
      ValueOwned(m - {k}, address);
      OwnedWithout(m, k, address);
      hide OwnedBy, Value;
      if Matches(address, m[k]) {
        ValueTakes(OwnedBy(m, address), k, "");
      }
    }
  }

  function ListValue(list: seq<TxOutPoint>): Amount
    requires forall u <- list :: u.amount.Some?
  {
    if list == [] then 0.0 else ListValue(list[..|list| - 1]) + list[|list| - 1].amount.value
  }

  /** Without its last element a list names the rest. */
  lemma {:induction false} EnumeratesFront(list: seq<TxOutPoint>, m: Outputs)
    requires list != [] && Enumerates(list, m)
    ensures var n := |list| - 1; list[n].Key() in m && Enumerates(list[..n], m - {list[n].Key()})
  {
    var n := |list| - 1;
    var k, front := list[n].Key(), list[..n];
    forall j | j in m - {k} ensures exists i :: 0 <= i < n && front[i].Key() == j {
      var i :| 0 <= i < |list| && list[i].Key() == j;
      assert front[i] == list[i];
    }
  }

  /** However the set is listed, the list is worth what the set is worth. */
  lemma {:induction false} ListedValue(list: seq<TxOutPoint>, m: Outputs)
    requires Enumerates(list, m)
    ensures ListValue(list) == Value(m, "")
  {
    if list == [] {
      assert m == map[];
    } else {
      hide Enumerates, Value;
      var n := |list| - 1;
      var k := list[n].Key();
      EnumeratesFront(list, m);
      assert list[n] == Resolved(k, m[k]);
      ValueTakes(m, k, "");
      ListedValue(list[..n], m - {k});
    }
  }

  // ----- supply, with no hypothesis on what is spent -----

  /** What the transactions in order put into the set for an address. */
  ghost function ValueCreated(events: seq<Placed>, address: string): Amount {
    if events == [] then 0.0
    else
      var n := |events| - 1;
      ValueCreated(events[..n], address) + Credit(events[n].body.txOuts, address, |events[n].body.txOuts|)
  }

  /** What they took out of the set: references to outputs that are not there take nothing. */
  ghost function ValueErased(events: seq<Placed>, address: string): Amount {
    if events == [] then 0.0
    else
      var n := |events| - 1;
      var grown := Created(events[n], "") + UnspentAfter(events[..n], "");
      ValueErased(events[..n], address) + Value(Restrict(grown, Spent(events[n].body)), address)
  }

  lemma {:induction false} RestrictWithout(m: Outputs, gone: set<OutPoint>, k: OutPoint)
    requires k in m
    ensures k in gone ==> Restrict(m, gone) - {k} == Restrict(m - {k}, gone) && m - gone == (m - {k}) - gone
    ensures k !in gone ==> Restrict(m, gone) == Restrict(m - {k}, gone) && m - gone - {k} == (m - {k}) - gone
  {
  }

  lemma {:induction false} ValueSplits(m: Outputs, gone: set<OutPoint>, address: string)
    ensures Value(m - gone, address) + Value(Restrict(m, gone), address) == Value(m, address)
    decreases |m|
  {
    if m == map[] {
      assert m - gone == map[] && Restrict(m, gone) == map[];
    } else {
      var k :| k in m;
      ValueSplits(m - {k}, gone, address);
      ValueTakes(m, k, address);
      RestrictWithout(m, gone, k);
      hide Value, Restrict, Worth;
      if k in gone {
        ValueTakes(Restrict(m, gone), k, address);
      } else {
        ValueTakes(m - gone, k, address);
      }
    }
  }

  /** One transaction, whatever it spends: what it leaves and what it erases make up what was there and what
      it creates. */
  lemma {:induction false} SupplyStep(m: Outputs, e: Placed, address: string)
    requires m.Keys !! Created(e, "").Keys
    ensures var grown := Created(e, "") + m;
            Value(Step(m, e, ""), address) + Value(Restrict(grown, Spent(e.body)), address)
            == Value(m, address) + Credit(e.body.txOuts, address, |e.body.txOuts|)
  {
    ValueOfCreated(m, e, address, |e.body.txOuts|);
    ValueSplits(Created(e, "") + m, Spent(e.body), address);
  }

  /** Double spends or not: what is unspent and what was erased make up what was created. */
  lemma {:induction false} SupplyAccounts(events: seq<Placed>, address: string)
    requires DistinctPlaces(events)
    ensures Value(UnspentAfter(events, ""), address) + ValueErased(events, address) == ValueCreated(events, address)
  {
    hide Created, Spent;
    if events != [] {
      var n := |events| - 1;
      var e := events[n];
      SupplyAccounts(events[..n], address);
      assert events[..n] + [e] == events;
      FreshOutputs(events[..n], e, "");
      SupplyStep(UnspentAfter(events[..n], ""), e, address);
    }
  }
}
