/** A file that ends in the middle of a block is not read. */
module Truncation {
  import opened Wrappers
  import opened Transactions
  import opened Blocks
  import opened ChainFile

  /** More bytes at the end change nothing in what has been read, and are left. */
  ghost predicate Extends<T(!new)>(p: Bytes -> Parsed<T>, s: Bytes, more: Bytes) {
    p(s).Some? ==> p(s + more) == Some((p(s).value.0, p(s).value.1 + more))
  }

  lemma {:induction false} NumberExtends(k: nat, s: Bytes, more: Bytes)
    ensures ParseNumber(k, s).Some? ==>
              ParseNumber(k, s + more) == Some((ParseNumber(k, s).value.0, ParseNumber(k, s).value.1 + more))
  {
    if |s| >= k {
      assert (s + more)[..k] == s[..k] && (s + more)[k..] == s[k..] + more;
    }
  }

  lemma {:induction false} StringExtends(s: Bytes, more: Bytes)
    ensures Extends(ParseString, s, more)
  {
    NumberExtends(4, s, more);
    if ParseNumber(4, s).Some? {
      var (len, rest) := ParseNumber(4, s).value;
      if |rest| >= len {
        assert (rest + more)[..len] == rest[..len] && (rest + more)[len..] == rest[len..] + more;
      }
    }
  }

  lemma {:induction false} DoubleExtends(d: DoubleCodec, s: Bytes, more: Bytes)
    ensures ParseDouble(d, s).Some? ==>
              ParseDouble(d, s + more) == Some((ParseDouble(d, s).value.0, ParseDouble(d, s).value.1 + more))
  {
    if |s| >= 8 {
      assert (s + more)[..8] == s[..8] && (s + more)[8..] == s[8..] + more;
    }
  }

  lemma {:induction false} TxInExtends(s: Bytes, more: Bytes)
    ensures Extends(TxInParser(), s, more)
  {
    if ParseTxIn(s).Some? {
      NumberExtends(8, s, more);
      var s1 := ParseNumber(8, s).value.1;
      NumberExtends(8, s1, more);
      var s2 := ParseNumber(8, s1).value.1;
      NumberExtends(8, s2, more);
      var s3 := ParseNumber(8, s2).value.1;
      StringExtends(s3, more);
      hide ParseNumber, ParseString;
    }
  }

  lemma {:induction false} TxOutExtends(d: DoubleCodec, s: Bytes, more: Bytes)
    ensures Extends(TxOutParser(d), s, more)
  {
    if ParseTxOut(d, s).Some? {
      StringExtends(s, more);
      DoubleExtends(d, ParseString(s).value.1, more);
      hide ParseString, ParseDouble;
    }
  }

  lemma {:induction false} ManyExtends<T(!new)>(p: Bytes -> Parsed<T>, n: nat, s: Bytes, more: Bytes)
    requires forall t: Bytes :: Extends(p, t, more)
    ensures ParseMany(p, n, s).Some? ==>
              ParseMany(p, n, s + more) == Some((ParseMany(p, n, s).value.0, ParseMany(p, n, s).value.1 + more))
  {
    if n > 0 && ParseMany(p, n, s).Some? {
      assert Extends(p, s, more);
      ManyExtends(p, n - 1, p(s).value.1, more);
    }
  }

  lemma {:induction false} ListExtends<T(!new)>(p: Bytes -> Parsed<T>, s: Bytes, more: Bytes)
    requires forall t: Bytes :: Extends(p, t, more)
    ensures ParseList(p, s).Some? ==>
              ParseList(p, s + more) == Some((ParseList(p, s).value.0, ParseList(p, s).value.1 + more))
  {
    NumberExtends(4, s, more);
    if ParseNumber(4, s).Some? {
      ManyExtends(p, ParseNumber(4, s).value.0, ParseNumber(4, s).value.1, more);
    }
  }

  lemma {:induction false} TransactionExtends(d: DoubleCodec, s: Bytes, more: Bytes)
    ensures Extends(TransactionParser(d), s, more)
  {
    if ParseTransaction(d, s).Some? {
      StringExtends(s, more);
      var s1 := ParseString(s).value.1;
      forall t: Bytes ensures Extends(TxInParser(), t, more) {
        TxInExtends(t, more);
      }
      ListExtends(TxInParser(), s1, more);
      var s2 := ParseList(TxInParser(), s1).value.1;
      forall t: Bytes ensures Extends(TxOutParser(d), t, more) {
        TxOutExtends(d, t, more);
      }
      ListExtends(TxOutParser(d), s2, more);
      hide ParseString, ParseList;
    }
  }

  lemma {:induction false} RestExtends(d: DoubleCodec, s: Bytes, more: Bytes)
    ensures ParseRest(d, s).Some? ==>
              ParseRest(d, s + more) == Some((ParseRest(d, s).value.0, ParseRest(d, s).value.1 + more))
  {
    if ParseRest(d, s).Some? {
      StringExtends(s, more);
      var s1 := ParseString(s).value.1;
      StringExtends(s1, more);
      var s2 := ParseString(s1).value.1;
      StringExtends(s2, more);
      var s3 := ParseString(s2).value.1;
      forall t: Bytes ensures Extends(TransactionParser(d), t, more) {
        TransactionExtends(d, t, more);
      }
      ListExtends(TransactionParser(d), s3, more);
      hide ParseString, ParseList;
    }
  }

  lemma {:induction false} BlockExtends(d: DoubleCodec, s: Bytes, more: Bytes)
    ensures ParseBlock(d, s).Some? ==>
              ParseBlock(d, s + more) == Some((ParseBlock(d, s).value.0, ParseBlock(d, s).value.1 + more))
  {
    if ParseBlock(d, s).Some? {
      NumberExtends(8, s, more);
      var s1 := ParseNumber(8, s).value.1;
      NumberExtends(8, s1, more);
      var s2 := ParseNumber(8, s1).value.1;
      NumberExtends(8, s2, more);
      var s3 := ParseNumber(8, s2).value.1;
      StringExtends(s3, more);
      var s4 := ParseString(s3).value.1;
      NumberExtends(8, s4, more);
      var s5 := ParseNumber(8, s4).value.1;
      RestExtends(d, s5, more);
      hide ParseNumber, ParseString, ParseRest;
    }
  }

  lemma {:induction false} OnlyAllIsRead(d: DoubleCodec, b: Block, part: Bytes, more: Bytes)
    requires Storable(d, b) && part + more == EncodeBlock(d, b) && ParseBlock(d, part).Some?
    ensures more == []
  {
    hide ParseBlock, EncodeBlock, Storable;
    BlockExtends(d, part, more);
    ReadsBlock(d, b, []);
    assert part + more + [] == part + more;
    assert ParseBlock(d, part).value.1 + more == [];
  }

  /** No proper beginning of a block is a block. */
  lemma {:induction false} TruncatedBlock(d: DoubleCodec, b: Block, n: nat)
    requires Storable(d, b) && n < |EncodeBlock(d, b)|
    ensures ParseBlock(d, EncodeBlock(d, b)[..n]).None?
  {
    hide ParseBlock, EncodeBlock, Storable;
    var s := EncodeBlock(d, b);
    assert s[..n] + s[n..] == s;
    if ParseBlock(d, s[..n]).Some? {
      OnlyAllIsRead(d, b, s[..n], s[n..]);
    }
  }

  /** A file that holds whole blocks and then a part of one is not read. */
  lemma {:induction false} TruncatedFile(d: DoubleCodec, chain: seq<Block>, b: Block, n: nat)
    requires StorableChain(d, chain) && Storable(d, b) && 0 < n < |EncodeBlock(d, b)|
    ensures ParseChain(d, EncodeChain(d, chain) + EncodeBlock(d, b)[..n]).None?
  {
    var part := EncodeBlock(d, b)[..n];
    if chain == [] {
      assert EncodeChain(d, chain) + part == part;
      TruncatedBlock(d, b, n);
    } else {
      var first, rest := EncodeBlock(d, chain[0]), EncodeChain(d, chain[1..]);
      assert chain[0] in chain && forall x <- chain[1..] :: x in chain;
      TruncatedFile(d, chain[1..], b, n);
      FirstRead(d, chain, part);
    }
  }

  lemma {:induction false} FirstRead(d: DoubleCodec, chain: seq<Block>, part: Bytes)
    requires chain != [] && Storable(d, chain[0])
    ensures var s := EncodeChain(d, chain) + part;
            s != [] && ParseBlock(d, s) == Some((chain[0], EncodeChain(d, chain[1..]) + part))
  {
    var first, rest := EncodeBlock(d, chain[0]), EncodeChain(d, chain[1..]);
    ReadsBlock(d, chain[0], rest + part);
    Regroup(first, rest, part);
    assert EncodeChain(d, chain) == first + rest;
    assert |first| >= 8;
  }
}
