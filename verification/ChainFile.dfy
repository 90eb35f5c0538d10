/** The bytes of the chain file: what is written for a block, and how it is read back. */
module ChainFile {
  import opened Wrappers
  import opened Transactions
  import opened Blocks

  type byte = x: int | 0 <= x < 256

  type Bytes = seq<byte>

  const UINT32_SIZE := 0x1_0000_0000

  /** The eight bytes of a double. */
  datatype DoubleCodec = DoubleCodec(encode: Amount -> Bytes, decode: Bytes -> Amount)

  /** The amount is a double: its bytes stand for it exactly. */
  predicate IsDouble(d: DoubleCodec, a: Amount) {
    |d.encode(a)| == 8 && d.decode(d.encode(a)) == a
  }

  // ----- writing -----

  /** The k low bytes of a number, lowest first. */
  function LittleEndian(n: nat, k: nat): (r: Bytes)
    ensures |r| == k
  {
    if k == 0 then [] else [n % 256] + LittleEndian(n / 256, k - 1)
  }

  function U64(n: nat): Bytes {
    LittleEndian(n, 8)
  }

  function U32(n: nat): Bytes {
    LittleEndian(n, 4)
  }

  function CharBytes(s: string): Bytes {
    seq(|s|, i requires 0 <= i < |s| => (s[i] as int) % 256)
  }

  /** The length is cut to 32 bits, and that many characters follow. */
  function EncodeString(s: string): Bytes {
    U32(|s| % UINT32_SIZE) + CharBytes(s[..|s| % UINT32_SIZE])
  }

  function EncodeTime(t: int): Bytes {
    U64(t % UINT64_SIZE)
  }

  function EncodeMany<T>(e: T -> Bytes, xs: seq<T>): Bytes {
    if xs == [] then [] else e(xs[0]) + EncodeMany(e, xs[1..])
  }

  function EncodeTxIn(txin: TxIn): Bytes {
    var pt := txin.txOutPt;
    U64(pt.blockIndex) + (U64(pt.txIndex) + (U64(pt.txOutIndex) + EncodeString(txin.signature)))
  }

  function EncodeTxOut(d: DoubleCodec, txout: TxOut): Bytes {
    EncodeString(txout.address) + d.encode(txout.amount)
  }

  function TxInEncoder(): TxIn -> Bytes {
    txin => EncodeTxIn(txin)
  }

  function TxOutEncoder(d: DoubleCodec): TxOut -> Bytes {
    txout => EncodeTxOut(d, txout)
  }

  /** The count is cut to 32 bits, but every element follows. */
  function EncodeList<T>(e: T -> Bytes, xs: seq<T>): Bytes {
    U32(|xs| % UINT32_SIZE) + EncodeMany(e, xs)
  }

  function EncodeTransaction(d: DoubleCodec, tx: Transaction): Bytes {
    EncodeString(tx.id) + (EncodeList(TxInEncoder(), tx.txIns) + EncodeList(TxOutEncoder(d), tx.txOuts))
  }

  function TransactionEncoder(d: DoubleCodec): Transaction -> Bytes {
    tx => EncodeTransaction(d, tx)
  }

  /** The second half of a block: hashes, miner and transactions. */
  function EncodeRest(d: DoubleCodec, b: Block): Bytes {
    EncodeString(b.hash) + (EncodeString(b.previousHash) + (EncodeString(b.miner)
    + EncodeList(TransactionEncoder(d), b.transactions)))
  }

  function EncodeBlock(d: DoubleCodec, b: Block): Bytes {
    U64(b.index) + (U64(b.nonce) + (U64(b.difficulty) + (EncodeString(b.data)
    + (EncodeTime(b.time) + EncodeRest(d, b)))))
  }

  function BlockEncoder(d: DoubleCodec): Block -> Bytes {
    b => EncodeBlock(d, b)
  }

  /** A file that is not there has no bytes. */
  function OnDisk(disk: Option<Bytes>): Bytes {
    if disk.Some? then disk.value else []
  }

  /** A file: the blocks one after the other. */
  function EncodeChain(d: DoubleCodec, chain: seq<Block>): Bytes {
    EncodeMany(BlockEncoder(d), chain)
  }

  // ----- reading -----

  type Parsed<T> = Option<(T, Bytes)>

  function Number(s: Bytes): nat {
    if s == [] then 0 else s[0] + 256 * Number(s[1..])
  }

  /** Some when there are enough bytes; the rest is what is left of the stream. */
  function ParseNumber(k: nat, s: Bytes): (r: Parsed<nat>)
    ensures r.Some? ==> |r.value.1| + k == |s|
  {
    if |s| < k then None else Some((Number(s[..k]), s[k..]))
  }

  function ByteChars(s: Bytes): string {
    seq(|s|, i requires 0 <= i < |s| => s[i] as char)
  }

  function ParseString(s: Bytes): (r: Parsed<string>)
    ensures r.Some? ==> |r.value.1| <= |s|
  {
    var (len, s) :- ParseNumber(4, s);
    if |s| < len then None else Some((ByteChars(s[..len]), s[len..]))
  }

  function ParseDouble(d: DoubleCodec, s: Bytes): (r: Parsed<Amount>)
    ensures r.Some? ==> |r.value.1| <= |s|
  {
    if |s| < 8 then None else Some((d.decode(s[..8]), s[8..]))
  }

  function SignedTime(n: nat): int {
    if n < UINT64_SIZE / 2 then n else n - UINT64_SIZE
  }

  ghost predicate Consumes<T(!new)>(p: Bytes -> Parsed<T>) {
    forall s :: p(s).Some? ==> |p(s).value.1| <= |s|
  }

  function ParseMany<T(!new)>(p: Bytes -> Parsed<T>, n: nat, s: Bytes): (r: Parsed<seq<T>>) {
    if n == 0 then Some(([], s))
    else
      var (x, s) :- p(s);
      var (xs, s) :- ParseMany(p, n - 1, s);
      Some(([x] + xs, s))
  }

  function ParseTxIn(s: Bytes): (r: Parsed<TxIn>)
    ensures r.Some? ==> |r.value.1| <= |s|
  {
    var (block, s) :- ParseNumber(8, s);
    var (tx, s) :- ParseNumber(8, s);
    var (out, s) :- ParseNumber(8, s);
    var (signature, s) :- ParseString(s);
    Some((PlainTxIn(OutPoint(block, tx, out), signature), s))
  }

  function ParseTxOut(d: DoubleCodec, s: Bytes): (r: Parsed<TxOut>)
    ensures r.Some? ==> |r.value.1| <= |s|
  {
    var (address, s) :- ParseString(s);
    var (amount, s) :- ParseDouble(d, s);
    Some((TxOut(address, amount), s))
  }

  function TxInParser(): Bytes -> Parsed<TxIn> {
    s => ParseTxIn(s)
  }

  function TxOutParser(d: DoubleCodec): Bytes -> Parsed<TxOut> {
    s => ParseTxOut(d, s)
  }

  function ParseList<T(!new)>(p: Bytes -> Parsed<T>, s: Bytes): Parsed<seq<T>> {
    var (n, s) :- ParseNumber(4, s);
    ParseMany(p, n, s)
  }

  function ParseTransaction(d: DoubleCodec, s: Bytes): (r: Parsed<Transaction>) {
    var (id, s) :- ParseString(s);
    var (txIns, s) :- ParseList(TxInParser(), s);
    var (txOuts, s) :- ParseList(TxOutParser(d), s);
    Some((Transaction(id, txIns, txOuts), s))
  }

  function TransactionParser(d: DoubleCodec): Bytes -> Parsed<Transaction> {
    s => ParseTransaction(d, s)
  }

  function ParseRest(d: DoubleCodec, s: Bytes): Parsed<(string, string, string, seq<Transaction>)> {
    var (hash, s) :- ParseString(s);
    var (previousHash, s) :- ParseString(s);
    var (miner, s) :- ParseString(s);
    var (transactions, s) :- ParseList(TransactionParser(d), s);
    Some(((hash, previousHash, miner, transactions), s))
  }

  function ParseBlock(d: DoubleCodec, s: Bytes): Parsed<Block> {
    var (index, s) :- ParseNumber(8, s);
    var (nonce, s) :- ParseNumber(8, s);
    var (difficulty, s) :- ParseNumber(8, s);
    var (data, s) :- ParseString(s);
    var (time, s) :- ParseNumber(8, s);
    var ((hash, previousHash, miner, transactions), s) :- ParseRest(d, s);
    Some((Block(index, nonce, difficulty, data, SignedTime(time), previousHash, transactions, hash, miner), s))
  }

  /** Reading until the end of the file. */
  function ParseChain(d: DoubleCodec, s: Bytes): Option<seq<Block>>
    decreases |s|
  {
    if s == [] then Some([])
    else
      var (b, rest) :- ParseBlock(d, s);
      if |rest| >= |s| then None
      else
        var bs :- ParseChain(d, rest);
        Some([b] + bs)
  }

  // ----- every read moves forward -----

  lemma {:induction false} ManyConsumes<T(!new)>(p: Bytes -> Parsed<T>, n: nat, s: Bytes)
    requires Consumes(p)
    ensures ParseMany(p, n, s).Some? ==> |ParseMany(p, n, s).value.1| <= |s|
  {
    if n > 0 && p(s).Some? {
      ManyConsumes(p, n - 1, p(s).value.1);
    }
  }

  lemma {:induction false} ListConsumes<T(!new)>(p: Bytes -> Parsed<T>, s: Bytes)
    requires Consumes(p)
    ensures ParseList(p, s).Some? ==> |ParseList(p, s).value.1| <= |s|
  {
    if ParseNumber(4, s).Some? {
      ManyConsumes(p, ParseNumber(4, s).value.0, ParseNumber(4, s).value.1);
    }
  }

  lemma {:induction false} TransactionConsumes(d: DoubleCodec)
    ensures Consumes(TransactionParser(d))
  {
    forall s ensures TransactionParser(d)(s).Some? ==> |TransactionParser(d)(s).value.1| <= |s| {
      if ParseTransaction(d, s).Some? {
        var s1 := ParseString(s).value.1;
        ListConsumes(TxInParser(), s1);
        var s2 := ParseList(TxInParser(), s1).value.1;
        ListConsumes(TxOutParser(d), s2);
      }
    }
  }

  lemma {:induction false} RestConsumes(d: DoubleCodec, s: Bytes)
    ensures ParseRest(d, s).Some? ==> |ParseRest(d, s).value.1| <= |s|
  {
    if ParseRest(d, s).Some? {
      var s1 := ParseString(s).value.1;
      var s2 := ParseString(s1).value.1;
      var s3 := ParseString(s2).value.1;
      TransactionConsumes(d);
      ListConsumes(TransactionParser(d), s3);
    }
  }

  lemma {:induction false} BlockConsumes(d: DoubleCodec, s: Bytes)
    ensures ParseBlock(d, s).Some? ==> |ParseBlock(d, s).value.1| < |s|
  {
    if ParseBlock(d, s).Some? {
      var s1 := ParseNumber(8, s).value.1;
      var s2 := ParseNumber(8, s1).value.1;
      var s3 := ParseNumber(8, s2).value.1;
      var s4 := ParseString(s3).value.1;
      var s5 := ParseNumber(8, s4).value.1;
      RestConsumes(d, s5);
    }
  }

  // ----- what can be stored -----

  predicate StorableString(s: string) {
    |s| < UINT32_SIZE && forall ch <- s :: (ch as int) < 256
  }

  /** An input as it is stored: without its resolved owner and value. */
  predicate StorableTxIn(txin: TxIn) {
    && txin.txOutPt.blockIndex < UINT64_SIZE
    && txin.txOutPt.txIndex < UINT64_SIZE && txin.txOutPt.txOutIndex < UINT64_SIZE
    && txin.txOutPt.address.None? && txin.txOutPt.amount.None?
    && StorableString(txin.signature)
  }

  predicate StorableTxOut(d: DoubleCodec, txout: TxOut) {
    StorableString(txout.address) && IsDouble(d, txout.amount)
  }

  predicate StorableTransaction(d: DoubleCodec, tx: Transaction) {
    && StorableString(tx.id) && |tx.txIns| < UINT32_SIZE && |tx.txOuts| < UINT32_SIZE
    && (forall txin <- tx.txIns :: StorableTxIn(txin))
    && (forall txout <- tx.txOuts :: StorableTxOut(d, txout))
  }

  predicate Storable(d: DoubleCodec, b: Block) {
    && b.index < UINT64_SIZE && b.nonce < UINT64_SIZE && b.difficulty < UINT64_SIZE
    && -(UINT64_SIZE / 2) <= b.time < UINT64_SIZE / 2
    && StorableString(b.data) && StorableString(b.hash) && StorableString(b.previousHash) && StorableString(b.miner)
    && |b.transactions| < UINT32_SIZE
    && forall tx <- b.transactions :: StorableTransaction(d, tx)
  }

  predicate StorableChain(d: DoubleCodec, chain: seq<Block>) {
    forall b <- chain :: Storable(d, b)
  }

  // ----- reading undoes writing -----

  function Pow256(k: nat): (r: nat)
    ensures r >= 1
  {
    if k == 0 then 1 else 256 * Pow256(k - 1)
  }

  lemma {:induction false} NumberReads(n: nat, k: nat)
    requires n < Pow256(k)
    ensures Number(LittleEndian(n, k)) == n
  {
    if k > 0 {
      NumberReads(n / 256, k - 1);
      assert LittleEndian(n, k)[1..] == LittleEndian(n / 256, k - 1);
    }
  }

  lemma {:induction false} Sizes()
    ensures Pow256(4) == UINT32_SIZE && Pow256(8) == UINT64_SIZE
  {
    assert Pow256(2) == 256 * 256;
    assert Pow256(4) == 256 * 256 * Pow256(2);
    assert Pow256(6) == 256 * 256 * Pow256(4);
    assert Pow256(8) == 256 * 256 * Pow256(6);
  }

  lemma {:induction false} ReadsNumber(n: nat, k: nat, tail: Bytes)
    requires (k == 4 && n < UINT32_SIZE) || (k == 8 && n < UINT64_SIZE)
    ensures ParseNumber(k, LittleEndian(n, k) + tail) == Some((n, tail))
  {
    Sizes();
    NumberReads(n, k);
    assert (LittleEndian(n, k) + tail)[..k] == LittleEndian(n, k);
    assert (LittleEndian(n, k) + tail)[k..] == tail;
  }

  lemma {:induction false} ReadsString(t: string, tail: Bytes)
    requires StorableString(t)
    ensures ParseString(EncodeString(t) + tail) == Some((t, tail))
  {
    assert t[..|t|] == t;
    var chars := CharBytes(t);
    assert EncodeString(t) + tail == U32(|t|) + (chars + tail);
    ReadsNumber(|t|, 4, chars + tail);
    assert (chars + tail)[..|t|] == chars && (chars + tail)[|t|..] == tail;
    assert ByteChars(chars) == t by {
      forall i | 0 <= i < |t| ensures ByteChars(chars)[i] == t[i] {
        assert t[i] in t;
      }
    }
  }

  lemma {:induction false} ReadsTime(t: int, tail: Bytes)
    requires -(UINT64_SIZE / 2) <= t < UINT64_SIZE / 2
    ensures var r := ParseNumber(8, EncodeTime(t) + tail); r.Some? && SignedTime(r.value.0) == t && r.value.1 == tail
  {
    ReadsNumber(t % UINT64_SIZE, 8, tail);
  }

  /** The parser reads back what the encoder writes for x, whatever follows. */
  ghost predicate Undoes<T(!new)>(p: Bytes -> Parsed<T>, e: T -> Bytes, x: T) {
    forall tail :: p(e(x) + tail) == Some((x, tail))
  }

  lemma {:induction false} ReadsMany<T(!new)>(p: Bytes -> Parsed<T>, e: T -> Bytes, xs: seq<T>, tail: Bytes)
    requires forall x <- xs :: Undoes(p, e, x)
    ensures ParseMany(p, |xs|, EncodeMany(e, xs) + tail) == Some((xs, tail))
  {
    if xs != [] {
      var more := EncodeMany(e, xs[1..]) + tail;
      assert EncodeMany(e, xs) + tail == e(xs[0]) + more;
      assert Undoes(p, e, xs[0]);
      assert forall x <- xs[1..] :: x in xs;
      ReadsMany(p, e, xs[1..], tail);
      assert [xs[0]] + xs[1..] == xs;
    } else {
      assert EncodeMany(e, xs) + tail == tail;
    }
  }

  lemma {:induction false} ReadsList<T(!new)>(p: Bytes -> Parsed<T>, e: T -> Bytes, xs: seq<T>, tail: Bytes)
    requires |xs| < UINT32_SIZE && forall x <- xs :: Undoes(p, e, x)
    ensures ParseList(p, EncodeList(e, xs) + tail) == Some((xs, tail))
  {
    var more := EncodeMany(e, xs) + tail;
    assert EncodeList(e, xs) + tail == U32(|xs|) + more;
    ReadsNumber(|xs|, 4, more);
    ReadsMany(p, e, xs, tail);
  }

  lemma {:induction false} Regroup(a: Bytes, b: Bytes, c: Bytes)
    ensures (a + b) + c == a + (b + c)
  {
  }

  lemma {:induction false} ReadsTxIn(txin: TxIn)
    requires StorableTxIn(txin)
    ensures Undoes(TxInParser(), TxInEncoder(), txin)
  {
    forall tail ensures ParseTxIn(EncodeTxIn(txin) + tail) == Some((txin, tail)) {
      var pt := txin.txOutPt;
      var t3 := EncodeString(txin.signature);
      var t2 := U64(pt.txOutIndex) + t3;
      var t1 := U64(pt.txIndex) + t2;
      Regroup(U64(pt.blockIndex), t1, tail);
      Regroup(U64(pt.txIndex), t2, tail);
      Regroup(U64(pt.txOutIndex), t3, tail);
      ReadsNumber(pt.blockIndex, 8, t1 + tail);
      ReadsNumber(pt.txIndex, 8, t2 + tail);
      ReadsNumber(pt.txOutIndex, 8, t3 + tail);
      ReadsString(txin.signature, tail);
    }
  }

  lemma {:induction false} ReadsTxOut(d: DoubleCodec, txout: TxOut)
    requires StorableTxOut(d, txout)
    ensures Undoes(TxOutParser(d), TxOutEncoder(d), txout)
  {
    forall tail ensures ParseTxOut(d, EncodeTxOut(d, txout) + tail) == Some((txout, tail)) {
      var amount := d.encode(txout.amount);
      Regroup(EncodeString(txout.address), amount, tail);
      ReadsString(txout.address, amount + tail);
      assert (amount + tail)[..8] == amount && (amount + tail)[8..] == tail;
    }
  }

  lemma {:induction false} ReadsTransaction(d: DoubleCodec, tx: Transaction)
    requires StorableTransaction(d, tx)
    ensures Undoes(TransactionParser(d), TransactionEncoder(d), tx)
  {
    forall txin <- tx.txIns ensures Undoes(TxInParser(), TxInEncoder(), txin) {
      ReadsTxIn(txin);
    }
    forall txout <- tx.txOuts ensures Undoes(TxOutParser(d), TxOutEncoder(d), txout) {
      ReadsTxOut(d, txout);
    }
    forall tail ensures ParseTransaction(d, EncodeTransaction(d, tx) + tail) == Some((tx, tail)) {
      var t2 := EncodeList(TxOutEncoder(d), tx.txOuts);
      var t1 := EncodeList(TxInEncoder(), tx.txIns) + t2;
      Regroup(EncodeString(tx.id), t1, tail);
      Regroup(EncodeList(TxInEncoder(), tx.txIns), t2, tail);
      ReadsString(tx.id, t1 + tail);
      ReadsList(TxInParser(), TxInEncoder(), tx.txIns, t2 + tail);
      ReadsList(TxOutParser(d), TxOutEncoder(d), tx.txOuts, tail);
    }
  }

  lemma {:induction false} ReadsRest(d: DoubleCodec, b: Block, tail: Bytes)
    requires Storable(d, b)
    ensures ParseRest(d, EncodeRest(d, b) + tail) == Some(((b.hash, b.previousHash, b.miner, b.transactions), tail))
  {
    forall tx <- b.transactions ensures Undoes(TransactionParser(d), TransactionEncoder(d), tx) {
      ReadsTransaction(d, tx);
    }
    var t3 := EncodeList(TransactionEncoder(d), b.transactions);
    var t2 := EncodeString(b.miner) + t3;
    var t1 := EncodeString(b.previousHash) + t2;
    Regroup(EncodeString(b.hash), t1, tail);
    Regroup(EncodeString(b.previousHash), t2, tail);
    Regroup(EncodeString(b.miner), t3, tail);
    hide EncodeString, ParseString, EncodeList, ParseList;
    ReadsString(b.hash, t1 + tail);
    ReadsString(b.previousHash, t2 + tail);
    ReadsString(b.miner, t3 + tail);
    ReadsList(TransactionParser(d), TransactionEncoder(d), b.transactions, tail);
  }

  /** A block is read back exactly, and nothing beyond its own bytes is consumed. */
  lemma {:induction false} ReadsBlock(d: DoubleCodec, b: Block, tail: Bytes)
    requires Storable(d, b)
    ensures ParseBlock(d, EncodeBlock(d, b) + tail) == Some((b, tail))
  {
    var t5 := EncodeRest(d, b);
    var t4 := EncodeTime(b.time) + t5;
    var t3 := EncodeString(b.data) + t4;
    var t2 := U64(b.difficulty) + t3;
    var t1 := U64(b.nonce) + t2;
    Regroup(U64(b.index), t1, tail);
    Regroup(U64(b.nonce), t2, tail);
    Regroup(U64(b.difficulty), t3, tail);
    Regroup(EncodeString(b.data), t4, tail);
    Regroup(EncodeTime(b.time), t5, tail);
    hide EncodeString, ParseString, EncodeRest, ParseRest;
    ReadsNumber(b.index, 8, t1 + tail);
    ReadsNumber(b.nonce, 8, t2 + tail);
    ReadsNumber(b.difficulty, 8, t3 + tail);
    ReadsString(b.data, t4 + tail);
    ReadsTime(b.time, t5 + tail);
    ReadsRest(d, b, tail);
  }

  lemma {:induction false} FirstBlock(d: DoubleCodec, chain: seq<Block>)
    requires StorableChain(d, chain) && chain != []
    ensures StorableChain(d, chain[1..])
    ensures ParseBlock(d, EncodeChain(d, chain)) == Some((chain[0], EncodeChain(d, chain[1..])))
    ensures |EncodeChain(d, chain[1..])| < |EncodeChain(d, chain)|
  {
    assert chain[0] in chain;
    ReadsBlock(d, chain[0], EncodeChain(d, chain[1..]));
    BlockConsumes(d, EncodeChain(d, chain));
    assert forall b <- chain[1..] :: b in chain;
  }

  /** Reading a file to its end gives back the blocks that were written to it. */
  lemma {:induction false} ReadsChain(d: DoubleCodec, chain: seq<Block>)
    requires StorableChain(d, chain)
    ensures ParseChain(d, EncodeChain(d, chain)) == Some(chain)
  {
    if chain != [] {
      FirstBlock(d, chain);
      ReadsChain(d, chain[1..]);
      assert [chain[0]] + chain[1..] == chain;
    }
  }

  // ----- files grow at the end -----

  lemma {:induction false} ManyConcat<T>(e: T -> Bytes, a: seq<T>, b: seq<T>)
    ensures EncodeMany(e, a + b) == EncodeMany(e, a) + EncodeMany(e, b)
  {
    if a == [] {
      assert a + b == b;
    } else {
      ManyConcat(e, a[1..], b);
      assert (a + b)[0] == a[0] && (a + b)[1..] == a[1..] + b;
      Regroup(e(a[0]), EncodeMany(e, a[1..]), EncodeMany(e, b));
    }
  }

  lemma {:induction false} ChainSnoc(d: DoubleCodec, chain: seq<Block>, b: Block)
    ensures EncodeChain(d, chain + [b]) == EncodeChain(d, chain) + EncodeBlock(d, b)
  {
    ManyConcat(BlockEncoder(d), chain, [b]);
    assert EncodeMany(BlockEncoder(d), [b][1..]) == [];
  }

  lemma {:induction false} ManySnoc<T>(e: T -> Bytes, xs: seq<T>, x: T)
    ensures EncodeMany(e, xs + [x]) == EncodeMany(e, xs) + e(x)
  {
    ManyConcat(e, xs, [x]);
    assert EncodeMany(e, [x][1..]) == [];
  }
}
