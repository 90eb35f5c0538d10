/** Where the parts of a block are in the file. */
module FileLayout {
  import opened Transactions
  import opened Blocks
  import opened Retarget
  import opened ChainFile

  /** Byte i of a number is its digit i in base 256, the lowest first. */
  lemma {:induction false} ByteOfNumber(n: nat, k: nat, i: nat)
    requires i < k
    ensures LittleEndian(n, k)[i] == (n / Pow256(i)) % 256
  {
    if i > 0 {
      ByteOfNumber(n / 256, k - 1, i - 1);
      assert LittleEndian(n, k)[i] == LittleEndian(n / 256, k - 1)[i - 1];
      DivideTwice(n, Pow256(i - 1));
    }
  }

  lemma {:induction false} DivideTwice(n: nat, p: nat)
    requires p >= 1
    ensures 256 * p >= 1 && n / 256 / p == n / (256 * p)
  {
    var a, b := n / 256, n % 256;
    var q, r := a / p, a % p;
    assert a == q * p + r;
    assert n == q * (256 * p) + (256 * r + b);
    assert 256 * r + b < 256 * p;
    QuotientIs(n, 256 * p, q, 256 * r + b);
  }

  /** At this place stands a number of eight bytes, or a string after four bytes with its length. */
  ghost predicate HasNumber(s: Bytes, at: nat, n: nat) {
    at + 8 <= |s| && Number(s[at..at + 8]) == n
  }

  ghost predicate HasString(s: Bytes, at: nat, text: string) {
    && at + 4 + |text| <= |s|
    && Number(s[at..at + 4]) == |text|
    && forall i :: 0 <= i < |text| ==> s[at + 4 + i] == text[i] as int
  }

  ghost predicate HasCount(s: Bytes, at: nat, n: nat) {
    at + 4 <= |s| && Number(s[at..at + 4]) == n
  }

  /** Of a string that is too long for its length, what fits is written: its length modulo 2^32. */
  lemma {:induction false} LongStringIsCut(text: string)
    ensures var fits := text[..|text| % UINT32_SIZE];
            |fits| < UINT32_SIZE && EncodeString(text) == EncodeString(fits)
  {
    var fits := text[..|text| % UINT32_SIZE];
    assert fits[..|fits| % UINT32_SIZE] == fits;
  }

  /** Of a list that is too long all elements are written, behind a count modulo 2^32. */
  lemma {:induction false} LongListIsMiscounted<T>(e: T -> Bytes, xs: seq<T>)
    ensures var s := EncodeList(e, xs); |s| >= 4 && Number(s[..4]) == |xs| % UINT32_SIZE && s[4..] == EncodeMany(e, xs)
  {
    Sizes();
    NumberReads(|xs| % UINT32_SIZE, 4);
    assert EncodeList(e, xs)[..4] == U32(|xs| % UINT32_SIZE);
  }

  // ----- one part after the other -----

  lemma {:induction false} NumberPart(s: Bytes, before: Bytes, n: nat, rest: Bytes)
    requires s == before + (U64(n) + rest) && n < UINT64_SIZE
    ensures HasNumber(s, |before|, n)
    ensures s == (before + U64(n)) + rest && |before + U64(n)| == |before| + 8
  {
    Sizes();
    NumberReads(n, 8);
    Regroup(before, U64(n), rest);
    assert s[|before|..|before| + 8] == U64(n);
  }

  lemma {:induction false} TimePart(s: Bytes, before: Bytes, time: int, rest: Bytes)
    requires s == before + (EncodeTime(time) + rest)
    ensures HasNumber(s, |before|, time % UINT64_SIZE)
    ensures s == (before + EncodeTime(time)) + rest && |before + EncodeTime(time)| == |before| + 8
  {
    NumberPart(s, before, time % UINT64_SIZE, rest);
  }

  lemma {:induction false} CountPart(s: Bytes, before: Bytes, n: nat, rest: Bytes)
    requires s == before + (U32(n) + rest) && n < UINT32_SIZE
    ensures HasCount(s, |before|, n)
    ensures s == (before + U32(n)) + rest && |before + U32(n)| == |before| + 4
  {
    Sizes();
    NumberReads(n, 4);
    Regroup(before, U32(n), rest);
    assert s[|before|..|before| + 4] == U32(n);
  }

  /** A string that fits is its length and then its characters. */
  lemma {:induction false} StringIs(text: string)
    requires StorableString(text)
    ensures EncodeString(text) == U32(|text|) + CharBytes(text) && |text| < UINT32_SIZE
    ensures forall i :: 0 <= i < |text| ==> CharBytes(text)[i] == text[i] as int
  {
    assert text[..|text|] == text;
    forall i | 0 <= i < |text| ensures CharBytes(text)[i] == text[i] as int {
      assert text[i] in text;
    }
  }

  lemma {:induction false} TextAfterCount(s: Bytes, before: Bytes, count: Bytes, chars: Bytes, rest: Bytes,
                                          text: string)
    requires s == before + ((count + chars) + rest) && |count| == 4 && Number(count) == |text| == |chars|
    requires forall i :: 0 <= i < |text| ==> chars[i] == text[i] as int
    ensures HasString(s, |before|, text)
  {
    hide Number;
    assert s[|before|..|before| + 4] == count;
    forall i | 0 <= i < |text| ensures s[|before| + 4 + i] == text[i] as int {
      assert s[|before| + 4 + i] == (count + chars)[4 + i] == chars[i];
    }
  }

  lemma {:induction false} CountReads(text: string)
    requires |text| < UINT32_SIZE
    ensures |U32(|text|)| == 4 && Number(U32(|text|)) == |text| == |CharBytes(text)|
  {
    Sizes();
    NumberReads(|text|, 4);
  }

  lemma {:induction false} StringPart(s: Bytes, before: Bytes, text: string, rest: Bytes)
    requires s == before + (EncodeString(text) + rest) && StorableString(text)
    ensures HasString(s, |before|, text)
    ensures s == (before + EncodeString(text)) + rest && |before + EncodeString(text)| == |before| + 4 + |text|
  {
    hide *;
    StringIs(text);
    CountReads(text);
    TextAfterCount(s, before, U32(|text|), CharBytes(text), rest, text);
    Regroup(before, EncodeString(text), rest);
    BothLong(before, U32(|text|), CharBytes(text));
  }

  lemma {:induction false} BothLong(a: Bytes, b: Bytes, c: Bytes)
    ensures |a + (b + c)| == |a| + |b| + |c|
  {
  }

  // ----- the layout -----

  lemma {:induction false} Nothing(x: Bytes)
    ensures [] + x == x
  {
  }

  lemma {:induction false} ListIs<T>(e: T -> Bytes, xs: seq<T>)
    requires |xs| < UINT32_SIZE
    ensures EncodeList(e, xs) == U32(|xs|) + EncodeMany(e, xs)
  {
    FitsInFour(|xs|);
    hide U32, EncodeMany;
  }

  lemma {:induction false} FitsInFour(n: nat)
    requires n < UINT32_SIZE
    ensures n % UINT32_SIZE == n
  {
  }

  lemma {:induction false} FieldsAreStorable(d: DoubleCodec, b: Block)
    requires Storable(d, b)
    ensures b.index < UINT64_SIZE && b.nonce < UINT64_SIZE && b.difficulty < UINT64_SIZE
    ensures StorableString(b.data) && StorableString(b.hash)
    ensures StorableString(b.previousHash) && StorableString(b.miner)
    ensures |b.transactions| < UINT32_SIZE
  {
  }

  lemma {:induction false} BlockParts(d: DoubleCodec, b: Block)
    ensures EncodeBlock(d, b)
         == U64(b.index) + (U64(b.nonce) + (U64(b.difficulty) + (EncodeString(b.data) + (EncodeTime(b.time)
            + (EncodeString(b.hash) + (EncodeString(b.previousHash) + (EncodeString(b.miner)
            + EncodeList(TransactionEncoder(d), b.transactions))))))))
  {
    hide EncodeString, U64, EncodeTime, EncodeList;
  }

  /** A block: index, nonce and difficulty, the data, the time in two's complement, hash, previous hash and miner,
      and then how many transactions follow. */
  lemma {:induction false} BlockLayout(d: DoubleCodec, b: Block)
    requires Storable(d, b)
    ensures var s := EncodeBlock(d, b);
            var t := 28 + |b.data|;
            var h := t + 8;
            var p := h + 4 + |b.hash|;
            var m := p + 4 + |b.previousHash|;
            && HasNumber(s, 0, b.index) && HasNumber(s, 8, b.nonce) && HasNumber(s, 16, b.difficulty)
            && HasString(s, 24, b.data) && HasNumber(s, t, b.time % UINT64_SIZE)
            && HasString(s, h, b.hash) && HasString(s, p, b.previousHash) && HasString(s, m, b.miner)
            && HasCount(s, m + 4 + |b.miner|, |b.transactions|)
  {
    hide *;
    BlockParts(d, b);
    Nothing(EncodeBlock(d, b));
    FieldsAreStorable(d, b);
    ListIs(TransactionEncoder(d), b.transactions);
    var s, txs := EncodeBlock(d, b), EncodeMany(TransactionEncoder(d), b.transactions);
    var r8 := U32(|b.transactions|) + txs;
    var r7 := EncodeString(b.miner) + r8;
    var r6 := EncodeString(b.previousHash) + r7;
    var r5 := EncodeString(b.hash) + r6;
    var r4 := EncodeTime(b.time) + r5;
    var r3 := EncodeString(b.data) + r4;
    var r2 := U64(b.difficulty) + r3;
    NumberPart(s, [], b.index, U64(b.nonce) + r2);
    var at := [] + U64(b.index);
    NumberPart(s, at, b.nonce, r2);
    at := at + U64(b.nonce);
    NumberPart(s, at, b.difficulty, r3);
    at := at + U64(b.difficulty);
    StringPart(s, at, b.data, r4);
    at := at + EncodeString(b.data);
    TimePart(s, at, b.time, r5);
    at := at + EncodeTime(b.time);
    StringPart(s, at, b.hash, r6);
    at := at + EncodeString(b.hash);
    StringPart(s, at, b.previousHash, r7);
    at := at + EncodeString(b.previousHash);
    StringPart(s, at, b.miner, r8);
    at := at + EncodeString(b.miner);
    CountPart(s, at, |b.transactions|, txs);
  }

  /** An input: block, transaction and output it refers to, and the signature. */
  lemma {:induction false} InputLayout(txin: TxIn)
    requires StorableTxIn(txin)
    ensures var s := EncodeTxIn(txin);
            && HasNumber(s, 0, txin.txOutPt.blockIndex) && HasNumber(s, 8, txin.txOutPt.txIndex)
            && HasNumber(s, 16, txin.txOutPt.txOutIndex) && HasString(s, 24, txin.signature)
            && |s| == 28 + |txin.signature|
  {
    var pt, sig, s := txin.txOutPt, EncodeString(txin.signature), EncodeTxIn(txin);
    assert s == [] + (U64(pt.blockIndex) + (U64(pt.txIndex) + (U64(pt.txOutIndex) + (sig + []))));
    hide EncodeString, EncodeTxIn, HasNumber, HasString, U64, StorableString;
    NumberPart(s, [], pt.blockIndex, U64(pt.txIndex) + (U64(pt.txOutIndex) + (sig + [])));
    var at := [] + U64(pt.blockIndex);
    NumberPart(s, at, pt.txIndex, U64(pt.txOutIndex) + (sig + []));
    at := at + U64(pt.txIndex);
    NumberPart(s, at, pt.txOutIndex, sig + []);
    at := at + U64(pt.txOutIndex);
    StringPart(s, at, txin.signature, []);
  }

  /** An output: the payee, and eight bytes for the amount. */
  lemma {:induction false} OutputLayout(d: DoubleCodec, txout: TxOut)
    requires StorableTxOut(d, txout)
    ensures var s := EncodeTxOut(d, txout);
            && HasString(s, 0, txout.address) && |s| == 12 + |txout.address|
            && s[4 + |txout.address|..] == d.encode(txout.amount)
  {
    var s, value := EncodeTxOut(d, txout), d.encode(txout.amount);
    assert s == [] + (EncodeString(txout.address) + value);
    StringPart(s, [], txout.address, value);
    var before := [] + EncodeString(txout.address);
    assert s == before + value && |before| == 4 + |txout.address|;
  }

  lemma {:induction false} TransactionParts(d: DoubleCodec, tx: Transaction)
    requires StorableTransaction(d, tx)
    ensures EncodeTransaction(d, tx)
         == EncodeString(tx.id) + (EncodeList(TxInEncoder(), tx.txIns) + EncodeList(TxOutEncoder(d), tx.txOuts))
    ensures StorableString(tx.id) && |tx.txIns| < UINT32_SIZE && |tx.txOuts| < UINT32_SIZE
  {
    hide EncodeString, EncodeList, StorableTxIn, StorableTxOut, StorableString;
  }

  /** A transaction: the identifier, how many inputs there are and the inputs one by one, and the same for the
      outputs. */
  lemma {:induction false} TransactionLayout(d: DoubleCodec, tx: Transaction)
    requires StorableTransaction(d, tx)
    ensures var s := EncodeTransaction(d, tx);
            var ins, outs := EncodeMany(TxInEncoder(), tx.txIns), EncodeMany(TxOutEncoder(d), tx.txOuts);
            var i := 4 + |tx.id|;
            var o := i + 4 + |ins|;
            && HasString(s, 0, tx.id)
            && HasCount(s, i, |tx.txIns|) && |s| == o + 4 + |outs| && s[i + 4..o] == ins
            && HasCount(s, o, |tx.txOuts|) && s[o + 4..] == outs
  {
    hide *;
    TransactionParts(d, tx);
    Nothing(EncodeTransaction(d, tx));
    ListIs(TxInEncoder(), tx.txIns);
    ListIs(TxOutEncoder(d), tx.txOuts);
    Regroup(U32(|tx.txIns|), EncodeMany(TxInEncoder(), tx.txIns), EncodeList(TxOutEncoder(d), tx.txOuts));
    var s := EncodeTransaction(d, tx);
    var ins, outs := EncodeMany(TxInEncoder(), tx.txIns), EncodeMany(TxOutEncoder(d), tx.txOuts);
    StringPart(s, [], tx.id, U32(|tx.txIns|) + (ins + (U32(|tx.txOuts|) + outs)));
    var at := [] + EncodeString(tx.id);
    CountPart(s, at, |tx.txIns|, ins + (U32(|tx.txOuts|) + outs));
    at := at + U32(|tx.txIns|);
    Regroup(at, ins, U32(|tx.txOuts|) + outs);
    CountPart(s, at + ins, |tx.txOuts|, outs);
    assert s[|at|..|at| + |ins|] == ins;
    assert s[|at + ins| + 4..] == outs;
  }
}
