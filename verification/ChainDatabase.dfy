/** The streams the chain file is written to and read from, and the file itself. */
module ChainDatabase {
  import opened Wrappers
  import opened Transactions
  import opened Blocks
  import opened Chains
  import opened ChainFile

  /** A stream opened for appending. */
  class OutStream {
    const doubles: DoubleCodec
    var bytes: Bytes

    constructor (doubles: DoubleCodec, bytes: Bytes)
      ensures this.doubles == doubles && this.bytes == bytes
    {
      this.doubles := doubles;
      this.bytes := bytes;
    }

    method WriteNumber(n: nat, size: nat)
      modifies this
      ensures bytes == old(bytes) + LittleEndian(n, size)
    {
      bytes := bytes + LittleEndian(n, size);
    }

    method WriteString(s: string)
      modifies this
      ensures bytes == old(bytes) + EncodeString(s)
    {
      var size := |s| % UINT32_SIZE;
      WriteNumber(size, 4);
      bytes := bytes + CharBytes(s[..size]);
      Regroup(old(bytes), U32(size), CharBytes(s[..size]));
    }

    method WriteDouble(a: Amount)
      modifies this
      ensures bytes == old(bytes) + doubles.encode(a)
    {
      bytes := bytes + doubles.encode(a);
    }

    method WriteTxIn(txin: TxIn)
      modifies this
      ensures bytes == old(bytes) + EncodeTxIn(txin)
    {
      WriteNumber(txin.txOutPt.blockIndex, 8);
      WriteNumber(txin.txOutPt.txIndex, 8);
      WriteNumber(txin.txOutPt.txOutIndex, 8);
      WriteString(txin.signature);
      var pt, sig := txin.txOutPt, EncodeString(txin.signature);
      Regroup(old(bytes) + U64(pt.blockIndex) + U64(pt.txIndex), U64(pt.txOutIndex), sig);
      Regroup(old(bytes) + U64(pt.blockIndex), U64(pt.txIndex), U64(pt.txOutIndex) + sig);
      Regroup(old(bytes), U64(pt.blockIndex), U64(pt.txIndex) + (U64(pt.txOutIndex) + sig));
    }

    method WriteTxOut(txout: TxOut)
      modifies this
      ensures bytes == old(bytes) + EncodeTxOut(doubles, txout)
    {
      WriteString(txout.address);
      WriteDouble(txout.amount);
      Regroup(old(bytes), EncodeString(txout.address), doubles.encode(txout.amount));
    }

    method WriteTxIns(txins: seq<TxIn>)
      modifies this
      ensures bytes == old(bytes) + EncodeList(TxInEncoder(), txins)
    {
      WriteNumber(|txins| % UINT32_SIZE, 4);
      ghost var start := bytes;
      for i := 0 to |txins|
        invariant bytes == start + EncodeMany(TxInEncoder(), txins[..i])
      {
        WriteTxIn(txins[i]);
        ManySnoc(TxInEncoder(), txins[..i], txins[i]);
        assert txins[..i + 1] == txins[..i] + [txins[i]];
        Regroup(start, EncodeMany(TxInEncoder(), txins[..i]), EncodeTxIn(txins[i]));
      }
      assert txins[..|txins|] == txins;
      Regroup(old(bytes), U32(|txins| % UINT32_SIZE), EncodeMany(TxInEncoder(), txins));
    }

    method WriteTxOuts(txouts: seq<TxOut>)
      modifies this
      ensures bytes == old(bytes) + EncodeList(TxOutEncoder(doubles), txouts)
    {
      WriteNumber(|txouts| % UINT32_SIZE, 4);
      ghost var start := bytes;
      for i := 0 to |txouts|
        invariant bytes == start + EncodeMany(TxOutEncoder(doubles), txouts[..i])
      {
        WriteTxOut(txouts[i]);
        ManySnoc(TxOutEncoder(doubles), txouts[..i], txouts[i]);
        assert txouts[..i + 1] == txouts[..i] + [txouts[i]];
        Regroup(start, EncodeMany(TxOutEncoder(doubles), txouts[..i]), EncodeTxOut(doubles, txouts[i]));
      }
      assert txouts[..|txouts|] == txouts;
      Regroup(old(bytes), U32(|txouts| % UINT32_SIZE), EncodeMany(TxOutEncoder(doubles), txouts));
    }

    method WriteTransaction(tx: Transaction)
      modifies this
      ensures bytes == old(bytes) + EncodeTransaction(doubles, tx)
    {
      WriteString(tx.id);
      WriteTxIns(tx.txIns);
      WriteTxOuts(tx.txOuts);
      var ins, outs := EncodeList(TxInEncoder(), tx.txIns), EncodeList(TxOutEncoder(doubles), tx.txOuts);
      Regroup(old(bytes) + EncodeString(tx.id), ins, outs);
      Regroup(old(bytes), EncodeString(tx.id), ins + outs);
    }

    method WriteTransactions(txs: seq<Transaction>)
      modifies this
      ensures bytes == old(bytes) + EncodeList(TransactionEncoder(doubles), txs)
    {
      WriteNumber(|txs| % UINT32_SIZE, 4);
      ghost var start := bytes;
      for i := 0 to |txs|
        invariant bytes == start + EncodeMany(TransactionEncoder(doubles), txs[..i])
      {
        WriteTransaction(txs[i]);
        ManySnoc(TransactionEncoder(doubles), txs[..i], txs[i]);
        assert txs[..i + 1] == txs[..i] + [txs[i]];
        Regroup(start, EncodeMany(TransactionEncoder(doubles), txs[..i]), EncodeTransaction(doubles, txs[i]));
      }
      assert txs[..|txs|] == txs;
      Regroup(old(bytes), U32(|txs| % UINT32_SIZE), EncodeMany(TransactionEncoder(doubles), txs));
    }

    method WriteBlock(b: Block)
      modifies this
      ensures bytes == old(bytes) + EncodeBlock(doubles, b)
    {
      WriteNumber(b.index, 8);
      WriteNumber(b.nonce, 8);
      WriteNumber(b.difficulty, 8);
      WriteString(b.data);
      WriteNumber(b.time % UINT64_SIZE, 8);
      WriteString(b.hash);
      WriteString(b.previousHash);
      WriteString(b.miner);
      WriteTransactions(b.transactions);
      RegroupBlock(old(bytes), U64(b.index), U64(b.nonce), U64(b.difficulty), EncodeString(b.data), EncodeTime(b.time),
                   EncodeString(b.hash), EncodeString(b.previousHash), EncodeString(b.miner),
                   EncodeList(TransactionEncoder(doubles), b.transactions));
    }
  }

  lemma {:induction false} RegroupBlock(s: Bytes, a: Bytes, b: Bytes, c: Bytes, d: Bytes, e: Bytes, f: Bytes,
                                        g: Bytes, h: Bytes, i: Bytes)
    ensures s + a + b + c + d + e + f + g + h + i == s + (a + (b + (c + (d + (e + (f + (g + (h + i))))))))
  {
    Regroup(s + a + b + c + d + e + f + g, h, i);
    Regroup(s + a + b + c + d + e + f, g, h + i);
    Regroup(s + a + b + c + d + e, f, g + (h + i));
    Regroup(s + a + b + c + d, e, f + (g + (h + i)));
    Regroup(s + a + b + c, d, e + (f + (g + (h + i))));
    Regroup(s + a + b, c, d + (e + (f + (g + (h + i)))));
    Regroup(s + a, b, c + (d + (e + (f + (g + (h + i))))));
    Regroup(s, a, b + (c + (d + (e + (f + (g + (h + i)))))));
  }

  /** What a reader delivers, compared with the parser: a read that runs out of bytes marks the stream as
      failed and leaves its result undefined, and every later read fails too. */
  ghost predicate Reads<T>(was: bool, expected: Parsed<T>, failed: bool, value: T, rest: Bytes) {
    && (was ==> failed)
    && (!was ==> (failed <==> expected.None?))
    && (!failed ==> expected == Some((value, rest)))
  }

  class InStream {
    const doubles: DoubleCodec
    var rest: Bytes
    var failed: bool

    constructor (doubles: DoubleCodec, bytes: Bytes)
      ensures this.doubles == doubles && rest == bytes && !failed
    {
      this.doubles := doubles;
      rest := bytes;
      failed := false;
    }

    method ReadNumber(size: nat) returns (n: nat)
      modifies this
      ensures Reads(old(failed), ParseNumber(size, old(rest)), failed, n, rest)
    {
      n := *;
      if failed || |rest| < size {
        failed := true;
      } else {
        n := Number(rest[..size]);
        rest := rest[size..];
      }
    }

    method ReadString() returns (s: string)
      modifies this
      ensures Reads(old(failed), ParseString(old(rest)), failed, s, rest)
    {
      var len := ReadNumber(4);
      s := "";
      if failed || |rest| < len {
        failed := true;
      } else {
        s := ByteChars(rest[..len]);
        rest := rest[len..];
      }
    }

    method ReadDouble() returns (a: Amount)
      modifies this
      ensures Reads(old(failed), ParseDouble(doubles, old(rest)), failed, a, rest)
    {
      a := *;
      if failed || |rest| < 8 {
        failed := true;
      } else {
        a := doubles.decode(rest[..8]);
        rest := rest[8..];
      }
    }

    method ReadTxIn() returns (txin: TxIn)
      modifies this
      ensures Reads(old(failed), ParseTxIn(old(rest)), failed, txin, rest)
    {
      var block := ReadNumber(8);
      var tx := ReadNumber(8);
      var out := ReadNumber(8);
      var signature := ReadString();
      txin := PlainTxIn(OutPoint(block, tx, out), signature);
    }

    method ReadTxOut() returns (txout: TxOut)
      modifies this
      ensures Reads(old(failed), ParseTxOut(doubles, old(rest)), failed, txout, rest)
    {
      var address := ReadString();
      var amount := ReadDouble();
      txout := TxOut(address, amount);
    }

    method ReadTxIns() returns (txins: seq<TxIn>)
      modifies this
      ensures Reads(old(failed), ParseList(TxInParser(), old(rest)), failed, txins, rest)
    {
      var count := ReadNumber(4);
      ghost var was, start := failed, rest;
      txins := [];
      for x := 0 to count
        invariant Reads(was, ParseMany(TxInParser(), x, start), failed, txins, rest)
      {
        ManyOneMore(TxInParser(), x, start);
        var txin := ReadTxIn();
        txins := txins + [txin];
      }
    }

    method ReadTxOuts() returns (txouts: seq<TxOut>)
      modifies this
      ensures Reads(old(failed), ParseList(TxOutParser(doubles), old(rest)), failed, txouts, rest)
    {
      var count := ReadNumber(4);
      ghost var was, start := failed, rest;
      txouts := [];
      for x := 0 to count
        invariant Reads(was, ParseMany(TxOutParser(doubles), x, start), failed, txouts, rest)
      {
        ManyOneMore(TxOutParser(doubles), x, start);
        var txout := ReadTxOut();
        txouts := txouts + [txout];
      }
    }

    method ReadTransaction() returns (tx: Transaction)
      modifies this
      ensures Reads(old(failed), ParseTransaction(doubles, old(rest)), failed, tx, rest)
    {
      var id := ReadString();
      var txIns := ReadTxIns();
      var txOuts := ReadTxOuts();
      tx := Transaction(id, txIns, txOuts);
    }

    method ReadTransactions() returns (txs: seq<Transaction>)
      modifies this
      ensures Reads(old(failed), ParseList(TransactionParser(doubles), old(rest)), failed, txs, rest)
    {
      var count := ReadNumber(4);
      ghost var was, start := failed, rest;
      txs := [];
      for x := 0 to count
        invariant Reads(was, ParseMany(TransactionParser(doubles), x, start), failed, txs, rest)
      {
        ManyOneMore(TransactionParser(doubles), x, start);
        var tx := ReadTransaction();
        txs := txs + [tx];
      }
    }

    method ReadBlock() returns (b: Block)
      modifies this
      ensures Reads(old(failed), ParseBlock(doubles, old(rest)), failed, b, rest)
    {
      var index := ReadNumber(8);
      var nonce := ReadNumber(8);
      var difficulty := ReadNumber(8);
      var data := ReadString();
      var time := ReadNumber(8);
      var hash := ReadString();
      var previousHash := ReadString();
      var miner := ReadString();
      var transactions := ReadTransactions();
      b := Block(index, nonce, difficulty, data, SignedTime(time), previousHash, transactions, hash, miner);
    }
  }

  /** Reading one element more. */
  lemma {:induction false} ManyOneMore<T(!new)>(p: Bytes -> Parsed<T>, n: nat, s: Bytes)
    ensures ParseMany(p, n, s).None? ==> ParseMany(p, n + 1, s).None?
    ensures ParseMany(p, n, s).Some? ==>
              var (xs, rest) := ParseMany(p, n, s).value;
              ParseMany(p, n + 1, s) == if p(rest).None? then None else Some((xs + [p(rest).value.0], p(rest).value.1))
  {
    if n == 0 {
      if p(s).Some? {
        var (x, rest) := p(s).value;
        assert ParseMany(p, 0, rest) == Some(([], rest));
        assert [x] + [] == [] + [x];
      }
    } else if p(s).Some? {
      var (x, s1) := p(s).value;
      ManyOneMore(p, n - 1, s1);
      if ParseMany(p, n - 1, s1).Some? {
        var (xs, rest) := ParseMany(p, n - 1, s1).value;
        if p(rest).Some? {
          assert [x] + (xs + [p(rest).value.0]) == ([x] + xs) + [p(rest).value.0];
        }
      }
    }
  }

  /** One turn of the loop that reads a file. */
  lemma {:induction false} LoadStep(d: DoubleCodec, s: Bytes, loaded: seq<Block>)
    requires s != []
    ensures ParseBlock(d, s).None? ==> ParseChain(d, s).None?
    ensures ParseBlock(d, s).Some? ==>
              var (b, rest) := ParseBlock(d, s).value;
              && |rest| < |s|
              && (ParseChain(d, s).Some? <==> ParseChain(d, rest).Some?)
              && (ParseChain(d, s).Some? ==>
                    loaded + ParseChain(d, s).value == (loaded + [b]) + ParseChain(d, rest).value)
  {
    BlockConsumes(d, s);
    if ParseChain(d, s).Some? {
      var (b, rest) := ParseBlock(d, s).value;
      assert loaded + ([b] + ParseChain(d, rest).value) == (loaded + [b]) + ParseChain(d, rest).value;
    }
  }

  class ChainDatabase {
    const doubles: DoubleCodec
    var file: Option<Bytes>

    constructor (doubles: DoubleCodec, file: Option<Bytes>)
      ensures this.doubles == doubles && this.file == file
    {
      this.doubles := doubles;
      this.file := file;
    }

    /** Appends; a file that is not there is created. */
    method Write(block: Block)
      modifies this
      ensures file == Some(OnDisk(old(file)) + EncodeBlock(doubles, block))
    {
      var ofs := new OutStream(doubles, OnDisk(file));
      ofs.WriteBlock(block);
      file := Some(ofs.bytes);
    }

    /** Appends as well: a rewrite is a reset followed by this. */
    method WriteChain(chain: seq<Block>)
      modifies this
      ensures file == Some(OnDisk(old(file)) + EncodeChain(doubles, chain))
    {
      var ofs := new OutStream(doubles, OnDisk(file));
      ghost var start := ofs.bytes;
      for i := 0 to |chain|
        invariant ofs.bytes == start + EncodeChain(doubles, chain[..i])
        invariant ofs.doubles == doubles
      {
        ofs.WriteBlock(chain[i]);
        assert chain[..i + 1] == chain[..i] + [chain[i]];
        ChainSnoc(doubles, chain[..i], chain[i]);
        Regroup(start, EncodeChain(doubles, chain[..i]), EncodeBlock(doubles, chain[i]));
      }
      assert chain[..|chain|] == chain;
      file := Some(ofs.bytes);
    }

    method Reset()
      modifies this
      ensures file == None
    {
      file := None;
    }

    /** The loop of `Initialize`: blocks are read until the end of the file. */
    method Load(blockchain: Blockchain, bytes: Bytes)
      modifies blockchain`blocks
      ensures ParseChain(doubles, bytes).Some? ==>
                blockchain.blocks == old(blockchain.blocks) + ParseChain(doubles, bytes).value
    {
      var ifs := new InStream(doubles, bytes);
      ghost var all := ParseChain(doubles, bytes);
      ghost var loaded: seq<Block> := [];
      while !ifs.failed && ifs.rest != []
        invariant ifs.doubles == doubles && fresh(ifs)
        invariant blockchain.blocks == old(blockchain.blocks) + loaded
        invariant all.Some? ==> !ifs.failed && ParseChain(doubles, ifs.rest).Some?
                                && all.value == loaded + ParseChain(doubles, ifs.rest).value
        decreases if ifs.failed then 0 else |ifs.rest| + 1
      {
        LoadStep(doubles, ifs.rest, loaded);
        var block := ifs.ReadBlock();
        blockchain.blocks := blockchain.blocks + [block];
        loaded := loaded + [block];
      }
    }

    /** The blocks of the file are added to those the chain has. When the file ends in the middle of a
        block, the last block added is not determined. The result says whether "invalid chain" is not thrown. */
    method Initialize(blockchain: Blockchain, genesis: Block) returns (ok: bool)
      modifies this, blockchain`blocks
      ensures file == if old(file).Some? then old(file) else Some(EncodeBlock(doubles, genesis))
      ensures ParseChain(doubles, OnDisk(file)).Some? ==>
                blockchain.blocks == old(blockchain.blocks) + ParseChain(doubles, OnDisk(file)).value
      ensures ok <==> ValidChain(blockchain.crypto, blockchain.blocks)
    {
      if file.None? {
        Write(genesis);
        assert [] + EncodeBlock(doubles, genesis) == EncodeBlock(doubles, genesis);
      }
      Load(blockchain, file.value);
      ok := blockchain.IsValidChain();
    }
  }
}
