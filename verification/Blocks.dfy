/** Blocks, their hashes, and what a valid chain is. */
module Blocks {
  import opened Transactions

  /** Code the program takes from elsewhere: SHA-256 in hexadecimal, the JSON text of a list of
      transactions, and the text a stream makes of an amount. */
  datatype Crypto = Crypto(sha256: string -> string,
                           dump: seq<Transaction> -> string,
                           amountText: Amount -> string)

  const HASH_LENGTH := 64

  /** Indices, nonces and difficulties are 64-bit; arithmetic on them wraps around. */
  const UINT64_SIZE := 0x1_0000_0000_0000_0000

  ghost predicate HexDigests(c: Crypto) {
    forall s :: |c.sha256(s)| == HASH_LENGTH
  }

  datatype Block = Block(index: nat, nonce: nat, difficulty: nat, data: string, time: int,
                         previousHash: string, transactions: seq<Transaction>,
                         hash: string, miner: string)
  {
    function SetMinedData(nonce: nat, difficulty: nat, time: int, hash: string): Block {
      this.(nonce := nonce, difficulty := difficulty, time := time, hash := hash)
    }

    function SetData(data: string): Block {
      this.(data := data)
    }

    function SetMiner(miner: string): Block {
      this.(miner := miner)
    }

    /** The program's own equality: four fields only. */
    predicate SameHeader(other: Block) {
      index == other.index && nonce == other.nonce && data == other.data && time == other.time
    }
  }

  /** Blocks that the program takes for equal may differ in everything else. */
  lemma {:induction false} HeaderIs(b: Block, other: Block)
    ensures b.SameHeader(other) <==>
            other == b.(difficulty := other.difficulty, previousHash := other.previousHash,
                        transactions := other.transactions, hash := other.hash, miner := other.miner)
  {
  }

  function Digits(n: nat): string {
    if n < 10 then ["0123456789"[n]] else Digits(n / 10) + ["0123456789"[n % 10]]
  }

  function Decimal(n: int): string {
    if n < 0 then "-" + Digits(-n) else Digits(n)
  }

  /** The text that is hashed: the fields one after the other, nothing between them. */
  function HeaderText(index: nat, nonce: nat, difficulty: nat, time: int,
                      data: string, previous: string, extra: string): string {
    Decimal(index) + Decimal(nonce) + Decimal(difficulty) + data + Decimal(time) + previous + extra
  }

  function BlockText(c: Crypto, b: Block): string {
    HeaderText(b.index, b.nonce, b.difficulty, b.time, b.data, b.previousHash, c.sha256(c.dump(b.transactions)))
  }

  function CalculateBlockHash(c: Crypto, b: Block): string {
    c.sha256(BlockText(c, b))
  }

  /** Comparing the first `difficulty` characters, as many as there are, with that many zeros. */
  predicate StartsWithZeros(hash: string, difficulty: nat): (r: bool)
    ensures r <==> difficulty <= |hash| && forall i :: 0 <= i < difficulty ==> hash[i] == '0'
  {
    var prefix := if difficulty <= |hash| then hash[..difficulty] else hash;
    var zeros := seq(difficulty, _ => '0');
    assert prefix == zeros ==> |prefix| == |zeros| && forall i :: 0 <= i < difficulty ==> hash[i] == zeros[i];
    prefix == zeros
  }

  predicate ValidHash(c: Crypto, b: Block) {
    CalculateBlockHash(c, b) == b.hash && StartsWithZeros(b.hash, b.difficulty)
  }

  /** What the constructor makes; `now` is the clock. */
  function NewBlock(c: Crypto, index: nat, previous: string, txs: seq<Transaction>, now: int): Block {
    var b := Block(index, 0, 1, "", now, previous, txs, "", "");
    b.(hash := CalculateBlockHash(c, b))
  }

  predicate ValidPair(c: Crypto, prev: Block, b: Block) {
    b.index == prev.index + 1 && b.previousHash == prev.hash && CalculateBlockHash(c, b) == b.hash
  }

  /** Every block but the first follows from the one before it. Nothing is asked of the first. */
  predicate ValidChain(c: Crypto, chain: seq<Block>) {
    forall i :: 1 <= i < |chain| ==> ValidPair(c, chain[i - 1], chain[i])
  }

  /** What the program keeps true of a node's chain. */
  ghost predicate GoodChain(c: Crypto, chain: seq<Block>) {
    && |chain| > 0
    && (forall i :: 0 <= i < |chain| ==> chain[i].index == i)
    && (forall i :: 1 <= i < |chain| ==> chain[i].previousHash == chain[i - 1].hash)
    && (forall i :: 1 <= i < |chain| ==> ValidHash(c, chain[i]))
  }

  lemma {:induction false} GoodIsValid(c: Crypto, chain: seq<Block>)
    requires GoodChain(c, chain)
    ensures ValidChain(c, chain)
  {
  }
}
