/** The hash of the last block fixes what happened before it, unless two different texts are known
    that the program cannot tell apart. */
module History {
  import opened Transactions
  import opened Blocks

  predicate ShaCollision(c: Crypto, x: string, y: string) {
    x != y && c.sha256(x) == c.sha256(y)
  }

  predicate DumpCollision(c: Crypto, x: seq<Transaction>, y: seq<Transaction>) {
    x != y && c.dump(x) == c.dump(y)
  }

  /** The two blocks are a witness that SHA-256, or the text of the transactions, is not injective. */
  predicate Collide(c: Crypto, x: Block, y: Block) {
    || ShaCollision(c, BlockText(c, x), BlockText(c, y))
    || ShaCollision(c, c.dump(x.transactions), c.dump(y.transactions))
    || DumpCollision(c, x.transactions, y.transactions)
  }

  ghost predicate CollisionFound(c: Crypto, a: seq<Block>, b: seq<Block>) {
    exists i :: 1 <= i < |a| && i < |b| && Collide(c, a[i], b[i])
  }

  /** Two texts that are equal and end in parts of equal length have equal parts. */
  lemma {:induction false} SuffixesAgree(p: string, x: string, q: string, y: string)
    requires p + x == q + y && |x| == |y|
    ensures p == q && x == y
  {
    assert |p| == |q|;
    assert p == (p + x)[..|p|];
    assert q == (q + y)[..|q|];
    assert x == (p + x)[|p|..];
    assert y == (q + y)[|q|..];
  }

  /** One step back: blocks with equal hashes have the same predecessor and the same transactions. */
  lemma {:induction false} HashFixesBlock(c: Crypto, x: Block, y: Block)
    requires HexDigests(c)
    requires CalculateBlockHash(c, x) == x.hash && CalculateBlockHash(c, y) == y.hash
    requires |x.previousHash| == |y.previousHash|
    requires x.hash == y.hash && !Collide(c, x, y)
    ensures x.previousHash == y.previousHash && x.transactions == y.transactions
  {
    var ex, ey := c.sha256(c.dump(x.transactions)), c.sha256(c.dump(y.transactions));
    var px := Decimal(x.index) + Decimal(x.nonce) + Decimal(x.difficulty) + x.data + Decimal(x.time);
    var py := Decimal(y.index) + Decimal(y.nonce) + Decimal(y.difficulty) + y.data + Decimal(y.time);
    assert BlockText(c, x) == px + x.previousHash + ex;
    assert BlockText(c, y) == py + y.previousHash + ey;
    SuffixesAgree(px + x.previousHash, ex, py + y.previousHash, ey);
    SuffixesAgree(px, x.previousHash, py, y.previousHash);
  }

  /** The two chains agree up to height n. */
  ghost predicate AgreeUpTo(a: seq<Block>, b: seq<Block>, n: nat)
    requires n < |a| && n < |b|
  {
    && (forall i :: 0 <= i <= n ==> a[i].hash == b[i].hash)
    && (forall i :: 1 <= i <= n ==> a[i].previousHash == b[i].previousHash && a[i].transactions == b[i].transactions)
  }

  /** One step back along two valid chains that meet at height n. */
  lemma {:induction false} StepBack(c: Crypto, a: seq<Block>, b: seq<Block>, n: nat)
    requires HexDigests(c)
    requires 1 <= n < |a| && n < |b| && ValidChain(c, a) && ValidChain(c, b)
    requires |a[0].hash| == HASH_LENGTH == |b[0].hash|
    requires a[n].hash == b[n].hash && !Collide(c, a[n], b[n])
    ensures a[n].previousHash == b[n].previousHash && a[n].transactions == b[n].transactions
    ensures a[n - 1].hash == b[n - 1].hash
  {
    assert ValidPair(c, a[n - 1], a[n]) && ValidPair(c, b[n - 1], b[n]);
    if n > 1 {
      assert ValidPair(c, a[n - 2], a[n - 1]) && ValidPair(c, b[n - 2], b[n - 1]);
    }
    HashFixesBlock(c, a[n], b[n]);
  }

  /** Two valid chains with the same hash at height n are the same up to there: previous hashes,
      hashes and transactions. Their lengths need not be equal. */
  lemma {:induction false} HashFixesHistory(c: Crypto, a: seq<Block>, b: seq<Block>, n: nat)
    requires HexDigests(c)
    requires n < |a| && n < |b| && ValidChain(c, a) && ValidChain(c, b)
    requires |a[0].hash| == HASH_LENGTH == |b[0].hash|
    requires a[n].hash == b[n].hash
    ensures AgreeUpTo(a, b, n) || CollisionFound(c, a, b)
  {
    hide Collide, ValidPair;
    if n > 0 && !CollisionFound(c, a, b) {
      assert !Collide(c, a[n], b[n]);
      StepBack(c, a, b, n);
      HashFixesHistory(c, a, b, n - 1);
    }
  }

  /** Equal tips, equal histories. */
  lemma {:induction false} TipFixesHistory(c: Crypto, a: seq<Block>, b: seq<Block>)
    requires HexDigests(c)
    requires |a| == |b| > 0 && ValidChain(c, a) && ValidChain(c, b)
    requires |a[0].hash| == HASH_LENGTH == |b[0].hash|
    requires a[|a| - 1].hash == b[|b| - 1].hash
    ensures CollisionFound(c, a, b)
            || forall i :: 1 <= i < |a| ==>
                 a[i].previousHash == b[i].previousHash && a[i].transactions == b[i].transactions
  {
    HashFixesHistory(c, a, b, |a| - 1);
  }

  ghost predicate CollisionShifted(c: Crypto, a: seq<Block>, b: seq<Block>, shift: nat) {
    exists k :: 1 <= k < |a| && k + shift < |b| && Collide(c, a[k], b[k + shift])
  }

  /** Why heights may be told from hashes: if block i of one valid chain has the hash of a later block of
      another, the hash of a first block came up again later, or a collision is known. */
  lemma {:induction false} HashTellsHeight(c: Crypto, a: seq<Block>, b: seq<Block>, i: nat, shift: nat)
    requires HexDigests(c)
    requires shift > 0 && i < |a| && i + shift < |b| && ValidChain(c, a) && ValidChain(c, b)
    requires |a[0].hash| == HASH_LENGTH
    requires a[i].hash == b[i + shift].hash
    ensures a[0].hash == b[shift].hash || CollisionShifted(c, a, b, shift)
  {
    if i > 0 && !CollisionShifted(c, a, b, shift) {
      assert !Collide(c, a[i], b[i + shift]);
      OneBack(c, a, b, i, i + shift);
      HashTellsHeight(c, a, b, i - 1, shift);
    }
  }

  lemma {:induction false} OneBack(c: Crypto, a: seq<Block>, b: seq<Block>, i: nat, j: nat)
    requires HexDigests(c)
    requires 1 <= i < |a| && 2 <= j < |b| && ValidChain(c, a) && ValidChain(c, b)
    requires |a[0].hash| == HASH_LENGTH
    requires a[i].hash == b[j].hash && !Collide(c, a[i], b[j])
    ensures a[i - 1].hash == b[j - 1].hash
  {
    assert ValidPair(c, a[i - 1], a[i]) && ValidPair(c, b[j - 1], b[j]) && ValidPair(c, b[j - 2], b[j - 1]);
    if i > 1 {
      assert ValidPair(c, a[i - 2], a[i - 1]);
    }
    HashFixesBlock(c, a[i], b[j]);
  }
}
