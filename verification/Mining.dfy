/** Searching for a nonce. */
module Mining {
  import opened Wrappers
  import opened Transactions
  import opened Blocks
  import opened Retarget
  import opened Chains

  datatype ResultType = SUCCESS | TIMEOUT | ABORT

  /** How many nonces pass between two looks at the clock. */
  const STRIDE := 0x40000

  /** What a search sees of the world, by how often it has looked: the clock, the flag that another thread
      may clear, and the answers of the callback (always yes when there is none). */
  datatype World = World(clock: nat -> int, keepTrying: nat -> bool, keepGoing: nat -> bool)

  /** The flag is set when the search begins; until it ends, nobody sets it again. */
  ghost predicate OnlyCleared(w: World) {
    forall i: nat, j: nat :: i <= j && w.keepTrying(j) ==> w.keepTrying(i)
  }

  /** The time in use when nonce n is tried. */
  function TimeAt(w: World, n: nat): int {
    if n == 0 then w.clock(0) else w.clock(1 + (n - 1) / STRIDE)
  }

  function HashAt(c: Crypto, b: Block, difficulty: nat, w: World, n: nat): string {
    c.sha256(HeaderText(b.index, n, difficulty, TimeAt(w, n), b.data, b.previousHash, c.sha256(c.dump(b.transactions))))
  }

  predicate Hit(c: Crypto, b: Block, difficulty: nat, w: World, n: nat) {
    StartsWithZeros(HashAt(c, b, difficulty, w, n), difficulty)
  }

  /** The block with nonce n filled in. */
  function Candidate(c: Crypto, b: Block, difficulty: nat, w: World, n: nat): Block {
    b.SetMinedData(n, difficulty, TimeAt(w, n), HashAt(c, b, difficulty, w, n))
  }

  /** The callback is asked before nonce n is left, and refuses. */
  predicate Refused(w: World, n: nat) {
    n % STRIDE == 0 && !w.keepGoing(n / STRIDE)
  }

  /** At nonce n the search is over: the flag is cleared, the nonce is a hit, or the callback refuses. */
  predicate OverAt(c: Crypto, b: Block, difficulty: nat, w: World, n: nat) {
    !w.keepTrying(n) || Hit(c, b, difficulty, w, n) || Refused(w, n)
  }

  /** The nonce that is found from n on, if the search is not called off. Some search never ends; one that
      ends is over at some `limit`. */
  function Search(c: Crypto, b: Block, difficulty: nat, w: World, n: nat, limit: nat): Option<nat>
    requires n <= limit && OverAt(c, b, difficulty, w, limit)
    decreases limit - n
  {
    if !w.keepTrying(n) then None
    else if Hit(c, b, difficulty, w, n) then if w.keepTrying(n + 1) then Some(n) else None
    else if Refused(w, n) then None
    else Search(c, b, difficulty, w, n + 1, limit)
  }

  /** What a turn of the mining loop is given. */
  datatype Round = Round(queue: seq<Transaction>, wallet: string, now: int, miner: string, data: string,
                         w: World, limit: nat)

  /** One turn: if the search ends and finds a nonce, the block is appended. */
  function AfterRound(c: Crypto, p: Params, chain: seq<Block>, r: Round): seq<Block> {
    if !CanLookBack(p, chain) then chain
    else
      var b := UnminedBlock(c, chain, r.queue, r.wallet, r.now).SetMiner(r.miner).SetData(r.data);
      var difficulty := AdjustedDifficulty(p, chain);
      if !OverAt(c, b, difficulty, r.w, r.limit) then chain
      else
        var found := Search(c, b, difficulty, r.w, 0, r.limit);
        if found.Some? then Extended(c, chain, Candidate(c, b, difficulty, r.w, found.value)) else chain
  }

  class Miner {
    const crypto: Crypto
    var difficulty: nat

    constructor (crypto: Crypto, difficulty: nat)
      ensures this.crypto == crypto && this.difficulty == difficulty
    {
      this.crypto := crypto;
      this.difficulty := difficulty;
    }

    method SetDifficulty(val: nat)
      modifies this
      ensures difficulty == val
    {
      difficulty := val;
    }

    method MineBlock(block: Block, w: World, ghost limit: nat) returns (result: ResultType, mined: Block)
      requires OnlyCleared(w) && OverAt(crypto, block, difficulty, w, limit)
      ensures result == SUCCESS || result == ABORT
      ensures var found := Search(crypto, block, difficulty, w, 0, limit);
              && (result == SUCCESS <==> found.Some?)
              && mined == if found.Some? then Candidate(crypto, block, difficulty, w, found.value) else block
    {
      mined := block;
      var nonce := 0;
      var time := w.clock(0);
      var extra := crypto.sha256(crypto.dump(block.transactions));
      var hash :=
        crypto.sha256(HeaderText(block.index, nonce, difficulty, time, block.data, block.previousHash, extra));
      hide Search, TimeAt;
      TimeMoves(w, 0);
      while w.keepTrying(nonce) && !StartsWithZeros(hash, difficulty)
        invariant nonce <= limit
        invariant time == TimeAt(w, nonce) && hash == HashAt(crypto, block, difficulty, w, nonce)
        invariant Search(crypto, block, difficulty, w, 0, limit) == Search(crypto, block, difficulty, w, nonce, limit)
        decreases limit - nonce
      {
        SearchStep(crypto, block, difficulty, w, nonce, limit);
        TimeMoves(w, nonce);
        if nonce % STRIDE == 0 {
          if !w.keepGoing(nonce / STRIDE) {
            return ABORT, block;
          }
          time := w.clock(1 + nonce / STRIDE);
        }
        nonce := nonce + 1;
        hash := crypto.sha256(HeaderText(block.index, nonce, difficulty, time, block.data, block.previousHash, extra));
      }
      SearchStep(crypto, block, difficulty, w, nonce, limit);
      if !w.keepTrying(nonce + 1) {
        return ABORT, block;
      }
      mined := mined.SetMinedData(nonce, difficulty, time, hash);
      return SUCCESS, mined;
    }
  }

  /** The time changes when the callback has been asked. */
  lemma {:induction false} TimeMoves(w: World, n: nat)
    ensures TimeAt(w, 0) == w.clock(0)
    ensures TimeAt(w, n + 1) == if n % STRIDE == 0 then w.clock(1 + n / STRIDE) else TimeAt(w, n)
  {
    if n % STRIDE != 0 {
      assert n > 0 && (n - 1) / STRIDE == n / STRIDE;
    }
  }

  /** The clock is read before the first nonce, after it, and then after each 262144 more; so is the callback. */
  lemma {:induction false} StrideIs(w: World, n: nat)
    ensures Refused(w, n) ==> n % 262144 == 0
    ensures Refused(w, 262144 * n) <==> !w.keepGoing(n)
    ensures n < 262144 ==> TimeAt(w, 262144 * n + 1) == w.clock(n + 1)
    ensures 1 <= n <= 262144 ==> TimeAt(w, n) == w.clock(1)
    ensures TimeAt(w, 262145) == w.clock(2)
  {
    assert (262144 * n) % 262144 == 0 && (262144 * n) / 262144 == n;
    assert 1 <= n <= 262144 ==> (n - 1) / 262144 == 0;
  }

  /** What a search comes to, by what happens at its first nonce. */
  lemma {:induction false} SearchStep(c: Crypto, b: Block, difficulty: nat, w: World, n: nat, limit: nat)
    requires n <= limit && OverAt(c, b, difficulty, w, limit)
    ensures var found, hit := Search(c, b, difficulty, w, n, limit), Hit(c, b, difficulty, w, n);
            && (!w.keepTrying(n) ==> found == None)
            && (w.keepTrying(n) && hit ==> found == if w.keepTrying(n + 1) then Some(n) else None)
            && (w.keepTrying(n) && !hit && Refused(w, n) ==> found == None)
            && (w.keepTrying(n) && !hit && !Refused(w, n) ==>
                  n < limit && found == Search(c, b, difficulty, w, n + 1, limit))
  {
    hide Hit, Refused;
  }

  /** The callback said yes each time it was asked before nonce n was tried. */
  ghost predicate AllowedUpTo(w: World, from: nat, n: nat) {
    forall m: nat :: from <= m < n ==> !Refused(w, m)
  }

  ghost predicate MissesUpTo(c: Crypto, b: Block, difficulty: nat, w: World, from: nat, n: nat) {
    forall m: nat :: from <= m < n ==> !Hit(c, b, difficulty, w, m)
  }

  /** The flag is still set, and nothing before nonce n was a hit or was refused. */
  ghost predicate ReachedFrom(c: Crypto, b: Block, difficulty: nat, w: World, from: nat, n: nat) {
    MissesUpTo(c, b, difficulty, w, from, n) && AllowedUpTo(w, from, n)
  }

  lemma {:induction false} ReachedSplits(c: Crypto, b: Block, difficulty: nat, w: World, from: nat, n: nat)
    ensures from < n ==>
              (ReachedFrom(c, b, difficulty, w, from, n) <==>
               !Hit(c, b, difficulty, w, from) && !Refused(w, from)
               && ReachedFrom(c, b, difficulty, w, from + 1, n))
    ensures n <= from ==> ReachedFrom(c, b, difficulty, w, from, n)
  {
  }

  /** The search finds nonce n exactly when n is the first hit, the callback never refused before it, and
      the flag was still set afterwards. */
  lemma {:induction false} SearchFindsFirst(c: Crypto, b: Block, difficulty: nat, w: World, from: nat, limit: nat,
                                            n: nat)
    requires OnlyCleared(w) && from <= limit && OverAt(c, b, difficulty, w, limit) && from <= n
    ensures Search(c, b, difficulty, w, from, limit) == Some(n) <==>
            Hit(c, b, difficulty, w, n) && ReachedFrom(c, b, difficulty, w, from, n) && w.keepTrying(n + 1)
    decreases limit - from
  {
    hide Hit, Refused, ReachedFrom;
    ReachedSplits(c, b, difficulty, w, from, n);
    if !w.keepTrying(from) {
      assert w.keepTrying(n + 1) ==> w.keepTrying(from);
    } else if Hit(c, b, difficulty, w, from) {
    } else if Refused(w, from) {
    } else if n == from {
      SearchIsLater(c, b, difficulty, w, from + 1, limit);
    } else {
      SearchFindsFirst(c, b, difficulty, w, from + 1, limit, n);
    }
  }

  lemma {:induction false} SearchIsLater(c: Crypto, b: Block, difficulty: nat, w: World, from: nat, limit: nat)
    requires from <= limit && OverAt(c, b, difficulty, w, limit)
    ensures var found := Search(c, b, difficulty, w, from, limit); found.Some? ==> from <= found.value
    decreases limit - from
  {
    if from < limit {
      SearchIsLater(c, b, difficulty, w, from + 1, limit);
    }
  }

  /** Mining fills in nonce, difficulty, time and hash, and leaves the rest of the block alone. */
  lemma {:induction false} MiningFillsIn(c: Crypto, b: Block, difficulty: nat, w: World, n: nat)
    ensures var mined := Candidate(c, b, difficulty, w, n);
            && mined.nonce == n && mined.difficulty == difficulty && mined.time == TimeAt(w, n)
            && mined == b.(nonce := n, difficulty := difficulty, time := mined.time, hash := mined.hash)
            && mined.hash == CalculateBlockHash(c, mined)
  {
  }

  /** A block that was mined passes the check on hashes. */
  lemma {:induction false} FoundIsValid(c: Crypto, b: Block, difficulty: nat, w: World, n: nat)
    ensures ValidHash(c, Candidate(c, b, difficulty, w, n)) <==> Hit(c, b, difficulty, w, n)
  {
    assert CalculateBlockHash(c, Candidate(c, b, difficulty, w, n)) == HashAt(c, b, difficulty, w, n);
  }

  lemma {:induction false} SearchHits(c: Crypto, b: Block, difficulty: nat, w: World, from: nat, limit: nat)
    requires from <= limit && OverAt(c, b, difficulty, w, limit) && Search(c, b, difficulty, w, from, limit).Some?
    ensures Hit(c, b, difficulty, w, Search(c, b, difficulty, w, from, limit).value)
    decreases limit - from
  {
    hide Hit, Refused;
    if !Hit(c, b, difficulty, w, from) {
      SearchHits(c, b, difficulty, w, from + 1, limit);
    }
  }

  /** Whatever the clock, the flag and the callback do: a block mined from a template is taken by the chain
      the template was made for, and keeps it valid. */
  lemma {:induction false} MinedIsAccepted(c: Crypto, chain: seq<Block>, queue: seq<Transaction>, wallet: string,
                                           now: int,
                                           miner: string, data: string, difficulty: nat, w: World, limit: nat)
    requires GoodChain(c, chain)
    requires var b := UnminedBlock(c, chain, queue, wallet, now).SetMiner(miner).SetData(data);
             OverAt(c, b, difficulty, w, limit) && Search(c, b, difficulty, w, 0, limit).Some?
    ensures var b := UnminedBlock(c, chain, queue, wallet, now).SetMiner(miner).SetData(data);
            var mined := Candidate(c, b, difficulty, w, Search(c, b, difficulty, w, 0, limit).value);
            && Accepts(c, chain, mined) && Extended(c, chain, mined) == chain + [mined]
            && GoodChain(c, chain + [mined]) && ValidChain(c, chain + [mined])
  {
    assert chain != [];
    hide *;
    var b := UnminedBlock(c, chain, queue, wallet, now).SetMiner(miner).SetData(data);
    var n := Search(c, b, difficulty, w, 0, limit).value;
    SearchHits(c, b, difficulty, w, 0, limit);
    FoundIsValid(c, b, difficulty, w, n);
    TemplateFollows(c, chain, queue, wallet, now, miner, data, difficulty, w, n);
    NextIsAccepted(c, chain, Candidate(c, b, difficulty, w, n));
  }

  lemma {:induction false} TemplateFollows(c: Crypto, chain: seq<Block>, queue: seq<Transaction>, wallet: string,
                                           now: int,
                                           miner: string, data: string, difficulty: nat, w: World, n: nat)
    requires chain != []
    ensures var b := UnminedBlock(c, chain, queue, wallet, now).SetMiner(miner).SetData(data);
            var mined := Candidate(c, b, difficulty, w, n);
            mined.index == |chain| && mined.previousHash == chain[|chain| - 1].hash
  {
  }

  /** The next block, linked and with a good hash, is taken. */
  lemma {:induction false} NextIsAccepted(c: Crypto, chain: seq<Block>, b: Block)
    requires GoodChain(c, chain) && ValidHash(c, b)
    requires b.index == |chain| && b.previousHash == chain[|chain| - 1].hash
    ensures Accepts(c, chain, b) && Extended(c, chain, b) == chain + [b]
    ensures GoodChain(c, chain + [b]) && ValidChain(c, chain + [b])
  {
    GoodSnoc(c, chain, b);
    hide ValidHash, ValidChain;
    GoodIsValid(c, chain + [b]);
  }

  lemma {:induction false} GoodSnoc(c: Crypto, chain: seq<Block>, b: Block)
    requires GoodChain(c, chain) && ValidHash(c, b)
    requires b.index == |chain| && b.previousHash == chain[|chain| - 1].hash
    ensures GoodChain(c, chain + [b])
  {
    hide ValidHash;
    var longer := chain + [b];
    forall i | 1 <= i < |longer| ensures longer[i].previousHash == longer[i - 1].hash && ValidHash(c, longer[i]) {
      assert longer[i] == (if i < |chain| then chain[i] else b) && longer[i - 1] == chain[i - 1];
    }
  }

  lemma {:induction false} AdjustedFits(p: Params, chain: seq<Block>)
    requires CanLookBack(p, chain) && chain[|chain| - 1].difficulty < UINT64_SIZE
    ensures AdjustedDifficulty(p, chain) < UINT64_SIZE
  {
  }

  lemma {:induction false} EarlierFollow(p: Params, chain: seq<Block>, b: Block, i: nat)
    requires i < |chain| && DifficultyFollows(p, chain, i)
    ensures DifficultyFollows(p, chain + [b], i)
  {
    assert (chain + [b])[..i] == chain[..i];
  }

  /** A chain that is extended by mining, at the difficulty that follows from it, stays a mined chain. */
  lemma {:induction false} MiningKeepsMinedChain(c: Crypto, p: Params, chain: seq<Block>, b: Block, w: World,
                                                 limit: nat)
    requires MinedChain(c, p, chain) && b.index == |chain| && CanLookBack(p, chain)
    requires OverAt(c, b, AdjustedDifficulty(p, chain), w, limit)
    requires Search(c, b, AdjustedDifficulty(p, chain), w, 0, limit).Some?
    ensures var d := AdjustedDifficulty(p, chain);
            MinedChain(c, p, chain + [Candidate(c, b, d, w, Search(c, b, d, w, 0, limit).value)])
  {
    var d := AdjustedDifficulty(p, chain);
    var n := Search(c, b, d, w, 0, limit).value;
    var mined := Candidate(c, b, d, w, n);
    var longer := chain + [mined];
    SearchHits(c, b, d, w, 0, limit);
    FoundIsValid(c, b, d, w, n);
    AdjustedFits(p, chain);
    assert longer[..|chain|] == chain;
    forall i | 1 <= i < |longer| ensures DifficultyFollows(p, longer, i) && ValidHash(c, longer[i]) {
      if i < |chain| {
        assert DifficultyFollows(p, chain, i);
        EarlierFollow(p, chain, mined, i);
      }
    }
  }
}
