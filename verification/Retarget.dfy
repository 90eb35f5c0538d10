/** How the difficulty of the next block follows from the chain. */
module Retarget {
  import opened Blocks

  /** Seconds a window should take, and blocks in a window. */
  datatype Params = Params(timespan: nat, interval: nat)

  const RELEASE := Params(10 * 60, 25)
  const DEBUG := Params(60, 10)

  /** Milliseconds to seconds, truncating toward zero. */
  function Seconds(ms: int): int {
    if ms >= 0 then ms / 1000 else -(-ms / 1000)
  }

  predicate AtBoundary(p: Params, chain: seq<Block>)
    requires chain != [] && p.interval > 0
  {
    (chain[|chain| - 1].index + 1) % p.interval == 0
  }

  /** Without enough blocks to look back on, `at` throws. */
  predicate CanLookBack(p: Params, chain: seq<Block>) {
    && chain != [] && p.interval > 0
    && (AtBoundary(p, chain) ==> p.interval <= |chain|)
  }

  function AdjustedDifficulty(p: Params, chain: seq<Block>): nat
    requires CanLookBack(p, chain)
  {
    var last := chain[|chain| - 1];
    if !AtBoundary(p, chain) then last.difficulty
    else
      var first := chain[|chain| - p.interval];
      var timespan := Seconds(last.time - first.time);
      if timespan < p.timespan / 2 then (last.difficulty + 1) % UINT64_SIZE
      else if timespan > p.timespan * 2 then (last.difficulty + UINT64_SIZE - 1) % UINT64_SIZE
      else last.difficulty
  }

  /** When indices are positions, the window is always there. */
  lemma {:induction false} LookBackInRange(p: Params, chain: seq<Block>)
    requires chain != [] && p.interval > 0 && chain[|chain| - 1].index == |chain| - 1
    ensures CanLookBack(p, chain)
  {
    if |chain| < p.interval {
      assert |chain| % p.interval == |chain|;
    }
  }

  /** Block i has the difficulty that followed from the blocks before it. */
  predicate DifficultyFollows(p: Params, chain: seq<Block>, i: nat)
    requires i < |chain|
  {
    CanLookBack(p, chain[..i]) && chain[i].difficulty == AdjustedDifficulty(p, chain[..i])
  }

  /** A chain that has only grown by mining: each block after the first has its place as index, passes
      the check on hashes, and has the difficulty that followed from the blocks before it. */
  ghost predicate MinedChain(c: Crypto, p: Params, chain: seq<Block>) {
    && chain != [] && p.interval > 0
    && (forall i :: 0 <= i < |chain| ==> chain[i].index == i)
    && (forall i :: 0 <= i < |chain| ==> chain[i].difficulty < UINT64_SIZE)
    && (forall i :: 1 <= i < |chain| ==> ValidHash(c, chain[i]))
    && (forall i :: 1 <= i < |chain| ==> DifficultyFollows(p, chain, i))
  }

  /** A difficulty above the length of a hash cannot be met, so neither can one that wrapped below zero. */
  lemma {:induction false} MetDifficulty(c: Crypto, b: Block)
    requires HexDigests(c) && ValidHash(c, b)
    ensures b.difficulty <= HASH_LENGTH
  {
    assert |CalculateBlockHash(c, b)| == HASH_LENGTH;
  }

  function Distance(a: nat, b: nat): nat {
    if a <= b then b - a else a - b
  }

  /** Small difficulties neither wrap upward nor end small after wrapping downward. */
  lemma {:induction false} WrapSteps(d: nat, next: nat)
    requires d <= HASH_LENGTH && next <= HASH_LENGTH
    requires next == d || next == (d + 1) % UINT64_SIZE || next == (d + UINT64_SIZE - 1) % UINT64_SIZE
    ensures Distance(d, next) <= 1
  {
    if d > 0 {
      assert (d + UINT64_SIZE - 1) % UINT64_SIZE == d - 1;
    }
  }

  lemma {:induction false} AdjustedChoices(p: Params, chain: seq<Block>)
    requires CanLookBack(p, chain)
    ensures var d, next := chain[|chain| - 1].difficulty, AdjustedDifficulty(p, chain);
            && (!AtBoundary(p, chain) ==> next == d)
            && (next == d || next == (d + 1) % UINT64_SIZE || next == (d + UINT64_SIZE - 1) % UINT64_SIZE)
  {
  }

  /** The block after n blocks, by the last of those. */
  lemma {:induction false} NextDifficulty(c: Crypto, p: Params, chain: seq<Block>, i: nat)
    requires MinedChain(c, p, chain) && 1 <= i < |chain|
    ensures var d, next := chain[i - 1].difficulty, chain[i].difficulty;
            && (i % p.interval != 0 ==> next == d)
            && (next == d || next == (d + 1) % UINT64_SIZE || next == (d + UINT64_SIZE - 1) % UINT64_SIZE)
  {
    hide ValidHash, AdjustedDifficulty;
    var before := chain[..i];
    assert DifficultyFollows(p, chain, i);
    assert before[|before| - 1] == chain[i - 1];
    AdjustedChoices(p, before);
  }

  /** One block further: the same difficulty inside a window, one more or less at its end. */
  lemma {:induction false} DifficultyStep(c: Crypto, p: Params, chain: seq<Block>, i: nat)
    requires HexDigests(c) && MinedChain(c, p, chain) && p.interval >= 2 && 1 <= i < |chain|
    ensures i % p.interval != 0 ==> chain[i].difficulty == chain[i - 1].difficulty
    ensures Distance(chain[i - 1].difficulty, chain[i].difficulty) <= 1
  {
    NextDifficulty(c, p, chain, i);
    MetDifficulty(c, chain[i]);
    if i > 1 {
      MetDifficulty(c, chain[i - 1]);
      WrapSteps(chain[i - 1].difficulty, chain[i].difficulty);
    } else {
      QuotientIs(1, p.interval, 0, 1);
    }
  }

  /** Seconds are cut off toward zero: a clock that was set back counts like one that ran on. */
  lemma {:induction false} SecondsMirror(ms: int)
    ensures Seconds(-ms) == -Seconds(ms)
    ensures ms >= 0 ==> 1000 * Seconds(ms) <= ms < 1000 * Seconds(ms) + 1000
  {
  }

  /** Truncated seconds, in milliseconds. */
  lemma {:induction false} SecondsAre(ms: int, n: nat)
    requires n >= 1
    ensures Seconds(ms) < n <==> ms < 1000 * n
    ensures Seconds(ms) > n <==> ms >= 1000 * (n + 1)
  {
  }

  lemma {:induction false} WindowFits(i: nat, interval: nat)
    requires i >= 1 && interval >= 1 && i % interval == 0
    ensures interval <= i
  {
    if i < interval {
      QuotientIs(i, interval, 0, i);
    }
  }

  /** The window that ends before block i. */
  lemma {:induction false} AtWindowEnd(c: Crypto, p: Params, chain: seq<Block>, i: nat)
    requires MinedChain(c, p, chain) && 1 <= i < |chain| && i % p.interval == 0
    ensures p.interval <= i
    ensures var d, took := chain[i - 1].difficulty, Seconds(chain[i - 1].time - chain[i - p.interval].time);
            chain[i].difficulty == if took < p.timespan / 2 then (d + 1) % UINT64_SIZE
                                   else if took > p.timespan * 2 then (d + UINT64_SIZE - 1) % UINT64_SIZE
                                   else d
  {
    hide ValidHash;
    WindowFits(i, p.interval);
    var before := chain[..i];
    assert DifficultyFollows(p, chain, i);
    assert before[i - 1] == chain[i - 1] && before[i - p.interval] == chain[i - p.interval];
  }

  /** On any chain with enough blocks: outside a window's end the difficulty stays; there it goes up or down by one
      by the time the window took, in 64 bits, so that it goes from zero to the largest and back. */
  lemma {:induction false} AdjustedIs(p: Params, chain: seq<Block>)
    requires CanLookBack(p, chain) && p.timespan >= 2 && chain[|chain| - 1].difficulty < UINT64_SIZE
    ensures var d, next := chain[|chain| - 1].difficulty, AdjustedDifficulty(p, chain);
            && ((chain[|chain| - 1].index + 1) % p.interval != 0 ==> next == d)
            && ((chain[|chain| - 1].index + 1) % p.interval == 0 ==>
                  var took := chain[|chain| - 1].time - chain[|chain| - p.interval].time;
                  if took < 1000 * (p.timespan / 2) then next == if d == UINT64_SIZE - 1 then 0 else d + 1
                  else if took >= 1000 * (2 * p.timespan + 1) then next == if d == 0 then UINT64_SIZE - 1 else d - 1
                  else next == d)
  {
    var d := chain[|chain| - 1].difficulty;
    if AtBoundary(p, chain) {
      var took := chain[|chain| - 1].time - chain[|chain| - p.interval].time;
      SecondsAre(took, p.timespan / 2);
      SecondsAre(took, 2 * p.timespan);
    }
    assert d > 0 ==> (d + UINT64_SIZE - 1) % UINT64_SIZE == d - 1;
  }

  /** At the end of a window: one more exactly if it took less than half the time it should, one less exactly
      if it took more than twice that, in whole seconds. After difficulty zero no window is that slow. */
  lemma {:induction false} DifficultyMoves(c: Crypto, p: Params, chain: seq<Block>, i: nat)
    requires HexDigests(c) && MinedChain(c, p, chain) && p.interval >= 2 && p.timespan >= 2
    requires 1 <= i < |chain| && i % p.interval == 0
    ensures p.interval <= i
    ensures var d, next := chain[i - 1].difficulty, chain[i].difficulty;
            var took := chain[i - 1].time - chain[i - p.interval].time;
            && (next == d + 1 <==> took < 1000 * (p.timespan / 2))
            && (next == d - 1 <==> took >= 1000 * (2 * p.timespan + 1))
            && (next == d <==> 1000 * (p.timespan / 2) <= took < 1000 * (2 * p.timespan + 1))
  {
    AtWindowEnd(c, p, chain, i);
    MetDifficulty(c, chain[i]);
    MetDifficulty(c, chain[i - 1]);
    hide ValidHash, MinedChain, Seconds;
    var took := chain[i - 1].time - chain[i - p.interval].time;
    SecondsAre(took, p.timespan / 2);
    SecondsAre(took, 2 * p.timespan);
    StepDown(chain[i - 1].difficulty);
  }

  lemma {:induction false} StepDown(d: nat)
    requires d <= HASH_LENGTH
    ensures (d + 1) % UINT64_SIZE == d + 1
    ensures (d + UINT64_SIZE - 1) % UINT64_SIZE == if d == 0 then UINT64_SIZE - 1 else d - 1
  {
    assert d > 0 ==> (d + UINT64_SIZE - 1) % UINT64_SIZE == d - 1;
  }

  lemma {:induction false} WindowSteps(i: nat, interval: nat)
    requires i >= 1 && interval >= 1
    ensures i / interval == (i - 1) / interval + if i % interval == 0 then 1 else 0
  {
    var q, r := (i - 1) / interval, (i - 1) % interval;
    assert i == q * interval + (r + 1);
    if r + 1 == interval {
      assert i == (q + 1) * interval + 0;
      QuotientIs(i, interval, q + 1, 0);
    } else {
      QuotientIs(i, interval, q, r + 1);
    }
  }

  lemma {:induction false} QuotientIs(i: nat, d: nat, q: nat, r: nat)
    requires d >= 1 && r < d && i == q * d + r
    ensures i / d == q && i % d == r
  {
    var q', r' := i / d, i % d;
    assert i == q' * d + r';
    if q > q' {
      TimesAtLeast(q' + 1, q, d);
    } else if q < q' {
      TimesAtLeast(q + 1, q', d);
    }
  }

  lemma {:induction false} TimesAtLeast(a: nat, b: nat, d: nat)
    requires a <= b
    ensures a * d <= b * d && a * d == (a - 1) * d + d
  {
    assert b * d == a * d + (b - a) * d;
  }

  /** Over a whole mining run the difficulty drifts by at most one for each window. No decrement is ever
      applied at zero, because the block that would have it cannot be mined. */
  lemma {:induction false} DifficultyBound(c: Crypto, p: Params, chain: seq<Block>, i: nat)
    requires HexDigests(c) && MinedChain(c, p, chain) && p.interval >= 2 && i < |chain|
    ensures Distance(chain[0].difficulty, chain[i].difficulty) <= i / p.interval
  {
    if i == 0 {
      assert Distance(chain[0].difficulty, chain[0].difficulty) == 0;
      QuotientIs(0, p.interval, 0, 0);
    } else {
      DifficultyBound(c, p, chain, i - 1);
      DifficultyStep(c, p, chain, i);
      WindowSteps(i, p.interval);
      Drift(chain[0].difficulty, chain[i - 1].difficulty, chain[i].difficulty);
    }
  }

  lemma {:induction false} Drift(a: nat, b: nat, d: nat)
    ensures Distance(a, d) <= Distance(a, b) + Distance(b, d)
    ensures b == d ==> Distance(b, d) == 0
  {
  }
}
