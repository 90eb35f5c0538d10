/** A quiet node hears of a chain with more work. */
module CatchUp {
  import opened Wrappers
  import opened Blocks
  import opened Chains
  import opened ChainFile
  import opened History
  import opened Node

  /** The peer's answers and the node's next requests, until an answer attaches or none comes; with the
      number of answers it took. */
  function Dialogue(c: Crypto, mine: seq<Block>, peer: seq<Block>, id1: nat, id2: nat): (r: (Option<seq<Block>>, nat))
    requires mine != [] && Last(mine).index == |mine| - 1
    decreases id1
  {
    var answer := Serve(peer, Range(id1, id2));
    if answer.None? || Invalid(c, answer.value) then (None, 0)
    else if Attaches(mine, answer.value) then (Some(answer.value), 1)
    else
      var next := NextRequest(mine, answer.value);
      assert answer.value[0].index == id1;
      var rest := Dialogue(c, mine, peer, next.id1, next.id2);
      (rest.0, rest.1 + 1)
  }

  // ----- what a good chain answers -----

  lemma {:induction false} FindsAt(chain: seq<Block>, id: nat, from: nat)
    requires forall i :: 0 <= i < |chain| ==> chain[i].index == i
    requires from <= |chain| && from <= id
    ensures FindIndex(chain, id, from) == if id < |chain| then id else |chain|
  {
    if id < |chain| {
      assert chain[id].index == id;
    }
  }

  lemma {:induction false} UpToEnd(chain: seq<Block>, from: nat)
    requires forall i :: 0 <= i < |chain| ==> chain[i].index == i
    requires from <= |chain| && chain != []
    ensures UpTo(chain, from, |chain| - 1) == chain[from..]
    decreases |chain| - from
  {
    if from < |chain| {
      UpToEnd(chain, from + 1);
      assert chain[from..] == [chain[from]] + chain[from + 1..];
    }
  }

  lemma {:induction false} RestIsValid(c: Crypto, peer: seq<Block>, id1: nat)
    requires ValidChain(c, peer) && id1 < |peer|
    ensures !Invalid(c, peer[id1..])
  {
    var part := peer[id1..];
    forall i | 1 <= i < |part| ensures ValidPair(c, part[i - 1], part[i]) {
      assert part[i - 1] == peer[id1 + i - 1] && part[i] == peer[id1 + i];
      assert ValidPair(c, peer[id1 + i - 1], peer[id1 + i]);
    }
  }

  lemma {:induction false} UpToPart(chain: seq<Block>, from: nat, id: nat)
    requires forall i :: 0 <= i < |chain| ==> chain[i].index == i
    requires from <= |chain|
    ensures UpTo(chain, from, id)
         == if id < from || from == |chain| then [] else chain[from..if id < |chain| then id + 1 else |chain|]
    decreases |chain| - from
  {
    if from < |chain| && from <= id {
      UpToPart(chain, from + 1, id);
      var end := if id < |chain| then id + 1 else |chain|;
      assert chain[from..end] == [chain[from]] + chain[from + 1..end];
    }
  }

  /** A request is answered with exactly the blocks from the first asked for to the last asked for, as far as
      there are any, and not at all if that is none. */
  lemma {:induction false} AnswersRange(chain: seq<Block>, id1: nat, id2: nat)
    requires forall i :: 0 <= i < |chain| ==> chain[i].index == i
    ensures Serve(chain, Range(id1, id2))
         == if id1 >= |chain| || id2 < id1 then None
            else Some(chain[id1..if id2 < |chain| then id2 + 1 else |chain|])
  {
    FindsAt(chain, id1, 0);
    UpToPart(chain, if id1 < |chain| then id1 else |chain|, id2);
  }

  /** A request up to the peer's last block is answered with all blocks from the first asked for. */
  lemma {:induction false} AnswersRest(peer: seq<Block>, id1: nat)
    requires peer != [] && forall i :: 0 <= i < |peer| ==> peer[i].index == i
    ensures Serve(peer, Range(id1, |peer| - 1)) == if id1 < |peer| then Some(peer[id1..]) else None
    ensures id1 < |peer| ==> peer[id1..][0] == peer[id1] && Last(peer[id1..]).index == |peer| - 1
  {
    FindsAt(peer, id1, 0);
    if id1 < |peer| {
      UpToEnd(peer, id1);
    }
  }

  // ----- the dialogue ends, and how -----

  /** Block f of the peer follows on block f-1 of the local chain. */
  predicate Meets(mine: seq<Block>, peer: seq<Block>, f: nat) {
    1 <= f <= |mine| && f < |peer| && peer[f].previousHash == mine[f - 1].hash
  }

  /** Indices are places, and the blocks hang together: what the dialogue needs of a chain. */
  ghost predicate Linked(c: Crypto, chain: seq<Block>) {
    && chain != [] && ValidChain(c, chain)
    && (forall i :: 0 <= i < |chain| ==> chain[i].index == i)
  }

  lemma {:induction false} DialogueUnfolds(c: Crypto, mine: seq<Block>, peer: seq<Block>, id1: nat, id2: nat,
                                           answer: seq<Block>)
    requires mine != [] && Last(mine).index == |mine| - 1
    requires Serve(peer, Range(id1, id2)) == Some(answer) && !Invalid(c, answer) && answer[0].index == id1
    ensures Attaches(mine, answer) ==> Dialogue(c, mine, peer, id1, id2) == (Some(answer), 1)
    ensures !Attaches(mine, answer) ==>
              var next := NextRequest(mine, answer);
              && next.Range? && next.id1 < id1
              && var rest := Dialogue(c, mine, peer, next.id1, next.id2);
                 Dialogue(c, mine, peer, id1, id2) == (rest.0, rest.1 + 1)
  {
  }

  /** One answer: it attaches, or there is a gap, or one block more is asked for. */
  ghost predicate AnswersAt(c: Crypto, mine: seq<Block>, peer: seq<Block>, id1: nat)
    requires mine != [] && Last(mine).index == |mine| - 1 && 1 <= id1 < |peer|
  {
    if Meets(mine, peer, id1) then Dialogue(c, mine, peer, id1, |peer| - 1) == (Some(peer[id1..]), 1)
    else
      var rest := Dialogue(c, mine, peer, if id1 > |mine| then |mine| else id1 - 1, |peer| - 1);
      Dialogue(c, mine, peer, id1, |peer| - 1) == (rest.0, rest.1 + 1)
  }

  lemma {:induction false} OneAnswer(c: Crypto, mine: seq<Block>, peer: seq<Block>, id1: nat)
    requires Linked(c, mine) && Linked(c, peer) && 1 <= id1 < |peer|
    ensures Last(mine).index == |mine| - 1 && AnswersAt(c, mine, peer, id1)
  {
    hide Serve, Dialogue, Invalid, ValidPair;
    AnswersRest(peer, id1);
    RestIsValid(c, peer, id1);
    DialogueUnfolds(c, mine, peer, id1, |peer| - 1, peer[id1..]);
    assert Last(mine).index == |mine| - 1;
    assert Attaches(mine, peer[id1..]) <==> Meets(mine, peer, id1);
  }

  lemma {:induction false} FirstMeets(c: Crypto, mine: seq<Block>, peer: seq<Block>)
    requires Linked(c, mine) && Linked(c, peer) && mine[0].hash == peer[0].hash && |peer| > 1
    ensures Meets(mine, peer, 1)
  {
    assert ValidPair(c, peer[0], peer[1]);
  }

  /** The last place, not after id1, where the chains meet. */
  function MeetingPlace(mine: seq<Block>, peer: seq<Block>, id1: nat): (f: nat)
    ensures f <= id1 && forall g :: f < g <= id1 ==> !Meets(mine, peer, g)
    ensures f > 0 ==> Meets(mine, peer, f)
  {
    if id1 == 0 || Meets(mine, peer, id1) then id1 else MeetingPlace(mine, peer, id1 - 1)
  }

  lemma {:induction false} DialogueWalks(c: Crypto, mine: seq<Block>, peer: seq<Block>, id1: nat)
    requires mine != [] && Last(mine).index == |mine| - 1 && 1 <= id1 < |peer| && id1 <= |mine|
    requires Meets(mine, peer, 1)
    requires forall id: nat :: 1 <= id <= id1 ==> AnswersAt(c, mine, peer, id)
    ensures var f := MeetingPlace(mine, peer, id1);
            f > 0 && Dialogue(c, mine, peer, id1, |peer| - 1) == (Some(peer[f..]), id1 - f + 1)
  {
    hide Meets, Dialogue;
    assert AnswersAt(c, mine, peer, id1);
    if !Meets(mine, peer, id1) {
      DialogueWalks(c, mine, peer, id1 - 1);
    }
  }

  /** From any request inside the peer's chain, the dialogue ends with the update from the last place, not
      after what was asked for, where the chains meet. It takes one answer for a gap and one for each block
      it walks back. */
  lemma {:induction false} DialogueMeets(c: Crypto, mine: seq<Block>, peer: seq<Block>, id1: nat)
    requires Linked(c, mine) && Linked(c, peer) && mine[0].hash == peer[0].hash
    requires 1 <= id1 < |peer|
    ensures Last(mine).index == |mine| - 1
    ensures var start, gap := if id1 <= |mine| then id1 else |mine|, if id1 <= |mine| then 0 else 1;
            var f := MeetingPlace(mine, peer, start);
            && Meets(mine, peer, f)
            && Dialogue(c, mine, peer, id1, |peer| - 1) == (Some(peer[f..]), gap + (start - f) + 1)
  {
    var start := if id1 <= |mine| then id1 else |mine|;
    forall id: nat | 1 <= id <= id1 ensures Last(mine).index == |mine| - 1 && AnswersAt(c, mine, peer, id) {
      OneAnswer(c, mine, peer, id);
    }
    FirstMeets(c, mine, peer);
    DialogueWalks(c, mine, peer, start);
    if id1 > |mine| {
      assert AnswersAt(c, mine, peer, id1);
    }
  }

  // ----- what the node ends up with -----

  /** Blocks with equal hashes at the same height claim the same difficulty. The hash does not see where
      the difficulty begins and ends in the text, so this is asked for. */
  predicate SameHashSameDifficulty(a: seq<Block>, b: seq<Block>) {
    forall i :: 0 <= i < |a| && i < |b| && a[i].hash == b[i].hash ==> a[i].difficulty == b[i].difficulty
  }

  lemma {:induction false} SameWork(a: seq<Block>, b: seq<Block>, n: nat)
    requires n <= |a| && n <= |b|
    requires forall i :: 0 <= i < n ==> a[i].difficulty == b[i].difficulty
    ensures TotalWork(a, n) == TotalWork(b, n)
  {
    if n > 0 {
      SameWork(a, b, n - 1);
    }
  }

  /** The local blocks before f, and the peer's from f on. */
  function Splice(mine: seq<Block>, peer: seq<Block>, f: nat): seq<Block>
    requires f <= |mine| && f <= |peer|
  {
    mine[..f] + peer[f..]
  }

  lemma {:induction false} SpliceHashes(mine: seq<Block>, peer: seq<Block>, f: nat)
    requires f <= |mine| && f <= |peer|
    requires forall i :: 0 <= i < f ==> mine[i].hash == peer[i].hash
    ensures |Splice(mine, peer, f)| == |peer|
    ensures forall i :: 0 <= i < |peer| ==> Splice(mine, peer, f)[i].hash == peer[i].hash
  {
    forall i | 0 <= i < |peer| ensures Splice(mine, peer, f)[i].hash == peer[i].hash {
      assert Splice(mine, peer, f)[i] == if i < f then mine[i] else peer[i];
    }
  }

  lemma {:induction false} SpliceWork(mine: seq<Block>, peer: seq<Block>, f: nat)
    requires 1 <= f <= |mine| && f < |peer| && SameHashSameDifficulty(mine, peer)
    requires forall i :: 0 <= i < f ==> mine[i].hash == peer[i].hash
    ensures Work(Splice(mine, peer, f)) == Work(peer)
  {
    var spliced := Splice(mine, peer, f);
    forall i | 0 <= i < |peer| ensures spliced[i].difficulty == peer[i].difficulty {
      assert spliced[i] == if i < f then mine[i] else peer[i];
    }
    SameWork(spliced, peer, |peer| - 1);
  }

  /** The work from block f on that the program counts. It leaves out the last block, so this is negative when
      there is no block from f on. */
  function WorkFrom(chain: seq<Block>, f: nat): int
    requires chain != [] && f <= |chain|
  {
    TotalWork(chain, |chain| - 1) - TotalWork(chain, f)
  }

  lemma {:induction false} SpliceTotal(mine: seq<Block>, peer: seq<Block>, f: nat, n: nat)
    requires f <= |mine| && f <= n <= |peer|
    ensures TotalWork(Splice(mine, peer, f), n) - TotalWork(mine, f) == TotalWork(peer, n) - TotalWork(peer, f)
  {
    var spliced := Splice(mine, peer, f);
    if n == f {
      assert forall i :: 0 <= i < f ==> spliced[i] == mine[i];
      SameWork(spliced, mine, f);
    } else {
      SpliceTotal(mine, peer, f, n - 1);
      assert spliced[n - 1] == peer[n - 1];
    }
  }

  /** Whatever difficulties equal hashes claim: a splice gains work exactly if the part that comes in has more
      than the part that goes, as long as neither total reaches 64 bits. */
  lemma {:induction false} SpliceGains(mine: seq<Block>, peer: seq<Block>, f: nat)
    requires f <= |mine| && f < |peer| && mine != []
    requires TotalWork(mine, |mine| - 1) < UINT64_SIZE
    requires TotalWork(mine, f) + WorkFrom(peer, f) < UINT64_SIZE
    ensures Work(mine) < Work(Splice(mine, peer, f)) <==> WorkFrom(mine, f) < WorkFrom(peer, f)
  {
    var spliced := Splice(mine, peer, f);
    assert |spliced| == |peer|;
    SpliceTotal(mine, peer, f, |peer| - 1);
    hide Splice, TotalWork;
    NoWrap(TotalWork(mine, |mine| - 1));
    NoWrap(TotalWork(spliced, |peer| - 1));
  }

  lemma {:induction false} NoWrap(n: nat)
    requires n < UINT64_SIZE
    ensures n % UINT64_SIZE == n
  {
  }

  /** Where two chains meet, they have been the same, unless two different texts with the same digest
      are known. */
  lemma {:induction false} MeetingHistory(c: Crypto, mine: seq<Block>, peer: seq<Block>, f: nat)
    requires HexDigests(c) && Linked(c, mine) && Linked(c, peer) && Meets(mine, peer, f)
    requires |mine[0].hash| == HASH_LENGTH == |peer[0].hash|
    ensures CollisionFound(c, mine, peer) || forall i :: 0 <= i < f ==> mine[i].hash == peer[i].hash
  {
    assert ValidPair(c, peer[f - 1], peer[f]);
    assert mine[f - 1].hash == peer[f - 1].hash;
    HashFixesHistory(c, mine, peer, f - 1);
  }

  /** A quiet node: nothing cached, and nothing else happens to it. */
  ghost predicate Quiet(c: Crypto, n: Node) {
    GoodChain(c, n.chain) && n.temp.None?
  }

  /** What the node holds once the dialogue that follows a summary has ended and the update, if there is
      one, has been taken over. */
  function AfterCatchUp(c: Crypto, d: DoubleCodec, n: Node, peer: seq<Block>, r: Request): Option<Node>
    requires n.chain != [] && Last(n.chain).index == |n.chain| - 1 && n.temp.None?
  {
    match r
    case Full => None
    case Range(id1, id2) =>
      var cached := n.(temp := Dialogue(c, n.chain, peer, id1, id2).0);
      if CanSync(cached) then Some(Sync(c, d, cached)) else None
  }

  /** Where the chains meet, the splice of the two has the peer's hashes, and its work. */
  lemma {:induction false} SpliceAgrees(c: Crypto, mine: seq<Block>, peer: seq<Block>, f: nat)
    requires HexDigests(c) && Linked(c, mine) && Linked(c, peer) && Meets(mine, peer, f)
    requires |mine[0].hash| == HASH_LENGTH == |peer[0].hash|
    ensures |Splice(mine, peer, f)| == |peer|
    ensures CollisionFound(c, mine, peer)
            || ((forall i :: 0 <= i < |peer| ==> Splice(mine, peer, f)[i].hash == peer[i].hash)
                && (SameHashSameDifficulty(mine, peer) ==> Work(Splice(mine, peer, f)) == Work(peer)))
  {
    MeetingHistory(c, mine, peer, f);
    if !CollisionFound(c, mine, peer) {
      SpliceHashes(mine, peer, f);
      if SameHashSameDifficulty(mine, peer) {
        SpliceWork(mine, peer, f);
      }
    }
  }

  lemma {:induction false} LastIndex(c: Crypto, chain: seq<Block>)
    requires Linked(c, chain)
    ensures chain != [] && Last(chain).index == |chain| - 1
  {
  }

  lemma {:induction false} UpdateIsUsed(c: Crypto, d: DoubleCodec, n: Node, peer: seq<Block>, id1: nat, id2: nat,
                                        t: seq<Block>)
    requires n.chain != [] && Last(n.chain).index == |n.chain| - 1 && n.temp.None?
    requires Dialogue(c, n.chain, peer, id1, id2).0 == Some(t) && CanSync(n.(temp := Some(t)))
    ensures AfterCatchUp(c, d, n, peer, Range(id1, id2)) == Some(Sync(c, d, n.(temp := Some(t))))
  {
    hide Dialogue, Sync, CanSync;
  }

  /** The dialogue with a longer peer ends with an update, and the update splices the chains. */
  lemma {:induction false} LongerIsTaken(c: Crypto, d: DoubleCodec, n: Node, peer: seq<Block>)
    requires Linked(c, n.chain) && GoodChain(c, peer) && Linked(c, peer) && n.temp.None?
    requires n.chain[0].hash == peer[0].hash && |peer| > |n.chain|
    ensures Last(n.chain).index == |n.chain| - 1
    ensures var f := MeetingPlace(n.chain, peer, |n.chain|);
            var after := AfterCatchUp(c, d, n, peer, Range(|n.chain|, |peer| - 1));
            && Meets(n.chain, peer, f)
            && after.Some? && after.value.chain == Splice(n.chain, peer, f)
  {
    hide *;
    var f := MeetingPlace(n.chain, peer, |n.chain|);
    LastIndex(c, n.chain);
    DialogueMeets(c, n.chain, peer, |n.chain|);
    UpdateSplices(c, d, n, peer, f);
    UpdateIsUsed(c, d, n, peer, |n.chain|, |peer| - 1, peer[f..]);
  }

  /** A quiet node that has the peer's first block. */
  ghost predicate HearsOf(c: Crypto, n: Node, peer: seq<Block>) {
    && HexDigests(c) && Quiet(c, n) && GoodChain(c, peer)
    && n.chain[0].SameHeader(peer[0]) && n.chain[0].hash == peer[0].hash && |peer[0].hash| == HASH_LENGTH
  }

  lemma {:induction false} AsksForRest(c: Crypto, n: Node, peer: seq<Block>, resetEnabled: bool)
    requires HearsOf(c, n, peer) && Work(n.chain) < Work(peer)
    ensures AfterSummary(n, peer[0], Last(peer), Work(peer), resetEnabled) == Some(Range(|n.chain|, |peer| - 1))
  {
    hide ValidHash, Work;
  }

  lemma {:induction false} ShorterIsNoHelp(c: Crypto, d: DoubleCodec, n: Node, peer: seq<Block>)
    requires HearsOf(c, n, peer) && |peer| <= |n.chain|
    ensures AfterCatchUp(c, d, n, peer, Range(|n.chain|, |peer| - 1)) == Some(n)
  {
    AnswersRest(peer, |n.chain|);
  }

  lemma {:induction false} LongerIsCaught(c: Crypto, d: DoubleCodec, n: Node, peer: seq<Block>)
    requires HearsOf(c, n, peer) && |peer| > |n.chain|
    ensures var after := AfterCatchUp(c, d, n, peer, Range(|n.chain|, |peer| - 1));
            && after.Some? && |after.value.chain| == |peer|
            && Gains(n.chain, peer, after.value.chain)
            && (CollisionFound(c, n.chain, peer)
                || ((forall i :: 0 <= i < |peer| ==> after.value.chain[i].hash == peer[i].hash)
                    && (SameHashSameDifficulty(n.chain, peer) ==> Work(after.value.chain) == Work(peer))))
  {
    GoodIsLinked(c, n.chain);
    GoodIsLinked(c, peer);
    LongerIsTaken(c, d, n, peer);
    SpliceAgrees(c, n.chain, peer, MeetingPlace(n.chain, peer, |n.chain|));
    LongerGains(n.chain, peer);
  }

  /** The chain that came out has more work exactly if the peer's part has, unless 64 bits do not suffice. */
  ghost predicate Gains(mine: seq<Block>, peer: seq<Block>, after: seq<Block>)
    requires mine != [] && |peer| > |mine| && after != []
  {
    var f := MeetingPlace(mine, peer, |mine|);
    TotalWork(mine, |mine| - 1) < UINT64_SIZE && TotalWork(mine, f) + WorkFrom(peer, f) < UINT64_SIZE ==>
      (Work(mine) < Work(after) <==> WorkFrom(mine, f) < WorkFrom(peer, f))
  }

  lemma {:induction false} LongerGains(mine: seq<Block>, peer: seq<Block>)
    requires mine != [] && |peer| > |mine|
    ensures Gains(mine, peer, Splice(mine, peer, MeetingPlace(mine, peer, |mine|)))
  {
    var f := MeetingPlace(mine, peer, |mine|);
    hide Splice, MeetingPlace;
    if TotalWork(mine, |mine| - 1) < UINT64_SIZE && TotalWork(mine, f) + WorkFrom(peer, f) < UINT64_SIZE {
      SpliceGains(mine, peer, f);
    }
  }

  /** A quiet node that hears of more work asks for what it lacks. If the peer's chain is longer, it ends
      with the peer's hashes and strictly more work. If the peer's chain is not longer, it is told that the
      first block it asks for does not exist, and stays as it is, however much more work there is. */
  lemma {:induction false} CatchesUpIffLonger(c: Crypto, d: DoubleCodec, n: Node, peer: seq<Block>, resetEnabled: bool)
    requires HearsOf(c, n, peer) && Work(n.chain) < Work(peer)
    ensures AfterSummary(n, peer[0], Last(peer), Work(peer), resetEnabled) == Some(Range(|n.chain|, |peer| - 1))
    ensures var after := AfterCatchUp(c, d, n, peer, Range(|n.chain|, |peer| - 1));
            && after.Some?
            && (|peer| <= |n.chain| ==> after.value == n)
            && (|peer| > |n.chain| ==>
                  && |after.value.chain| == |peer|
                  && Gains(n.chain, peer, after.value.chain)
                  && (CollisionFound(c, n.chain, peer)
                      || ((forall i :: 0 <= i < |peer| ==> after.value.chain[i].hash == peer[i].hash)
                          && (SameHashSameDifficulty(n.chain, peer) ==> Work(n.chain) < Work(after.value.chain)))))
  {
    hide *;
    AsksForRest(c, n, peer, resetEnabled);
    if |peer| <= |n.chain| {
      ShorterIsNoHelp(c, d, n, peer);
    } else {
      LongerIsCaught(c, d, n, peer);
    }
  }

  /** Hearing the same summary again after having caught up: there is nothing to ask for. */
  lemma {:induction false} CaughtUpAsksNothing(c: Crypto, d: DoubleCodec, n: Node, peer: seq<Block>, resetEnabled: bool)
    requires HearsOf(c, n, peer) && |peer| > |n.chain| && SameHashSameDifficulty(n.chain, peer)
    ensures var after := AfterCatchUp(c, d, n, peer, Range(|n.chain|, |peer| - 1));
            && after.Some? && after.value.chain != [] && after.value.temp.None?
            && (CollisionFound(c, n.chain, peer)
                || AfterSummary(after.value, peer[0], Last(peer), Work(peer), resetEnabled) == None)
  {
    KeepsFirst(c, d, n, peer);
    LongerIsCaught(c, d, n, peer);
    var after := AfterCatchUp(c, d, n, peer, Range(|n.chain|, |peer| - 1));
    hide *;
    if !CollisionFound(c, n.chain, peer) {
      NothingToAsk(after.value, peer, resetEnabled);
    }
  }

  lemma {:induction false} KeepsFirst(c: Crypto, d: DoubleCodec, n: Node, peer: seq<Block>)
    requires HearsOf(c, n, peer) && |peer| > |n.chain|
    ensures var after := AfterCatchUp(c, d, n, peer, Range(|n.chain|, |peer| - 1));
            && after.Some? && after.value.chain != [] && after.value.temp.None?
            && peer != [] && after.value.chain[0].SameHeader(peer[0])
  {
    GoodIsLinked(c, n.chain);
    GoodIsLinked(c, peer);
    LongerIsTaken(c, d, n, peer);
    SyncLeaves(c, d, n.(temp := Dialogue(c, n.chain, peer, |n.chain|, |peer| - 1).0));
    assert Splice(n.chain, peer, MeetingPlace(n.chain, peer, |n.chain|))[0] == n.chain[0];
    hide Dialogue, Sync, MeetingPlace, ValidHash;
  }

  lemma {:induction false} GoodIsLinked(c: Crypto, chain: seq<Block>)
    requires GoodChain(c, chain)
    ensures Linked(c, chain)
  {
    GoodIsValid(c, chain);
  }

  /** Taking over the update from where the chains meet splices them. */
  lemma {:induction false} UpdateSplices(c: Crypto, d: DoubleCodec, n: Node, peer: seq<Block>, f: nat)
    requires Linked(c, n.chain) && GoodChain(c, peer) && Meets(n.chain, peer, f)
    ensures var cached := n.(temp := Some(peer[f..]));
            CanSync(cached) && Sync(c, d, cached).chain == Splice(n.chain, peer, f)
  {
    var t := peer[f..];
    var cached := n.(temp := Some(t));
    assert t[0] == peer[f];
    assert Last(n.chain[..f]) == n.chain[f - 1];
    forall i | 0 <= i < |t| ensures ValidHash(c, t[i]) && (i > 0 ==> t[i].previousHash == t[i - 1].hash) {
      assert t[i] == peer[f + i];
      assert i > 0 ==> t[i - 1] == peer[f + i - 1];
    }
    SyncIsExact(c, d, cached, f, t);
  }
}
