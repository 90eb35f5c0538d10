/** The first block of a node, and what holds from there on. */
module Start {
  import opened Wrappers
  import opened Transactions
  import opened Blocks
  import opened History
  import opened Numerals
  import opened Retarget
  import opened Chains
  import opened ChainFile
  import opened Unspent
  import opened UnspentLaws
  import opened Node
  import opened Mining
  import opened MiningRun
  import opened Settlement

  /** The first chain has everything that runs keep: outputs are accounted for, hashes are in order, and the
      difficulty is that of a mined chain. */
  lemma {:induction false} GenesisStarts(c: Crypto, p: Params, wallet: string, now: int, miner: string, data: string,
                                         disk: Option<Bytes>)
    requires p.interval > 0
    ensures var g := GenesisBlock(c, wallet, now, miner, data);
            && IsFirst([g], wallet) && Inv(Node([g], None, [], None, disk))
            && Value(UnspentOf([g], ""), "") == COINBASE_REWARD
            && Sane(c, [g]) && MinedChain(c, p, [g]) && g.difficulty == 1
  {
    var g := GenesisBlock(c, wallet, now, miner, data);
    FirstChainInv(Node([g], None, [], None, disk), wallet);
  }

  /** The first block has the hash of what it was before its data were set. So its hash is its own only if it
      has no data, unless two different texts have one digest. */
  lemma {:induction false} GenesisHash(c: Crypto, wallet: string, now: int, miner: string, data: string)
    requires HexDigests(c)
    ensures var g := GenesisBlock(c, wallet, now, miner, data);
            var bare := g.(data := "");
            && |g.hash| == HASH_LENGTH && g.hash == CalculateBlockHash(c, bare)
            && g.index == 0 && g.nonce == 0 && g.time == now && g.previousHash == ""
            && g.miner == miner && g.data == data
            && (data == "" ==> CalculateBlockHash(c, g) == g.hash)
            && (data != "" ==>
                  CalculateBlockHash(c, g) != g.hash || ShaCollision(c, BlockText(c, g), BlockText(c, bare)))
  {
    var g := GenesisBlock(c, wallet, now, miner, data);
    var bare := g.(data := "");
    if data != "" && CalculateBlockHash(c, g) == g.hash {
      OneFieldCollides(c, g, bare);
    }
  }

  // ----- any number of turns of the mining loop -----

  function AfterRounds(c: Crypto, p: Params, chain: seq<Block>, rounds: seq<Round>): seq<Block> {
    if rounds == [] then chain
    else AfterRound(c, p, AfterRounds(c, p, chain, rounds[..|rounds| - 1]), rounds[|rounds| - 1])
  }

  lemma {:induction false} RoundKeeps(c: Crypto, p: Params, chain: seq<Block>, r: Round)
    requires GoodChain(c, chain) && MinedChain(c, p, chain)
    ensures GoodChain(c, AfterRound(c, p, chain, r)) && MinedChain(c, p, AfterRound(c, p, chain, r))
    ensures AfterRound(c, p, chain, r)[0] == chain[0]
  {
    hide ValidHash, DifficultyFollows;
    LookBackInRange(p, chain);
    var b := UnminedBlock(c, chain, r.queue, r.wallet, r.now).SetMiner(r.miner).SetData(r.data);
    var difficulty := AdjustedDifficulty(p, chain);
    if OverAt(c, b, difficulty, r.w, r.limit) && Search(c, b, difficulty, r.w, 0, r.limit).Some? {
      MinedIsAccepted(c, chain, r.queue, r.wallet, r.now, r.miner, r.data, difficulty, r.w, r.limit);
      MiningKeepsMinedChain(c, p, chain, b, r.w, r.limit);
    }
  }

  lemma {:induction false} RoundsKeep(c: Crypto, p: Params, chain: seq<Block>, rounds: seq<Round>)
    requires GoodChain(c, chain) && MinedChain(c, p, chain)
    ensures GoodChain(c, AfterRounds(c, p, chain, rounds)) && MinedChain(c, p, AfterRounds(c, p, chain, rounds))
    ensures AfterRounds(c, p, chain, rounds)[0] == chain[0]
  {
    if rounds != [] {
      RoundsKeep(c, p, chain, rounds[..|rounds| - 1]);
      RoundKeeps(c, p, AfterRounds(c, p, chain, rounds[..|rounds| - 1]), rounds[|rounds| - 1]);
    }
  }

  /** Whatever clocks, flags, callbacks and queues there are: a chain that has grown from the first block by
      mining alone is good, and its difficulty at height i is within i / interval of one. */
  lemma {:induction false} DifficultyFromStart(c: Crypto, p: Params, wallet: string, now: int, miner: string,
                                               data: string,
                                               rounds: seq<Round>, i: nat)
    requires HexDigests(c) && p.interval >= 2
    ensures var chain := AfterRounds(c, p, [GenesisBlock(c, wallet, now, miner, data)], rounds);
            && GoodChain(c, chain) && MinedChain(c, p, chain)
            && (i < |chain| ==> Distance(1, chain[i].difficulty) <= i / p.interval)
  {
    var g := GenesisBlock(c, wallet, now, miner, data);
    GenesisStarts(c, p, wallet, now, miner, data, None);
    RoundsKeep(c, p, [g], rounds);
    var chain := AfterRounds(c, p, [g], rounds);
    if i < |chain| {
      DifficultyBound(c, p, chain, i);
    }
  }

  /** A turn that appends a block is a template and a mined block, as steps of a node. */
  lemma {:induction false} RoundIsRun(c: Crypto, d: DoubleCodec, p: Params, n: Node, r: Round)
      returns (actions: seq<Action>)
    requires GoodChain(c, n.chain) && p.interval > 0 && n.inflight.None? && r.queue == n.queue
    ensures Run(c, d, n, actions).chain == AfterRound(c, p, n.chain, r)
    ensures Run(c, d, n, actions).inflight.None?
  {
    LookBackInRange(p, n.chain);
    var b := UnminedBlock(c, n.chain, r.queue, r.wallet, r.now).SetMiner(r.miner).SetData(r.data);
    var difficulty := AdjustedDifficulty(p, n.chain);
    if OverAt(c, b, difficulty, r.w, r.limit) && Search(c, b, difficulty, r.w, 0, r.limit).Some? {
      MinedIsAccepted(c, n.chain, r.queue, r.wallet, r.now, r.miner, r.data, difficulty, r.w, r.limit);
      var m := Candidate(c, b, difficulty, r.w, Search(c, b, difficulty, r.w, 0, r.limit).value);
      actions := [Template(r.wallet, r.now, r.miner, r.data), Mined(m.nonce, m.difficulty, m.time, m.hash)];
      TwoSteps(c, d, n, actions[0], actions[1]);
      MinedFromTemplate(c, d, n, actions[0], actions[1], m);
    } else {
      actions := [];
    }
  }

  lemma {:induction false} TwoSteps(c: Crypto, d: DoubleCodec, n: Node, a: Action, b: Action)
    ensures Run(c, d, n, [a, b]) == Next(c, d, Next(c, d, n, a), b)
  {
    hide Next;
    assert [a, b][..1] == [a] && [a][..0] == [];
    assert Run(c, d, n, []) == n && Run(c, d, n, [a]) == Next(c, d, n, a);
  }

  lemma {:induction false} MinedFromTemplate(c: Crypto, d: DoubleCodec, n: Node, t: Action, a: Action, m: Block)
    requires t.Template? && a.Mined? && n.chain != [] && n.inflight.None?
    requires var taken := TakeTemplate(c, n, t.wallet, t.now, t.miner, t.data); MinedBlock(taken.inflight.value, a) == m
    requires Accepts(c, n.chain, m)
    ensures var after := Next(c, d, Next(c, d, n, t), a); after.chain == n.chain + [m] && after.inflight.None?
  {
    hide Accepts, UnminedBlock, EncodeBlock;
  }

  /** With the constants of the program's two builds. */
  lemma {:induction false} BothBuilds(c: Crypto, wallet: string, now: int, miner: string, data: string,
                                      rounds: seq<Round>, i: nat)
    requires HexDigests(c)
    ensures var g := GenesisBlock(c, wallet, now, miner, data);
            var release, debug := AfterRounds(c, RELEASE, [g], rounds), AfterRounds(c, DEBUG, [g], rounds);
            && (i < |release| ==> Distance(1, release[i].difficulty) <= i / 25)
            && (i < |debug| ==> Distance(1, debug[i].difficulty) <= i / 10)
  {
    DifficultyFromStart(c, RELEASE, wallet, now, miner, data, rounds, i);
    DifficultyFromStart(c, DEBUG, wallet, now, miner, data, rounds, i);
  }

  /** With the constants of the release build: at the end of a window of 25 blocks the difficulty rises iff the
      window took less than five minutes, and falls iff it took more than twenty, in whole seconds. */
  lemma {:induction false} ReleaseTargets(c: Crypto, chain: seq<Block>, i: nat)
    requires HexDigests(c) && MinedChain(c, RELEASE, chain) && 1 <= i < |chain|
    ensures i % 25 != 0 ==> chain[i].difficulty == chain[i - 1].difficulty
    ensures i % 25 == 0 ==>
              && i >= 25
              && var d, next := chain[i - 1].difficulty, chain[i].difficulty;
                 var took := chain[i - 1].time - chain[i - 25].time;
                 (next == d + 1 <==> took < 300_000) && (next == d - 1 <==> took >= 1_201_000)
  {
    hide MinedChain, HexDigests;
    if i % 25 == 0 {
      DifficultyMoves(c, RELEASE, chain, i);
    } else {
      DifficultyStep(c, RELEASE, chain, i);
    }
  }

  /** The same for the debug build: ten blocks, half a minute, two minutes. */
  lemma {:induction false} DebugTargets(c: Crypto, chain: seq<Block>, i: nat)
    requires HexDigests(c) && MinedChain(c, DEBUG, chain) && 1 <= i < |chain|
    ensures i % 10 != 0 ==> chain[i].difficulty == chain[i - 1].difficulty
    ensures i % 10 == 0 ==>
              && i >= 10
              && var d, next := chain[i - 1].difficulty, chain[i].difficulty;
                 var took := chain[i - 1].time - chain[i - 10].time;
                 (next == d + 1 <==> took < 30_000) && (next == d - 1 <==> took >= 121_000)
  {
    hide MinedChain, HexDigests;
    if i % 10 == 0 {
      DifficultyMoves(c, DEBUG, chain, i);
    } else {
      DifficultyStep(c, DEBUG, chain, i);
    }
  }
}
