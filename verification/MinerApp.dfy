/** The node program: the handlers and the mining loop, on the objects they update. */
module MinerApp {
  import opened Wrappers
  import opened Blocks
  import opened Retarget
  import opened Chains
  import opened ChainFile
  import opened ChainDatabase
  import opened Mining
  import opened Node

  /** Offers all blocks to the chain in order; those that do not fit are skipped. */
  method AddAll(chain: Blockchain, blocks: seq<Block>)
    requires chain.blocks != []
    modifies chain`blocks
    ensures chain.blocks == old(chain.blocks) + Added(chain.crypto, old(chain.blocks), blocks)
  {
    hide ValidHash;
    for i := 0 to |blocks|
      invariant chain.blocks == old(chain.blocks) + Added(chain.crypto, old(chain.blocks), blocks[..i])
    {
      assert blocks[..i + 1][..i] == blocks[..i];
      var added := chain.AddNewBlock(blocks[i], true);
    }
    assert blocks[..|blocks|] == blocks;
  }

  /** Offers one block and writes it if it was taken. */
  method AddAndWrite(chain: Blockchain, database: ChainDatabase, block: Block)
    requires chain.blocks != []
    modifies chain`blocks, database
    ensures chain.blocks == old(chain.blocks) + Added(chain.crypto, old(chain.blocks), [block])
    ensures database.file
         == FileAfter(database.doubles, old(database.file), Added(chain.crypto, old(chain.blocks), [block]))
  {
    var added := chain.AddNewBlock(block, true);
    assert AddedBy(HashCheck(chain.crypto), old(chain.blocks), [block][..0]) == [];
    assert old(chain.blocks) + [] == old(chain.blocks);
    assert Added(chain.crypto, old(chain.blocks), [block]) == if added then [block] else [];
    if added {
      database.Write(block);
      FileAfterSnoc(database.doubles, old(database.file), [], block);
      assert [] + [block] == [block];
    }
  }

  lemma {:induction false} AddedOneMore(valid: Block -> bool, base: seq<Block>, t: seq<Block>, b: Block)
    requires base != []
    ensures AddedBy(valid, base, t + [b])
         == AddedBy(valid, base, t) + AddedBy(valid, base + AddedBy(valid, base, t), [b])
  {
    assert (t + [b])[..|t|] == t;
    var now := base + AddedBy(valid, base, t);
    assert AddedBy(valid, now, [b][..0]) == [] && now + [] == now;
  }

  lemma {:induction false} FileAfterBoth(d: DoubleCodec, disk: Option<Bytes>, a: seq<Block>, b: seq<Block>)
    ensures FileAfter(d, FileAfter(d, disk, a), b) == FileAfter(d, disk, a + b)
  {
    ManyConcat(BlockEncoder(d), a, b);
    Regroup(OnDisk(disk), EncodeChain(d, a), EncodeChain(d, b));
    assert a == [] ==> a + b == b;
    assert b == [] ==> a + b == a;
  }

  /** The chain and the file after one block more has been offered. */
  lemma {:induction false} OfferStep(c: Crypto, d: DoubleCodec, base: seq<Block>, disk: Option<Bytes>,
                                     blocks: seq<Block>, i: nat)
    requires base != [] && i < |blocks|
    ensures var now := base + Added(c, base, blocks[..i]);
            var file := FileAfter(d, disk, Added(c, base, blocks[..i]));
            && base + Added(c, base, blocks[..i + 1]) == now + Added(c, now, [blocks[i]])
            && FileAfter(d, disk, Added(c, base, blocks[..i + 1])) == FileAfter(d, file, Added(c, now, [blocks[i]]))
  {
    assert blocks[..i + 1] == blocks[..i] + [blocks[i]];
    AddedOneMore(HashCheck(c), base, blocks[..i], blocks[i]);
    var a := Added(c, base, blocks[..i]);
    var b := Added(c, base + a, [blocks[i]]);
    FileAfterBoth(d, disk, a, b);
    assert base + (a + b) == (base + a) + b;
  }

  /** The same, writing each block that was taken to the end of the file. */
  method AddAndWriteAll(chain: Blockchain, database: ChainDatabase, blocks: seq<Block>)
    requires chain.blocks != []
    modifies chain`blocks, database
    ensures chain.blocks == old(chain.blocks) + Added(chain.crypto, old(chain.blocks), blocks)
    ensures database.file
         == FileAfter(database.doubles, old(database.file), Added(chain.crypto, old(chain.blocks), blocks))
  {
    ghost var base, disk := chain.blocks, database.file;
    var i := 0;
    assert Added(chain.crypto, base, blocks[..0]) == [];
    while i < |blocks|
      invariant i <= |blocks|
      invariant chain.blocks == base + Added(chain.crypto, base, blocks[..i])
      invariant database.file == FileAfter(database.doubles, disk, Added(chain.crypto, base, blocks[..i]))
    {
      OfferStep(chain.crypto, database.doubles, base, disk, blocks, i);
      AddAndWrite(chain, database, blocks[i]);
      i := i + 1;
    }
    assert blocks[..i] == blocks;
  }

  class MinerApp {
    const crypto: Crypto
    const doubles: DoubleCodec
    const params: Params
    var blockchain: Blockchain
    var tempchain: Blockchain?
    var database: ChainDatabase
    var miner: Miner

    /** The objects belong together, and a cached chain has no transactions that wait. */
    ghost predicate Valid()
      reads this, blockchain, tempchain, database, miner
    {
      && blockchain.crypto == crypto && blockchain.params == params
      && database.doubles == doubles && miner.crypto == crypto
      && (tempchain != null ==> tempchain != blockchain && tempchain.crypto == crypto && tempchain.params == params
                                && tempchain.txQueue == [])
    }

    ghost function State(): Node
      reads this, blockchain, tempchain, database
    {
      var temp := if tempchain == null then None else Some(tempchain.blocks);
      Node(blockchain.blocks, temp, blockchain.txQueue, None, database.file)
    }

    constructor (crypto: Crypto, doubles: DoubleCodec, params: Params, file: Option<Bytes>)
      ensures Valid() && fresh(blockchain) && fresh(database) && fresh(miner)
      ensures State() == Node([], None, [], None, file)
      ensures this.crypto == crypto && this.doubles == doubles && this.params == params
    {
      this.crypto := crypto;
      this.doubles := doubles;
      this.params := params;
      blockchain := new Blockchain(crypto, params);
      tempchain := null;
      database := new ChainDatabase(doubles, file);
      miner := new Miner(crypto, 0);
    }

    /** What `run` does before the threads start: the chain is read from the file, and a file that is not
        there is begun with a first block. The result says whether "invalid chain" is not thrown. */
    method Startup(wallet: string, uuid: string, now: int, data: string) returns (ok: bool)
      requires Valid() && blockchain.blocks == []
      requires database.file.None? ==> Storable(doubles, GenesisBlock(crypto, wallet, now, uuid, data))
      modifies blockchain`blocks, database
      ensures Valid() && blockchain == old(blockchain) && tempchain == old(tempchain)
      ensures old(database.file).None? ==>
                ok && State().chain == [GenesisBlock(crypto, wallet, now, uuid, data)] && DiskAgrees(doubles, State())
      ensures old(database.file).Some? && old(Restart(crypto, doubles, State())).Some? ==>
                && ok && State().chain == old(Restart(crypto, doubles, State())).value.chain
                && database.file == old(database.file)
      ensures old(database.file).Some? && ParseChain(doubles, OnDisk(old(database.file))).Some? ==>
                && State().chain == ParseChain(doubles, OnDisk(old(database.file))).value
                && (ok <==> ValidChain(crypto, State().chain))
    {
      var genesis := GenesisBlock(crypto, wallet, now, uuid, data);
      if database.file.None? {
        StoredGenesis(doubles, genesis);
      }
      ok := database.Initialize(blockchain, genesis);
    }

    /** Takes over the cached chain, if there is one. */
    method SyncBlockchain() returns (retval: bool)
      requires Valid() && CanSync(State())
      modifies this`blockchain, this`tempchain, blockchain, database
      ensures Valid() && State() == Sync(crypto, doubles, old(State()))
      ensures retval == old(SyncUses(State()))
      ensures blockchain == old(blockchain) || blockchain == old(tempchain)
    {
      retval := false;
      if tempchain != null {
        var t := tempchain.blocks;
        var back := blockchain.blocks[|blockchain.blocks| - 1];
        if t[0].index == 0 {
          blockchain, tempchain := tempchain, blockchain;
          database.Reset();
          database.WriteChain(blockchain.blocks);
          assert [] + EncodeChain(doubles, t) == EncodeChain(doubles, t);
          retval := true;
        } else if t[0].index <= back.index {
          blockchain.blocks := blockchain.blocks[..t[0].index];
          AddAll(blockchain, t);
          database.Reset();
          database.WriteChain(blockchain.blocks);
          assert [] + EncodeChain(doubles, blockchain.blocks) == EncodeChain(doubles, blockchain.blocks);
          retval := true;
        } else if t[0].index == back.index + 1 {
          AddAndWriteAll(blockchain, database, t);
          retval := true;
        }
        tempchain := null;
      }
    }

    /** A chain that was received and hangs together. */
    method HandleChainResponse(reply: seq<Block>) returns (request: Option<Request>)
      requires Valid() && reply != [] && CanJudge(blockchain.blocks, reply)
      modifies this`tempchain
      ensures Valid() && State() == old(State()).(temp := State().temp)
      ensures if Attaches(blockchain.blocks, reply)
              then State().temp == Some(reply) && request == None
              else State().temp == old(State()).temp && request == Some(NextRequest(blockchain.blocks, reply))
    {
      var front, back := reply[0], reply[|reply| - 1];
      var last := blockchain.blocks[|blockchain.blocks| - 1];
      if front.index == 0 {
        tempchain := new Blockchain(crypto, params);
        tempchain.blocks := reply;
        return None;
      } else if front.index > last.index + 1 {
        return Some(Range(last.index + 1, back.index));
      } else {
        var tempStartIdx := front.index - 1;
        if front.previousHash == blockchain.blocks[tempStartIdx].hash {
          tempchain := new Blockchain(crypto, params);
          tempchain.blocks := reply;
          return None;
        } else {
          return Some(Range(front.index - 1, back.index));
        }
      }
    }

    /** The `chain` branch of the responses: what is not valid is dropped. While no mining goes on, an
        update is taken over at once. */
    method HandleResponse(reply: seq<Block>, miningDone: bool) returns (request: Option<Request>)
      requires Valid() && CanJudge(blockchain.blocks, reply)
      requires miningDone ==> CanSync(Receive(crypto, State(), reply).0)
      modifies this`blockchain, this`tempchain, blockchain, database
      ensures Valid() && request == old(Receive(crypto, State(), reply)).1
      ensures State() == var received := old(Receive(crypto, State(), reply)).0;
                         if miningDone && !Invalid(crypto, reply) then Sync(crypto, doubles, received) else received
    {
      request := None;
      var received := new Blockchain(crypto, params);
      received.blocks := reply;
      var valid := received.IsValidChain();
      if |reply| == 0 || !valid {
        return;
      }
      request := HandleChainResponse(reply);
      if miningDone {
        var _ := SyncBlockchain();
      }
    }

    /** The `summary` branch of the responses. While no mining goes on, an update that waits is taken over. */
    method HandleSummary(remoteFirst: Block, remoteLast: Block, remoteWork: nat, resetEnabled: bool, miningDone: bool)
        returns (request: Option<Request>)
      requires Valid() && CanSync(State())
      modifies this`blockchain, this`tempchain, blockchain, database
      ensures Valid()
      ensures request == old(AfterSummary(State(), remoteFirst, remoteLast, remoteWork, resetEnabled))
      ensures State() == old(if miningDone then Sync(crypto, doubles, State()) else State())
    {
      request := None;
      var work := blockchain.CumulativeDifficulty(|blockchain.blocks| - 1);
      var known := if tempchain != null then tempchain.blocks else blockchain.blocks;
      if !known[0].SameHeader(remoteFirst) {
        if resetEnabled {
          request := Some(Full);
        }
      } else if work < remoteWork {
        request := Some(Range(known[|known| - 1].index + 1, remoteLast.index));
      }
      if miningDone {
        var _ := SyncBlockchain();
      }
    }

    /** The `chain` branch of the requests. */
    method ServeChain(request: Request) returns (reply: Option<seq<Block>>)
      requires Valid()
      ensures reply == Serve(blockchain.blocks, request)
    {
      match request
      case Full =>
        return Some(blockchain.blocks);
      case Range(id1, id2) =>
        var chain := blockchain.blocks;
        var current := 0;
        while current < |chain| && chain[current].index != id1
          invariant current <= |chain| && FindIndex(chain, id1, 0) == FindIndex(chain, id1, current)
        {
          current := current + 1;
        }
        if current == |chain| {
          return None;
        }
        ghost var start := current;
        var blocks: seq<Block> := [];
        while current < |chain| && chain[current].index <= id2
          invariant start <= current <= |chain|
          invariant UpTo(chain, start, id2) == blocks + UpTo(chain, current, id2)
        {
          blocks := blocks + [chain[current]];
          current := current + 1;
        }
        assert UpTo(chain, start, id2) == blocks;
        reply := if blocks == [] then None else Some(blocks);
    }

    /** The block that is going to be mined. */
    ghost function NextTemplate(wallet: string, uuid: string, now: int): Block
      reads this, blockchain, tempchain, database
      requires blockchain.blocks != []
    {
      TakeTemplate(crypto, State(), wallet, now, uuid, MinedData(State())).inflight.value
    }

    /** The first half of a turn of the mining loop: a template is taken under the lock, and mined. */
    method TakeAndMine(wallet: string, uuid: string, now: int, w: World, ghost limit: nat)
        returns (result: ResultType, block: Block)
      requires Valid() && CanLookBack(params, blockchain.blocks)
      requires OnlyCleared(w)
      requires OverAt(crypto, NextTemplate(wallet, uuid, now), AdjustedDifficulty(params, blockchain.blocks), w, limit)
      modifies blockchain`txQueue, miner
      ensures Valid() && State() == old(State()).(queue := [])
      ensures var taken := TakeTemplate(crypto, old(State()), wallet, now, uuid, MinedData(old(State())));
              var difficulty := AdjustedDifficulty(params, blockchain.blocks);
              var found := Search(crypto, taken.inflight.value, difficulty, w, 0, limit);
              && (result == SUCCESS <==> found.Some?)
              && block == if found.Some? then Candidate(crypto, taken.inflight.value, difficulty, w, found.value)
                          else taken.inflight.value
    {
      var newDifficulty := blockchain.GetAdjustedDifficulty();
      miner.SetDifficulty(newDifficulty);
      var newblock := blockchain.CreateUnminedBlock(wallet, now);
      newblock := newblock.SetMiner(uuid).SetData("coinbase block #" + Decimal(newblock.index));
      result, block := miner.MineBlock(newblock, w, limit);
    }

    /** The second half after a success: the block is appended and written. `added` is false when the chain
        has moved on in the meantime, and then nothing is written and mining stops. */
    method AppendAndWrite(mined: Block) returns (added: bool)
      requires Valid() && blockchain.blocks != []
      modifies blockchain`blocks, database
      ensures Valid() && State() == AppendMined(crypto, doubles, old(State()), mined)
      ensures added <==> Accepts(crypto, old(blockchain.blocks), mined)
    {
      hide ValidHash;
      added := blockchain.AddNewBlock(mined, true);
      if added {
        database.Write(mined);
      }
    }

    /** One turn of the mining loop while nobody else touches the chain: a success is appended, written, and
        followed by an update if one waits; otherwise the payments go back to the queue and the update is
        looked at. */
    method MineRound(wallet: string, uuid: string, now: int, w: World, ghost limit: nat) returns (result: ResultType)
      requires Valid() && GoodChain(crypto, blockchain.blocks) && params.interval > 0 && CanSync(State())
      requires OnlyCleared(w)
      requires (LookBackInRange(params, blockchain.blocks);
                var difficulty := AdjustedDifficulty(params, blockchain.blocks);
                OverAt(crypto, NextTemplate(wallet, uuid, now), difficulty, w, limit))
      modifies this`blockchain, this`tempchain, blockchain, database, miner
      ensures Valid() && CanLookBack(params, old(blockchain.blocks))
      ensures var n := old(State());
              var taken := TakeTemplate(crypto, n, wallet, now, uuid, MinedData(n));
              var difficulty := AdjustedDifficulty(params, n.chain);
              var found := Search(crypto, taken.inflight.value, difficulty, w, 0, limit);
              var grown := AfterRound(crypto, params, n.chain,
                                      Round(n.queue, wallet, now, uuid, MinedData(n), w, limit));
              && (result == SUCCESS <==> found.Some?)
              && if found.Some?
                 then var mined := Candidate(crypto, taken.inflight.value, difficulty, w, found.value);
                      var appended := AppendMined(crypto, doubles, taken, mined);
                      && appended.chain == n.chain + [mined] == grown && GoodChain(crypto, grown)
                      && CanSync(appended) && State() == Sync(crypto, doubles, appended)
                 else && n.chain == grown
                      && CanSync(AbortMining(taken)) && State() == Sync(crypto, doubles, AbortMining(taken))
    {
      hide ValidHash, Search, OverAt, EncodeBlock;
      ghost var n := State();
      LookBackInRange(params, blockchain.blocks);
      var block: Block;
      result, block := TakeAndMine(wallet, uuid, now, w, limit);
      ghost var taken := TakeTemplate(crypto, n, wallet, now, uuid, MinedData(n));
      ghost var newDifficulty := AdjustedDifficulty(params, n.chain);
      if result != SUCCESS {
        var _ := blockchain.ReQueueTransactions(block);
        assert State() == AbortMining(taken);
      } else {
        MinedIsAccepted(crypto, n.chain, n.queue, wallet, now, uuid, MinedData(n), newDifficulty, w, limit);
        var added := AppendAndWrite(block);
        assert State() == AppendMined(crypto, doubles, taken, block);
      }
      var _ := SyncBlockchain();
    }
  }

  /** The text put into a block that is mined next. */
  function MinedData(n: Node): string {
    "coinbase block #" + Decimal(|n.chain|)
  }

  lemma {:induction false} OneIsStorable(d: DoubleCodec, b: Block)
    requires Storable(d, b)
    ensures StorableChain(d, [b])
  {
  }

  lemma {:induction false} OneIsEncoded(d: DoubleCodec, b: Block)
    ensures EncodeChain(d, [b]) == EncodeBlock(d, b)
  {
    hide EncodeBlock;
    var rest: seq<Block> := [b][1..];
    assert rest == [] && EncodeMany(BlockEncoder(d), rest) == [];
    assert EncodeMany(BlockEncoder(d), [b]) == EncodeBlock(d, b) + [];
  }

  lemma {:induction false} StoredGenesis(d: DoubleCodec, genesis: Block)
    requires Storable(d, genesis)
    ensures ParseChain(d, EncodeBlock(d, genesis)) == Some([genesis])
    ensures EncodeBlock(d, genesis) == EncodeChain(d, [genesis])
  {
    hide *;
    OneIsStorable(d, genesis);
    OneIsEncoded(d, genesis);
    ReadsChain(d, [genesis]);
  }
}
