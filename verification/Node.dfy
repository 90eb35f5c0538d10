/** What a node does with its chain, a cached update, and its file, one locked region at a time. */
module Node {
  import opened Wrappers
  import opened Transactions
  import opened Blocks
  import opened Chains
  import opened ChainFile

  /** The chain in memory, an update that waits, the queue, the block being mined, and the file. */
  datatype Node = Node(chain: seq<Block>, temp: Option<seq<Block>>, queue: seq<Transaction>,
                       inflight: Option<Block>, disk: Option<Bytes>)

  /** What one node asks of another: its whole chain, or the blocks with indices in a range. */
  datatype Request = Full | Range(id1: nat, id2: nat)

  function Last(chain: seq<Block>): Block
    requires chain != []
  {
    chain[|chain| - 1]
  }

  // ----- taking over an update -----

  function HashCheck(c: Crypto): Block -> bool {
    b => ValidHash(c, b)
  }

  /** The blocks that are accepted when all are offered in order; a refused block is skipped. */
  function AddedBy(valid: Block -> bool, chain: seq<Block>, blocks: seq<Block>): seq<Block>
    requires chain != []
  {
    if blocks == [] then []
    else
      var n := |blocks| - 1;
      var before := AddedBy(valid, chain, blocks[..n]);
      before + if valid(blocks[n]) && blocks[n].previousHash == Last(chain + before).hash then [blocks[n]] else []
  }

  function Added(c: Crypto, chain: seq<Block>, blocks: seq<Block>): seq<Block>
    requires chain != []
  {
    AddedBy(HashCheck(c), chain, blocks)
  }

  /** The file once the blocks have been written to its end, one by one. */
  function FileAfter(d: DoubleCodec, disk: Option<Bytes>, added: seq<Block>): Option<Bytes> {
    if added == [] then disk else Some(OnDisk(disk) + EncodeChain(d, added))
  }

  lemma {:induction false} FileAfterSnoc(d: DoubleCodec, disk: Option<Bytes>, added: seq<Block>, b: Block)
    ensures FileAfter(d, disk, added + [b]) == Some(OnDisk(FileAfter(d, disk, added)) + EncodeBlock(d, b))
  {
    ChainSnoc(d, added, b);
    Regroup(OnDisk(disk), EncodeChain(d, added), EncodeBlock(d, b));
    if added == [] {
      assert EncodeChain(d, added) == [];
      assert OnDisk(disk) + [] == OnDisk(disk);
    }
  }

  /** Blocks that were never filled in would be added if the chain were resized upward. */
  predicate CanSync(n: Node) {
    && n.chain != []
    && (n.temp.Some? ==>
          n.temp.value != [] && (n.temp.value[0].index <= Last(n.chain).index ==> n.temp.value[0].index <= |n.chain|))
  }

  /** The cached update is used up in any case. */
  function Sync(c: Crypto, d: DoubleCodec, n: Node): Node
    requires CanSync(n)
  {
    if n.temp.None? then n
    else
      var t := n.temp.value;
      var from := t[0].index;
      if from == 0 then
        n.(chain := t, queue := [], temp := None, disk := Some(EncodeChain(d, t)))
      else if from <= Last(n.chain).index then
        var chain := n.chain[..from] + Added(c, n.chain[..from], t);
        n.(chain := chain, temp := None, disk := Some(EncodeChain(d, chain)))
      else if from == Last(n.chain).index + 1 then
        var added := Added(c, n.chain, t);
        n.(chain := n.chain + added, temp := None, disk := FileAfter(d, n.disk, added))
      else
        n.(temp := None)
  }

  /** Whether the update was used. */
  predicate SyncUses(n: Node)
    requires CanSync(n)
  {
    n.temp.Some? && n.temp.value[0].index <= Last(n.chain).index + 1
  }

  // ----- answering and asking -----

  /** The first block with the index, or the length of the chain. */
  function FindIndex(chain: seq<Block>, id: nat, from: nat): (r: nat)
    requires from <= |chain|
    ensures from <= r <= |chain|
    ensures r < |chain| ==> chain[r].index == id
    ensures forall i :: from <= i < r ==> chain[i].index != id
    decreases |chain| - from
  {
    if from == |chain| || chain[from].index == id then from else FindIndex(chain, id, from + 1)
  }

  /** The blocks from a place on, up to the first whose index is too large. */
  function UpTo(chain: seq<Block>, from: nat, id: nat): seq<Block>
    requires from <= |chain|
    decreases |chain| - from
  {
    if from == |chain| || chain[from].index > id then [] else [chain[from]] + UpTo(chain, from + 1, id)
  }

  /** The blocks of an answer; None stands for an answer without blocks. */
  function Serve(chain: seq<Block>, r: Request): Option<seq<Block>> {
    match r
    case Full => Some(chain)
    case Range(id1, id2) =>
      var start := FindIndex(chain, id1, 0);
      if start == |chain| || UpTo(chain, start, id2) == [] then None else Some(UpTo(chain, start, id2))
  }

  /** The block before the update must be there to be looked at. */
  predicate CanJudge(chain: seq<Block>, reply: seq<Block>) {
    && chain != []
    && (reply != [] && 0 < reply[0].index <= Last(chain).index + 1 ==> reply[0].index - 1 < |chain|)
  }

  predicate Invalid(c: Crypto, reply: seq<Block>) {
    reply == [] || !ValidChain(c, reply)
  }

  /** The reply is cached: it is a whole chain, or it attaches to the local chain. */
  predicate Attaches(chain: seq<Block>, reply: seq<Block>)
    requires reply != [] && CanJudge(chain, reply)
  {
    || reply[0].index == 0
    || (reply[0].index <= Last(chain).index + 1 && reply[0].previousHash == chain[reply[0].index - 1].hash)
  }

  /** What is asked for when the reply does not attach: the blocks in a gap, or one block more. */
  function NextRequest(chain: seq<Block>, reply: seq<Block>): Request
    requires reply != [] && CanJudge(chain, reply) && !Attaches(chain, reply)
  {
    if reply[0].index > Last(chain).index + 1 then Range(Last(chain).index + 1, Last(reply).index)
    else Range(reply[0].index - 1, Last(reply).index)
  }

  function Receive(c: Crypto, n: Node, reply: seq<Block>): (Node, Option<Request>)
    requires CanJudge(n.chain, reply)
  {
    if Invalid(c, reply) then (n, None)
    else if Attaches(n.chain, reply) then (n.(temp := Some(reply)), None)
    else (n, Some(NextRequest(n.chain, reply)))
  }

  /** What is asked for after a summary: first and last block of the other chain, and its work. */
  function AfterSummary(n: Node, remoteFirst: Block, remoteLast: Block, remoteWork: nat,
                        resetEnabled: bool): Option<Request>
    requires n.chain != [] && (n.temp.Some? ==> n.temp.value != [])
  {
    var known := if n.temp.Some? then n.temp.value else n.chain;
    if !known[0].SameHeader(remoteFirst) then if resetEnabled then Some(Full) else None
    else if Work(n.chain) < remoteWork then Some(Range(Last(known).index + 1, remoteLast.index))
    else None
  }

  // ----- mining -----

  function TakeTemplate(c: Crypto, n: Node, wallet: string, now: int, miner: string, data: string): Node
    requires n.chain != []
  {
    n.(queue := [], inflight := Some(UnminedBlock(c, n.chain, n.queue, wallet, now).SetMiner(miner).SetData(data)))
  }

  /** The mined block is appended and written. When the chain has moved on it is dropped. */
  function AppendMined(c: Crypto, d: DoubleCodec, n: Node, b: Block): Node
    requires n.chain != []
  {
    if Accepts(c, n.chain, b)
    then n.(chain := n.chain + [b], inflight := None, disk := Some(OnDisk(n.disk) + EncodeBlock(d, b)))
    else n.(inflight := None)
  }

  function AbortMining(n: Node): Node {
    if n.inflight.None? then n
    else n.(queue := n.queue + NonCoinbase(n.inflight.value.transactions), inflight := None)
  }

  /** Starting again from the file; None when the file cannot be read or "invalid chain" is thrown. */
  ghost function Restart(c: Crypto, d: DoubleCodec, n: Node): Option<Node> {
    var blocks := ParseChain(d, OnDisk(n.disk));
    if blocks.Some? && blocks.value != [] && ValidChain(c, blocks.value)
    then Some(Node(blocks.value, None, [], None, n.disk))
    else None
  }

  /** The block that is taken to be mined: it follows on the last, carries miner and data as given, and has the
      reward and the queue in it. */
  lemma {:induction false} TemplateCarries(c: Crypto, n: Node, wallet: string, now: int, miner: string, data: string)
    requires n.chain != []
    ensures var taken := TakeTemplate(c, n, wallet, now, miner, data);
            && taken == n.(queue := [], inflight := taken.inflight) && taken.inflight.Some?
            && var b := taken.inflight.value;
               && b.index == |n.chain| && b.previousHash == Last(n.chain).hash
               && b.miner == miner && b.data == data && b.time == now
               && b.transactions == [CreateCoinbaseTransaction(c, |n.chain|, wallet)] + WithIds(c, n.queue, |n.chain|)
  {
  }

  // ----- what an update becomes -----

  /** The blocks hang together, and the first follows on the last of the chain before them. */
  ghost predicate LinkedAfter(base: seq<Block>, t: seq<Block>)
    requires base != []
  {
    && (t != [] ==> t[0].previousHash == Last(base).hash)
    && forall i :: 1 <= i < |t| ==> t[i].previousHash == t[i - 1].hash
  }

  ghost predicate AllPass(valid: Block -> bool, t: seq<Block>) {
    forall i :: 0 <= i < |t| ==> valid(t[i])
  }

  lemma {:induction false} AddedAll(valid: Block -> bool, base: seq<Block>, t: seq<Block>)
    requires base != [] && LinkedAfter(base, t) && AllPass(valid, t)
    ensures AddedBy(valid, base, t) == t
  {
    if t != [] {
      var n := |t| - 1;
      var front := t[..n];
      assert forall i :: 0 <= i < n ==> front[i] == t[i];
      AddedAll(valid, base, front);
      assert Last(base + front) == if n == 0 then Last(base) else t[n - 1];
      assert front + [t[n]] == t;
    }
  }

  /** As many blocks come out as went in only if all of them passed. */
  lemma {:induction false} AddedIsPart(valid: Block -> bool, base: seq<Block>, t: seq<Block>)
    requires base != []
    ensures |AddedBy(valid, base, t)| <= |t|
    ensures |AddedBy(valid, base, t)| == |t| ==> AllPass(valid, t)
  {
    if t != [] {
      var n := |t| - 1;
      var front := t[..n];
      AddedIsPart(valid, base, front);
      if |AddedBy(valid, base, t)| == |t| {
        assert forall i :: 0 <= i < n ==> front[i] == t[i];
      }
    }
  }

  /** A cached update that attaches at f gives exactly the first f local blocks followed by the update
      if and only if each of its blocks passes the check on hashes. */
  lemma {:induction false} SyncIsExact(c: Crypto, d: DoubleCodec, n: Node, f: nat, t: seq<Block>)
    requires CanSync(n) && n.temp == Some(t) && Last(n.chain).index == |n.chain| - 1
    requires 1 <= f <= |n.chain| && t[0].index == f && LinkedAfter(n.chain[..f], t)
    ensures Sync(c, d, n).chain == n.chain[..f] + t <==> forall i :: 0 <= i < |t| ==> ValidHash(c, t[i])
  {
    var base := n.chain[..f];
    assert f == |n.chain| ==> base == n.chain;
    AddedIsPart(HashCheck(c), base, t);
    if AllPass(HashCheck(c), t) {
      AddedAll(HashCheck(c), base, t);
    }
    assert Sync(c, d, n).chain == base + Added(c, base, t);
    assert |base + Added(c, base, t)| == |base| + |Added(c, base, t)|;
    assert AllPass(HashCheck(c), t) <==> forall i :: 0 <= i < |t| ==> ValidHash(c, t[i]);
  }

  /** What an update leaves alone: the block in flight always, and the queue unless the whole chain is replaced,
      which leaves no payment that waits. The update is used up, so a second look does nothing; and an update
      that is not used changes nothing else. */
  lemma {:induction false} SyncLeaves(c: Crypto, d: DoubleCodec, n: Node)
    requires CanSync(n)
    ensures var after := Sync(c, d, n);
            && after.temp == None && after.inflight == n.inflight
            && (n.temp.Some? && n.temp.value[0].index == 0 ==> after.queue == [] && after.chain == n.temp.value)
            && (n.temp.Some? && n.temp.value[0].index > 0 ==> after.queue == n.queue)
            && (!SyncUses(n) ==> after == n.(temp := None))
            && CanSync(after) && Sync(c, d, after) == after
  {
    hide Added, EncodeChain, FileAfter;
  }

  // ----- what is received -----

  /** Whatever comes: only a valid chain is cached, as it came, and nothing else changes. What is not valid is
      not answered either. */
  lemma {:induction false} OnlyValidIsCached(c: Crypto, n: Node, reply: seq<Block>)
    requires CanJudge(n.chain, reply)
    ensures var (after, request) := Receive(c, n, reply);
            && after == n.(temp := after.temp)
            && (after.temp == n.temp || (after.temp == Some(reply) && reply != [] && ValidChain(c, reply)))
            && (reply == [] || !ValidChain(c, reply) ==> after == n && request == None)
            && (reply != [] && ValidChain(c, reply) && reply[0].index == 0 ==> after.temp == Some(reply))
            && (request != None ==> after == n)
  {
    hide ValidPair;
  }

  /** Asking for everything and taking it over gives the peer's chain, in memory and in the file. */
  lemma {:induction false} WholeChainIsTaken(c: Crypto, d: DoubleCodec, n: Node, peer: seq<Block>)
    requires CanJudge(n.chain, peer) && peer != [] && ValidChain(c, peer) && peer[0].index == 0
    ensures Serve(peer, Full) == Some(peer)
    ensures var received := Receive(c, n, peer).0;
            && CanSync(received)
            && Sync(c, d, received) == Node(peer, None, [], n.inflight, Some(EncodeChain(d, peer)))
  {
  }

  /** After a summary: the whole chain is asked for exactly if the first block is another one and that is
      allowed; a range exactly if the first block is the same and there is more work, and then it begins right
      after what is known and ends with the last block; nothing otherwise. */
  lemma {:induction false} SummaryAsks(n: Node, first: Block, last: Block, work: nat, resetEnabled: bool)
    requires n.chain != [] && (n.temp.Some? ==> n.temp.value != [])
    ensures var known := if n.temp.Some? then n.temp.value else n.chain;
            var asked := AfterSummary(n, first, last, work, resetEnabled);
            && (asked == Some(Full) <==> !known[0].SameHeader(first) && resetEnabled)
            && (asked.Some? && asked.value.Range? <==> known[0].SameHeader(first) && work > Work(n.chain))
            && (asked.Some? && asked.value.Range? ==> asked.value == Range(Last(known).index + 1, last.index))
  {
  }

  /** A node whose own chain is summarised, or that has no less work, asks for nothing. */
  lemma {:induction false} NothingToAsk(n: Node, peer: seq<Block>, resetEnabled: bool)
    requires n.chain != [] && peer != [] && n.temp.None?
    requires n.chain[0].SameHeader(peer[0]) && Work(peer) <= Work(n.chain)
    ensures AfterSummary(n, peer[0], Last(peer), Work(peer), resetEnabled) == None
  {
  }

  // ----- what is added -----

  /** Whatever was cached: what an update adds is linked to the local blocks that stay, and passes. */
  lemma {:induction false} AddedIsLinked(valid: Block -> bool, base: seq<Block>, t: seq<Block>)
    requires base != []
    ensures LinkedAfter(base, AddedBy(valid, base, t)) && AllPass(valid, AddedBy(valid, base, t))
  {
    if t != [] {
      AddedIsLinked(valid, base, t[..|t| - 1]);
    }
  }

  // ----- the file and the memory -----

  ghost predicate DiskAgrees(d: DoubleCodec, n: Node) {
    n.disk == Some(EncodeChain(d, n.chain))
  }

  /** Every branch of an update keeps file and memory the same. */
  lemma {:induction false} SyncKeepsDisk(c: Crypto, d: DoubleCodec, n: Node)
    requires CanSync(n) && DiskAgrees(d, n)
    ensures DiskAgrees(d, Sync(c, d, n))
  {
    hide Added, EncodeChain, FileAfter;
    if n.temp.Some? {
      FileFollows(d, n.chain, Added(c, n.chain, n.temp.value));
    }
  }

  lemma {:induction false} FileFollows(d: DoubleCodec, chain: seq<Block>, added: seq<Block>)
    ensures FileAfter(d, Some(EncodeChain(d, chain)), added) == Some(EncodeChain(d, chain + added))
  {
    ManyConcat(BlockEncoder(d), chain, added);
    assert added == [] ==> chain + added == chain;
  }

  lemma {:induction false} AppendKeepsDisk(c: Crypto, d: DoubleCodec, n: Node, b: Block)
    requires n.chain != [] && DiskAgrees(d, n)
    ensures DiskAgrees(d, AppendMined(c, d, n, b))
  {
    ChainSnoc(d, n.chain, b);
  }

  /** A restart finds the chain that was in memory, and does not throw. */
  lemma {:induction false} RestartFindsChain(c: Crypto, d: DoubleCodec, n: Node)
    requires n.chain != [] && ValidChain(c, n.chain) && StorableChain(d, n.chain) && DiskAgrees(d, n)
    ensures Restart(c, d, n) == Some(Node(n.chain, None, [], None, n.disk))
  {
    ReadsChain(d, n.chain);
  }

  /** Whatever the file holds: a node starts again only with a valid chain that is not empty, with nothing cached,
      queued or in flight, and leaves the file alone. */
  lemma {:induction false} RestartIsClean(c: Crypto, d: DoubleCodec, n: Node)
    ensures var r := Restart(c, d, n);
            r.Some? ==>
              && r.value.chain != [] && ValidChain(c, r.value.chain)
              && r.value == Node(r.value.chain, None, [], None, n.disk)
              && ParseChain(d, OnDisk(n.disk)) == Some(r.value.chain)
  {
  }

  /** Between appending and writing. */
  function Appended(n: Node, b: Block): Node {
    n.(chain := n.chain + [b])
  }

  function Written(d: DoubleCodec, n: Node, b: Block): Node {
    n.(disk := Some(OnDisk(n.disk) + EncodeBlock(d, b)))
  }

  /** Blocks with different indices are written differently, whatever follows. */
  lemma {:induction false} IndexIsWritten(d: DoubleCodec, a: Block, b: Block, x: Bytes, y: Bytes)
    requires a.index < UINT64_SIZE && b.index < UINT64_SIZE && a.index != b.index
    ensures EncodeBlock(d, a) + x != EncodeBlock(d, b) + y
  {
    ReadsIndex(d, a, x);
    ReadsIndex(d, b, y);
  }

  lemma {:induction false} ReadsIndex(d: DoubleCodec, b: Block, x: Bytes)
    requires b.index < UINT64_SIZE
    ensures var first := ParseNumber(8, EncodeBlock(d, b) + x); first.Some? && first.value.0 == b.index
  {
    hide EncodeString, EncodeList, EncodeTime;
    var rest := EncodeBlock(d, b)[8..];
    assert EncodeBlock(d, b) == U64(b.index) + rest;
    Regroup(U64(b.index), rest, x);
    ReadsNumber(b.index, 8, rest + x);
  }

  lemma {:induction false} AddedCameIn(valid: Block -> bool, base: seq<Block>, t: seq<Block>, b: Block)
    requires base != [] && b in AddedBy(valid, base, t)
    ensures b in t
  {
    var n := |t| - 1;
    if b in AddedBy(valid, base, t[..n]) {
      AddedCameIn(valid, base, t[..n], b);
    }
  }

  lemma {:induction false} IndicesGrow(c: Crypto, t: seq<Block>, i: nat)
    requires ValidChain(c, t) && i < |t|
    ensures t[i].index == t[0].index + i
  {
    if i > 0 {
      IndicesGrow(c, t, i - 1);
      assert ValidPair(c, t[i - 1], t[i]);
    }
  }

  lemma {:induction false} PrefixCancels(p: Bytes, x: Bytes, y: Bytes)
    requires p + x == p + y
    ensures x == y
  {
    assert x == (p + x)[|p|..] && y == (p + y)[|p|..];
  }

  lemma {:induction false} FirstIsWritten(d: DoubleCodec, chain: seq<Block>)
    requires chain != []
    ensures EncodeChain(d, chain) == EncodeBlock(d, chain[0]) + EncodeChain(d, chain[1..])
  {
  }

  /** A block behind an update is not the block before it. */
  lemma {:induction false} BehindIsNotBefore(d: DoubleCodec, chain: seq<Block>, b: Block, added: seq<Block>)
    requires b.index < UINT64_SIZE && added != [] && added[0].index < UINT64_SIZE && added[0].index != b.index
    ensures EncodeChain(d, chain) + EncodeChain(d, added) + EncodeBlock(d, b) != EncodeChain(d, chain + [b] + added)
  {
    var before, behind, block := EncodeChain(d, chain), EncodeChain(d, added), EncodeBlock(d, b);
    var first, rest := EncodeBlock(d, added[0]), EncodeChain(d, added[1..]);
    hide *;
    FirstIsWritten(d, added);
    Regroup(first, rest, block);
    IndexIsWritten(d, added[0], b, rest + block, behind);
    BothWays(d, chain, b, added);
    Regroup(before, behind, block);
    Regroup(before, block, behind);
    if before + behind + block == before + block + behind {
      PrefixCancels(before, behind + block, block + behind);
    }
  }

  lemma {:induction false} BothWays(d: DoubleCodec, chain: seq<Block>, b: Block, added: seq<Block>)
    ensures EncodeChain(d, chain + [b] + added) == EncodeChain(d, chain) + EncodeBlock(d, b) + EncodeChain(d, added)
  {
    ChainSnoc(d, chain, b);
    ManyConcat(BlockEncoder(d), chain + [b], added);
  }

  /** The update replaces blocks up to the new one, or adds to it. */
  predicate Disturbs(c: Crypto, n: Node, b: Block)
    requires CanSync(Appended(n, b))
  {
    && n.temp.Some?
    && var t := n.temp.value;
       t[0].index <= b.index || (t[0].index == b.index + 1 && Added(c, n.chain + [b], t) != [])
  }

  /** An update that rewrites the file does not leave room for a block behind it. */
  lemma {:induction false} RewriteDisturbs(c: Crypto, d: DoubleCodec, n: Node, b: Block)
    requires n.chain != []
    requires CanSync(Appended(n, b)) && n.temp.Some? && n.temp.value[0].index <= b.index
    ensures !DiskAgrees(d, Written(d, Sync(c, d, Appended(n, b)), b))
  {
    assert Last(Appended(n, b).chain) == b;
    var synced := Sync(c, d, Appended(n, b));
    assert DiskAgrees(d, synced);
    assert |EncodeBlock(d, b)| >= 8;
    assert |EncodeChain(d, synced.chain) + EncodeBlock(d, b)| > |EncodeChain(d, synced.chain)|;
  }

  lemma {:induction false} AddedIndex(c: Crypto, base: seq<Block>, t: seq<Block>)
    requires base != [] && ValidChain(c, t) && Added(c, base, t) != []
    ensures Added(c, base, t)[0] in t && t[0].index <= Added(c, base, t)[0].index
  {
    hide AddedBy, ValidChain;
    var first := Added(c, base, t)[0];
    AddedCameIn(HashCheck(c), base, t, first);
    var i :| 0 <= i < |t| && t[i] == first;
    IndicesGrow(c, t, i);
  }

  /** What an update that follows on the block makes of chain and file. */
  lemma {:induction false} ExtensionGives(c: Crypto, d: DoubleCodec, n: Node, b: Block)
    requires n.chain != [] && DiskAgrees(d, n) && CanSync(Appended(n, b))
    requires n.temp.Some? && n.temp.value[0].index == b.index + 1
    ensures var added := Added(c, n.chain + [b], n.temp.value);
            var written := Written(d, Sync(c, d, Appended(n, b)), b);
            && written.chain == n.chain + [b] + added
            && (added != [] ==>
                  written.disk == Some(EncodeChain(d, n.chain) + EncodeChain(d, added) + EncodeBlock(d, b)))
  {
    hide Added, EncodeBlock, EncodeChain;
    assert Last(Appended(n, b).chain) == b;
  }

  lemma {:induction false} ExtensionDisturbs(c: Crypto, d: DoubleCodec, n: Node, b: Block)
    requires n.chain != [] && DiskAgrees(d, n) && CanSync(Appended(n, b))
    requires n.temp.Some? && n.temp.value[0].index == b.index + 1 && Added(c, n.chain + [b], n.temp.value) != []
    requires b.index < UINT64_SIZE && Received(c, n)
    ensures !DiskAgrees(d, Written(d, Sync(c, d, Appended(n, b)), b))
  {
    var added := Added(c, n.chain + [b], n.temp.value);
    AddedIndex(c, n.chain + [b], n.temp.value);
    BehindIsNotBefore(d, n.chain, b, added);
    ExtensionGives(c, d, n, b);
    hide Added, EncodeChain, EncodeBlock, Sync;
  }

  lemma {:induction false} WriteFollows(d: DoubleCodec, n: Node, b: Block)
    requires DiskAgrees(d, n)
    ensures DiskAgrees(d, Written(d, Appended(n, b), b))
  {
    ChainSnoc(d, n.chain, b);
  }

  lemma {:induction false} UndisturbedAgrees(c: Crypto, d: DoubleCodec, n: Node, b: Block)
    requires n.chain != [] && DiskAgrees(d, n) && CanSync(Appended(n, b)) && !Disturbs(c, n, b)
    ensures DiskAgrees(d, Written(d, Sync(c, d, Appended(n, b)), b))
  {
    ChainSnoc(d, n.chain, b);
    assert Last(Appended(n, b).chain) == b;
    assert n.chain + [b] + [] == n.chain + [b];
  }

  lemma {:induction false} DisturbedDiffers(c: Crypto, d: DoubleCodec, n: Node, b: Block)
    requires n.chain != [] && DiskAgrees(d, n) && CanSync(Appended(n, b)) && Disturbs(c, n, b)
    requires b.index < UINT64_SIZE && Received(c, n)
    ensures !DiskAgrees(d, Written(d, Sync(c, d, Appended(n, b)), b))
  {
    if n.temp.value[0].index <= b.index {
      RewriteDisturbs(c, d, n, b);
    } else {
      ExtensionDisturbs(c, d, n, b);
    }
  }

  /** What is cached was a valid chain when it was received. */
  ghost predicate Received(c: Crypto, n: Node) {
    n.temp.Some? ==> ValidChain(c, n.temp.value) && forall x <- n.temp.value :: x.index < UINT64_SIZE
  }

  /** Appending and writing are two steps with no lock around them. If an update is taken over between them
      that replaces or adds blocks, the block is written behind it, and file and memory differ. In every
      other case they agree. */
  lemma {:induction false} LateWrite(c: Crypto, d: DoubleCodec, n: Node, b: Block, syncs: bool)
    requires n.chain != [] && DiskAgrees(d, n) && CanSync(Appended(n, b))
    requires b.index < UINT64_SIZE && Received(c, n)
    ensures DiskAgrees(d, Written(d, if syncs then Sync(c, d, Appended(n, b)) else Appended(n, b), b))
            <==> !syncs || !Disturbs(c, n, b)
  {
    hide *;
    if !syncs {
      WriteFollows(d, n, b);
    } else if !Disturbs(c, n, b) {
      UndisturbedAgrees(c, d, n, b);
    } else {
      DisturbedDiffers(c, d, n, b);
    }
  }
}
