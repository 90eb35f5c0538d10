/** Any number of nodes, and any interleaving of what they do. */
module Network {
  import opened Wrappers
  import opened Transactions
  import opened Blocks
  import opened Chains
  import opened ChainFile
  import opened Node

  /** What the nodes share. No two blocks of different height have the same hash: `height` tells the
      height of the block that has a hash. */
  datatype Env = Env(c: Crypto, d: DoubleCodec, height: string -> nat)

  /** The nodes, and every answer that was ever sent: answers may be late, repeated or lost. */
  datatype Net = Net(nodes: seq<Node>, wire: set<seq<Block>>)

  datatype Action =
    | Queue(node: nat, tx: Transaction)
    | Template(node: nat, wallet: string, now: int, miner: string, data: string)
    | Append(node: nat, nonce: nat, difficulty: nat, time: int, hash: string)
    | Abort(node: nat)
    | Answer(node: nat, request: Request)
    | Deliver(node: nat, reply: seq<Block>)
    | TakeOver(node: nat)
    | Reboot(node: nat)

  // ----- what is kept true -----

  /** A block as it may be at its height. Nothing is asked of the hash of a first block. */
  ghost predicate GoodBlock(env: Env, b: Block) {
    && env.height(b.hash) == b.index
    && Storable(env.d, b)
    && (b.index > 0 ==> ValidHash(env.c, b))
  }

  /** A run of consecutive blocks of some chain. */
  ghost predicate Fragment(env: Env, bs: seq<Block>) {
    && bs != []
    && (forall i :: 0 <= i < |bs| ==> bs[i].index == bs[0].index + i)
    && (forall i :: 1 <= i < |bs| ==> bs[i].previousHash == bs[i - 1].hash)
    && (forall i :: 0 <= i < |bs| ==> GoodBlock(env, bs[i]))
  }

  ghost predicate WholeChain(env: Env, chain: seq<Block>) {
    Fragment(env, chain) && chain[0].index == 0
  }

  /** A cached update is a whole chain, or attaches to the local chain. */
  ghost predicate CachedFits(env: Env, chain: seq<Block>, t: seq<Block>) {
    && Fragment(env, t)
    && (t[0].index == 0 || (t[0].index <= |chain| && t[0].previousHash == chain[t[0].index - 1].hash))
  }

  /** The block being mined has the index that follows the block it was made for. */
  ghost predicate TemplateFits(env: Env, b: Block) {
    b.index >= 1 && env.height(b.previousHash) == b.index - 1
  }

  ghost predicate NodeOk(env: Env, n: Node) {
    && WholeChain(env, n.chain)
    && (n.temp.Some? ==> CachedFits(env, n.chain, n.temp.value))
    && (n.inflight.Some? ==> TemplateFits(env, n.inflight.value))
    && DiskAgrees(env.d, n)
  }

  ghost predicate NetOk(env: Env, net: Net) {
    && (forall n <- net.nodes :: NodeOk(env, n))
    && (forall r <- net.wire :: Fragment(env, r))
  }

  // ----- steps -----

  function Minted(b: Block, a: Action): Block
    requires a.Append?
  {
    b.SetMinedData(a.nonce, a.difficulty, a.time, a.hash)
  }

  /** What a node does when it acts alone. */
  ghost function NodeStep(env: Env, n: Node, a: Action): Node
    requires NodeOk(env, n)
  {
    match a
    case Queue(_, tx) => n.(queue := n.queue + [tx])
    case Template(_, wallet, now, miner, data) =>
      if n.inflight.Some? then n else TakeTemplate(env.c, n, wallet, now, miner, data)
    case Append(_, _, _, _, _) =>
      if n.inflight.None? then n else AppendMined(env.c, env.d, n, Minted(n.inflight.value, a))
    case Abort(_) => AbortMining(n)
    case Answer(_, _) => n
    case Deliver(_, reply) => Receive(env.c, n, reply).0
    case TakeOver(_) => Sync(env.c, env.d, n)
    case Reboot(_) => var r := Restart(env.c, env.d, n); if r.Some? then r.value else n
  }

  /** What a step asks of the world: a mined block has a height of its own and can be stored; what is
      delivered was sent. */
  ghost predicate Enabled(env: Env, net: Net, a: Action) {
    && a.node < |net.nodes|
    && (a.Append? ==>
          var n := net.nodes[a.node];
          n.inflight.Some? ==>
            var b := Minted(n.inflight.value, a);
            ValidHash(env.c, b) ==> env.height(b.hash) == b.index && Storable(env.d, b))
    && (a.Deliver? ==> a.reply in net.wire)
  }

  ghost function Step(env: Env, net: Net, a: Action): Net
    requires NetOk(env, net)
  {
    if !Enabled(env, net, a) then net
    else
      var n := net.nodes[a.node];
      if a.Answer? then
        var reply := Serve(n.chain, a.request);
        if reply.Some? then net.(wire := net.wire + {reply.value}) else net
      else
        net.(nodes := net.nodes[a.node := NodeStep(env, n, a)])
  }

  // ----- each step keeps it -----

  lemma {:induction false} FragmentIsValid(env: Env, bs: seq<Block>)
    requires Fragment(env, bs) && bs[0].index == 0
    ensures ValidChain(env.c, bs) && GoodChain(env.c, bs) && StorableChain(env.d, bs)
  {
    forall i | 1 <= i < |bs| ensures ValidHash(env.c, bs[i]) {
      assert GoodBlock(env, bs[i]);
    }
    forall b <- bs ensures Storable(env.d, b) {
      var i :| 0 <= i < |bs| && bs[i] == b;
      assert GoodBlock(env, bs[i]);
    }
  }

  lemma {:induction false} PartIsFragment(env: Env, bs: seq<Block>, from: nat, to: nat)
    requires Fragment(env, bs) && from < to <= |bs|
    ensures Fragment(env, bs[from..to])
  {
    var part := bs[from..to];
    forall i | 0 <= i < |part|
      ensures part[i] == bs[from + i] && part[i].index == part[0].index + i && GoodBlock(env, part[i])
    {
      assert GoodBlock(env, bs[from + i]);
    }
    forall i | 1 <= i < |part| ensures part[i].previousHash == part[i - 1].hash {
      assert part[i] == bs[from + i] && part[i - 1] == bs[from + (i - 1)];
    }
  }

  lemma {:induction false} JoinIsFragment(env: Env, a: seq<Block>, b: seq<Block>)
    requires Fragment(env, a) && Fragment(env, b)
    requires b[0].index == a[0].index + |a| && b[0].previousHash == a[|a| - 1].hash
    ensures Fragment(env, a + b)
  {
    var all := a + b;
    forall i | 0 <= i < |all| ensures all[i].index == all[0].index + i && GoodBlock(env, all[i]) {
      var x := if i < |a| then a[i] else b[i - |a|];
      assert all[i] == x && GoodBlock(env, x);
    }
    forall i | 1 <= i < |all| ensures all[i].previousHash == all[i - 1].hash {
      if i < |a| {
        assert all[i] == a[i] && all[i - 1] == a[i - 1];
      } else if i > |a| {
        assert all[i] == b[i - |a|] && all[i - 1] == b[i - |a| - 1];
      }
    }
  }

  lemma {:induction false} OneIsFragment(env: Env, b: Block)
    requires GoodBlock(env, b)
    ensures Fragment(env, [b])
  {
  }

  /** An answer is a part of the chain it was taken from. */
  lemma {:induction false} UpToIsPart(chain: seq<Block>, from: nat, id: nat)
    requires from <= |chain|
    ensures from + |UpTo(chain, from, id)| <= |chain|
    ensures UpTo(chain, from, id) == chain[from..from + |UpTo(chain, from, id)|]
    decreases |chain| - from
  {
    if from < |chain| && chain[from].index <= id {
      UpToIsPart(chain, from + 1, id);
      var k := |UpTo(chain, from + 1, id)|;
      assert chain[from..from + 1 + k] == [chain[from]] + chain[from + 1..from + 1 + k];
    }
  }

  lemma {:induction false} AnswerIsFragment(env: Env, chain: seq<Block>, r: Request)
    requires WholeChain(env, chain) && Serve(chain, r).Some?
    ensures Fragment(env, Serve(chain, r).value)
  {
    hide Fragment, UpTo, FindIndex;
    match r
    case Full =>
    case Range(id1, id2) =>
      var from := FindIndex(chain, id1, 0);
      UpToIsPart(chain, from, id2);
      PartIsFragment(env, chain, from, from + |UpTo(chain, from, id2)|);
  }

  /** An update from block 1 on never finds the local chain too short. */
  lemma {:induction false} CachedCanSync(env: Env, n: Node)
    requires NodeOk(env, n)
    ensures CanSync(n)
    ensures n.temp.Some? ==> SyncUses(n)
  {
    assert Last(n.chain).index == |n.chain| - 1;
  }

  lemma {:induction false} LinksAfter(env: Env, chain: seq<Block>, t: seq<Block>)
    requires WholeChain(env, chain) && CachedFits(env, chain, t) && t[0].index > 0
    ensures LinkedAfter(chain[..t[0].index], t) && AllPass(HashCheck(env.c), t)
    ensures Fragment(env, chain[..t[0].index] + t)
  {
    var f := t[0].index;
    var base := chain[..f];
    assert base == chain[0..f];
    PartIsFragment(env, chain, 0, f);
    assert Last(base) == chain[f - 1];
    JoinIsFragment(env, base, t);
    forall i | 0 <= i < |t| ensures HashCheck(env.c)(t[i]) {
      assert GoodBlock(env, t[i]);
    }
  }

  /** What an update makes of the chain: the whole of it, or the local blocks before it and then it. */
  lemma {:induction false} SyncResult(env: Env, n: Node)
    requires NodeOk(env, n) && n.temp.Some?
    ensures CanSync(n)
    ensures var t := n.temp.value; Sync(env.c, env.d, n).chain == n.chain[..t[0].index] + t
    ensures WholeChain(env, Sync(env.c, env.d, n).chain)
  {
    hide ValidHash, FileAfter;
    CachedCanSync(env, n);
    var t := n.temp.value;
    if t[0].index == 0 {
      assert n.chain[..0] + t == t;
    } else {
      LinksAfter(env, n.chain, t);
      assert t[0].index == |n.chain| ==> n.chain[..t[0].index] == n.chain;
      AddedAll(HashCheck(env.c), n.chain[..t[0].index], t);
      var whole := n.chain[..t[0].index] + t;
      assert whole[0] == n.chain[0];
    }
  }

  lemma {:induction false} SyncKeeps(env: Env, n: Node)
    requires NodeOk(env, n)
    ensures CanSync(n) && NodeOk(env, Sync(env.c, env.d, n))
  {
    CachedCanSync(env, n);
    SyncKeepsDisk(env.c, env.d, n);
    if n.temp.Some? {
      SyncResult(env, n);
    }
  }

  lemma {:induction false} JudgeInRange(env: Env, n: Node, reply: seq<Block>)
    requires NodeOk(env, n)
    ensures CanJudge(n.chain, reply)
  {
    assert Last(n.chain).index == |n.chain| - 1;
  }

  lemma {:induction false} ReceiveKeeps(env: Env, n: Node, reply: seq<Block>)
    requires NodeOk(env, n) && Fragment(env, reply)
    ensures CanJudge(n.chain, reply) && NodeOk(env, Receive(env.c, n, reply).0)
  {
    JudgeInRange(env, n, reply);
    if !Invalid(env.c, reply) && Attaches(n.chain, reply) {
      assert CachedFits(env, n.chain, reply);
    }
  }

  lemma {:induction false} TemplateKeeps(env: Env, n: Node, a: Action)
    requires NodeOk(env, n) && a.Template?
    ensures NodeOk(env, NodeStep(env, n, a))
  {
    assert GoodBlock(env, Last(n.chain));
  }

  /** A block mined for an older chain is taken only if it fits where it is put. */
  lemma {:induction false} AppendKeeps(env: Env, n: Node, b: Block)
    requires NodeOk(env, n) && TemplateFits(env, b)
    requires ValidHash(env.c, b) ==> env.height(b.hash) == b.index && Storable(env.d, b)
    ensures NodeOk(env, AppendMined(env.c, env.d, n, b))
  {
    AppendKeepsDisk(env.c, env.d, n, b);
    if Accepts(env.c, n.chain, b) {
      assert GoodBlock(env, Last(n.chain));
      assert GoodBlock(env, b);
      OneIsFragment(env, b);
      JoinIsFragment(env, n.chain, [b]);
      var longer := n.chain + [b];
      assert longer[0] == n.chain[0];
      if n.temp.Some? && n.temp.value[0].index > 0 {
        assert longer[n.temp.value[0].index - 1] == n.chain[n.temp.value[0].index - 1];
      }
    }
  }

  lemma {:induction false} RebootKeeps(env: Env, n: Node)
    requires NodeOk(env, n)
    ensures Restart(env.c, env.d, n) == Some(Node(n.chain, None, [], None, n.disk))
  {
    FragmentIsValid(env, n.chain);
    RestartFindsChain(env.c, env.d, n);
  }

  lemma {:induction false} NodeStepKeeps(env: Env, net: Net, a: Action)
    requires NetOk(env, net) && Enabled(env, net, a)
    ensures NodeOk(env, NodeStep(env, net.nodes[a.node], a))
  {
    var n := net.nodes[a.node];
    assert n in net.nodes;
    match a
    case Queue(_, _) =>
    case Template(_, _, _, _, _) => TemplateKeeps(env, n, a);
    case Append(_, _, _, _, _) =>
      if n.inflight.Some? {
        AppendKeeps(env, n, Minted(n.inflight.value, a));
      }
    case Abort(_) =>
    case Answer(_, _) =>
    case Deliver(_, reply) => ReceiveKeeps(env, n, reply);
    case TakeOver(_) => SyncKeeps(env, n);
    case Reboot(_) => RebootKeeps(env, n);
  }

  lemma {:induction false} OneNodeChanges(env: Env, net: Net, k: nat, n: Node)
    requires NetOk(env, net) && k < |net.nodes| && NodeOk(env, n)
    ensures NetOk(env, net.(nodes := net.nodes[k := n]))
  {
    forall m <- net.nodes[k := n] ensures NodeOk(env, m) {
      assert m == n || m in net.nodes;
    }
  }

  lemma {:induction false} OneAnswerMore(env: Env, net: Net, reply: seq<Block>)
    requires NetOk(env, net) && Fragment(env, reply)
    ensures NetOk(env, net.(wire := net.wire + {reply}))
  {
  }

  lemma {:induction false} StepKeeps(env: Env, net: Net, a: Action)
    requires NetOk(env, net)
    ensures NetOk(env, Step(env, net, a))
  {
    if Enabled(env, net, a) {
      var n := net.nodes[a.node];
      assert n in net.nodes;
      if !a.Answer? {
        NodeStepKeeps(env, net, a);
        OneNodeChanges(env, net, a.node, NodeStep(env, n, a));
      } else if Serve(n.chain, a.request).Some? {
        AnswerIsFragment(env, n.chain, a.request);
        OneAnswerMore(env, net, Serve(n.chain, a.request).value);
      }
    }
  }

  // ----- whole runs -----

  /** A node that has just made its first block, or read it from its file. */
  ghost predicate Fresh(env: Env, n: Node) {
    && |n.chain| == 1 && n.chain[0].index == 0 && GoodBlock(env, n.chain[0])
    && n.temp.None? && n.inflight.None? && DiskAgrees(env.d, n)
  }

  /** The state that a list of actions leads to, if everything is kept on the way. */
  ghost function Run(env: Env, net: Net, actions: seq<Action>): (r: Net)
    requires NetOk(env, net)
    ensures NetOk(env, r)
  {
    if actions == [] then net
    else
      var k := |actions| - 1;
      var before := Run(env, net, actions[..k]);
      StepKeeps(env, before, actions[k]);
      Step(env, before, actions[k])
  }

  /** Whatever the nodes do, in whatever order: each node's chain is never empty, has block i at place i,
      is linked, and every block after the first passes the check on hashes. The file holds that chain, a
      restart would find it again, and a cached update is never too far ahead. */
  lemma {:induction false} NetworkIsSafe(env: Env, net: Net, actions: seq<Action>, i: nat)
    requires i < |net.nodes|
    requires (forall n <- net.nodes :: Fresh(env, n)) && net.wire == {}
    ensures NetOk(env, net) && |Run(env, net, actions).nodes| == |net.nodes|
    ensures var n := Run(env, net, actions).nodes[i];
            && GoodChain(env.c, n.chain)
            && DiskAgrees(env.d, n)
            && Restart(env.c, env.d, n) == Some(Node(n.chain, None, [], None, n.disk))
            && CanSync(n)
            && (n.temp.Some? ==> SyncUses(n))
  {
    StartsOk(env, net);
    RunKeepsNodes(env, net, actions);
    var n := Run(env, net, actions).nodes[i];
    assert n in Run(env, net, actions).nodes;
    FragmentIsValid(env, n.chain);
    RebootKeeps(env, n);
    CachedCanSync(env, n);
  }

  lemma {:induction false} StartsOk(env: Env, net: Net)
    requires (forall n <- net.nodes :: Fresh(env, n)) && net.wire == {}
    ensures NetOk(env, net)
  {
  }

  lemma {:induction false} RunKeepsNodes(env: Env, net: Net, actions: seq<Action>)
    requires NetOk(env, net)
    ensures |Run(env, net, actions).nodes| == |net.nodes|
  {
    if actions != [] {
      RunKeepsNodes(env, net, actions[..|actions| - 1]);
    }
  }
}
