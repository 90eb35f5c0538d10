/** What becomes of the payments that a node of the network queues. */
module Queues {
  import opened Wrappers
  import opened Transactions
  import opened Blocks
  import opened Chains
  import opened ChainFile
  import opened Node
  import opened Network
  import MiningRun

  type Loads = multiset<MiningRun.Load>

  function WaitingLoads(n: Node): Loads {
    MiningRun.Loads(MiningRun.Pending(n))
  }

  /** What a node queues are payments; none looks like a coinbase. */
  ghost predicate QueuesPayments(env: Env, net: Net, a: Action, i: nat) {
    a.Queue? && a.node == i ==> !a.tx.IsCoinbase()
  }

  /** The payment that a node accepts. */
  function QueuedBy(a: Action): Loads {
    if a.Queue? then multiset{(a.tx.txIns, a.tx.txOuts)} else multiset{}
  }

  /** The block that was mined is taken by the chain. */
  predicate Taken(env: Env, n: Node, a: Action)
    requires a.Append? && n.chain != []
  {
    n.inflight.Some? && Accepts(env.c, n.chain, Minted(n.inflight.value, a))
  }

  /** The payments that a node mines: those of a block that its chain takes. */
  function MinedBy(env: Env, n: Node, a: Action): Loads
    requires n.chain != []
  {
    if a.Append? && Taken(env, n, a) then MiningRun.Loads(MiningRun.InFlight(n)) else multiset{}
  }

  /** The payments that a node loses: those of a block that came too late, those that wait when the whole chain
      is replaced, and all that wait or are in flight when it starts again. */
  function LostBy(env: Env, n: Node, a: Action): Loads
    requires n.chain != [] && (n.temp.Some? ==> n.temp.value != [])
  {
    match a
    case Append(_, _, _, _, _) => if Taken(env, n, a) then multiset{} else MiningRun.Loads(MiningRun.InFlight(n))
    case TakeOver(_) =>
      if n.temp.Some? && n.temp.value[0].index == 0 then MiningRun.Loads(n.queue) else multiset{}
    case Reboot(_) => WaitingLoads(n)
    case _ => multiset{}
  }

  ghost predicate Acts(env: Env, net: Net, a: Action, i: nat) {
    Enabled(env, net, a) && a.node == i
  }

  // ----- what node i does in a step of the network -----

  ghost function Queued(env: Env, net: Net, a: Action, i: nat): Loads {
    if Acts(env, net, a, i) then QueuedBy(a) else multiset{}
  }

  ghost function Mined(env: Env, net: Net, a: Action, i: nat): Loads
    requires NetOk(env, net)
  {
    if Acts(env, net, a, i) then NodeIsOk(env, net, i); MinedBy(env, net.nodes[i], a) else multiset{}
  }

  ghost function Lost(env: Env, net: Net, a: Action, i: nat): Loads
    requires NetOk(env, net)
  {
    if Acts(env, net, a, i) then NodeIsOk(env, net, i); LostBy(env, net.nodes[i], a) else multiset{}
  }

  lemma {:induction false} NodeIsOk(env: Env, net: Net, i: nat)
    requires NetOk(env, net) && i < |net.nodes|
    ensures NodeOk(env, net.nodes[i]) && net.nodes[i].chain != []
    ensures net.nodes[i].temp.Some? ==> net.nodes[i].temp.value != []
  {
    assert net.nodes[i] in net.nodes;
  }

  // ----- one step of the node -----

  lemma {:induction false} AppendLeaves(c: Crypto, d: DoubleCodec, n: Node, b: Block)
    requires n.chain != []
    ensures AppendMined(c, d, n, b).queue == n.queue && AppendMined(c, d, n, b).inflight == None
  {
    hide Accepts, EncodeBlock;
  }

  lemma {:induction false} WithoutInFlight(n: Node, m: Node)
    requires m.queue == n.queue && m.inflight == None
    ensures WaitingLoads(m) + MiningRun.Loads(MiningRun.InFlight(n)) == WaitingLoads(n)
  {
    MiningRun.PendingLoads(n);
    assert MiningRun.Pending(m) == n.queue;
  }

  lemma {:induction false} AppendHolds(c: Crypto, d: DoubleCodec, n: Node, b: Block)
    requires MiningRun.QueueOk(n) && n.chain != []
    ensures MiningRun.QueueOk(AppendMined(c, d, n, b))
    ensures WaitingLoads(AppendMined(c, d, n, b)) + MiningRun.Loads(MiningRun.InFlight(n)) == WaitingLoads(n)
  {
    hide *;
    MiningRun.MinedQueueOk(c, d, n, b);
    AppendLeaves(c, d, n, b);
    WithoutInFlight(n, AppendMined(c, d, n, b));
  }

  lemma {:induction false} TemplateHolds(c: Crypto, n: Node, wallet: string, now: int, miner: string, data: string)
    requires MiningRun.QueueOk(n) && n.chain != [] && n.inflight.None?
    ensures MiningRun.QueueOk(TakeTemplate(c, n, wallet, now, miner, data))
    ensures WaitingLoads(TakeTemplate(c, n, wallet, now, miner, data)) == WaitingLoads(n)
  {
    MiningRun.TemplateQueueOk(c, n, wallet, now, miner, data);
    assert MiningRun.Pending(TakeTemplate(c, n, wallet, now, miner, data)) == WithIds(c, n.queue, |n.chain|);
    assert MiningRun.Pending(n) == n.queue;
    MiningRun.LoadsIgnoreIds(c, n.queue, |n.chain|);
  }

  lemma {:induction false} QueueHolds(n: Node, tx: Transaction)
    requires MiningRun.QueueOk(n) && !tx.IsCoinbase()
    ensures MiningRun.QueueOk(n.(queue := n.queue + [tx]))
    ensures WaitingLoads(n.(queue := n.queue + [tx])) == WaitingLoads(n) + multiset{(tx.txIns, tx.txOuts)}
  {
    MiningRun.SubmitQueueOk(n, tx);
    var longer := n.(queue := n.queue + [tx]);
    MiningRun.PendingLoads(n);
    MiningRun.PendingLoads(longer);
    assert longer.queue[..|n.queue|] == n.queue;
    assert MiningRun.InFlight(longer) == MiningRun.InFlight(n);
    hide MiningRun.QueueOk;
  }

  lemma {:induction false} AbortHolds(n: Node)
    requires MiningRun.QueueOk(n)
    ensures MiningRun.QueueOk(AbortMining(n)) && WaitingLoads(AbortMining(n)) == WaitingLoads(n)
  {
    if n.inflight.Some? {
      MiningRun.AbortPutsBack(n);
    }
  }

  /** Nodes with the same queue and block in flight wait for the same. */
  lemma {:induction false} SameWaiting(n: Node, m: Node)
    requires MiningRun.QueueOk(n) && m.inflight == n.inflight
    requires m.queue == n.queue || m.queue == []
    ensures MiningRun.QueueOk(m)
    ensures m.queue == n.queue ==> WaitingLoads(m) == WaitingLoads(n)
    ensures m.queue == [] ==> WaitingLoads(m) + MiningRun.Loads(n.queue) == WaitingLoads(n)
  {
    assert forall tx <- MiningRun.Pending(m) :: tx in MiningRun.Pending(n);
    MiningRun.PendingLoads(n);
    MiningRun.PendingLoads(m);
    assert MiningRun.InFlight(m) == MiningRun.InFlight(n);
    assert MiningRun.Loads([]) == multiset{};
  }

  lemma {:induction false} TakeOverHolds(env: Env, n: Node)
    requires NodeOk(env, n) && MiningRun.QueueOk(n)
    ensures CanSync(n)
    ensures var after := Sync(env.c, env.d, n);
            && MiningRun.QueueOk(after)
            && WaitingLoads(after)
               + (if n.temp.Some? && n.temp.value[0].index == 0 then MiningRun.Loads(n.queue) else multiset{})
               == WaitingLoads(n)
  {
    CachedCanSync(env, n);
    SyncLeaves(env.c, env.d, n);
    SameWaiting(n, Sync(env.c, env.d, n));
    hide NodeOk, Sync, CanSync, MiningRun.QueueOk;
  }

  lemma {:induction false} RebootHolds(env: Env, n: Node)
    requires NodeOk(env, n)
    ensures Restart(env.c, env.d, n).Some?
    ensures MiningRun.QueueOk(Restart(env.c, env.d, n).value)
    ensures WaitingLoads(Restart(env.c, env.d, n).value) == multiset{}
  {
    RebootKeeps(env, n);
    assert MiningRun.Pending(Node(n.chain, None, [], None, n.disk)) == [];
    hide NodeOk, Restart;
  }

  /** What node i has waiting after a step, and what the step mined and lost, is what it had and accepted. */
  ghost predicate StepBalances(env: Env, net: Net, a: Action, i: nat)
    requires NetOk(env, net) && i < |net.nodes|
  {
    var after := Step(env, net, a);
    && i < |after.nodes|
    && WaitingLoads(after.nodes[i]) + Mined(env, net, a, i) + Lost(env, net, a, i)
       == WaitingLoads(net.nodes[i]) + Queued(env, net, a, i)
  }

  lemma {:induction false} OthersStep(env: Env, net: Net, a: Action, i: nat)
    requires NetOk(env, net) && i < |net.nodes| && !Acts(env, net, a, i)
    ensures |Step(env, net, a).nodes| == |net.nodes| && Step(env, net, a).nodes[i] == net.nodes[i]
  {
    hide NetOk, NodeStep, Serve;
  }

  lemma {:induction false} AnswerLeaves(env: Env, n: Node, a: Action)
    requires NodeOk(env, n) && a.Answer?
    ensures NodeStep(env, n, a) == n
  {
  }

  lemma {:induction false} OwnStep(env: Env, net: Net, a: Action, i: nat)
    requires NetOk(env, net) && i < |net.nodes| && Acts(env, net, a, i)
    ensures NodeOk(env, net.nodes[i]) && |Step(env, net, a).nodes| == |net.nodes|
    ensures Step(env, net, a).nodes[i] == NodeStep(env, net.nodes[i], a)
  {
    hide Serve, NodeStep;
    NodeIsOk(env, net, i);
    if a.Answer? {
      AnswerLeaves(env, net.nodes[i], a);
    }
  }

  lemma {:induction false} NothingInFlight(n: Node)
    requires n.inflight.None?
    ensures MiningRun.Loads(MiningRun.InFlight(n)) == multiset{}
  {
  }

  ghost predicate NodeBalances(env: Env, n: Node, a: Action)
    requires NodeOk(env, n)
  {
    && MiningRun.QueueOk(NodeStep(env, n, a))
    && WaitingLoads(NodeStep(env, n, a)) + MinedBy(env, n, a) + LostBy(env, n, a) == WaitingLoads(n) + QueuedBy(a)
  }

  lemma {:induction false} AppendBalances(env: Env, n: Node, a: Action)
    requires NodeOk(env, n) && MiningRun.QueueOk(n) && a.Append?
    ensures NodeBalances(env, n, a)
  {
    assert n.chain != [];
    hide NodeOk, MiningRun.QueueOk, MiningRun.Loads, WaitingLoads, AppendMined, Accepts;
    if n.inflight.None? {
      NothingInFlight(n);
    } else {
      AppendHolds(env.c, env.d, n, Minted(n.inflight.value, a));
    }
  }

  lemma {:induction false} TemplateBalances(env: Env, n: Node, a: Action)
    requires NodeOk(env, n) && MiningRun.QueueOk(n) && a.Template?
    ensures NodeBalances(env, n, a)
  {
    hide MiningRun.QueueOk, WaitingLoads, TakeTemplate;
    if n.inflight.None? {
      TemplateHolds(env.c, n, a.wallet, a.now, a.miner, a.data);
    }
  }

  lemma {:induction false} DeliverIs(env: Env, n: Node, a: Action)
    requires NodeOk(env, n) && a.Deliver?
    ensures NodeStep(env, n, a).queue == n.queue && NodeStep(env, n, a).inflight == n.inflight
  {
    hide Fragment, ValidChain, Invalid, Attaches, CanSync;
    JudgeInRange(env, n, a.reply);
    OnlyValidIsCached(env.c, n, a.reply);
    hide NodeOk, Receive;
  }

  lemma {:induction false} DeliverBalances(env: Env, n: Node, a: Action)
    requires NodeOk(env, n) && MiningRun.QueueOk(n) && a.Deliver?
    ensures NodeBalances(env, n, a)
  {
    DeliverIs(env, n, a);
    SameWaiting(n, NodeStep(env, n, a));
    hide *;
    NothingElse(env, n, a);
    Sums(WaitingLoads(n));
    BalancesIf(env, n, a);
  }

  lemma {:induction false} TakeOverBalances(env: Env, n: Node, a: Action)
    requires NodeOk(env, n) && MiningRun.QueueOk(n) && a.TakeOver?
    ensures NodeBalances(env, n, a)
  {
    TakeOverHolds(env, n);
    TakeOverIs(env, n, a);
    hide *;
    Sums(WaitingLoads(n));
    BalancesIf(env, n, a);
  }

  lemma {:induction false} TakeOverIs(env: Env, n: Node, a: Action)
    requires NodeOk(env, n) && a.TakeOver?
    ensures CanSync(n) && NodeStep(env, n, a) == Sync(env.c, env.d, n) && n.chain != []
    ensures n.temp.Some? ==> n.temp.value != []
    ensures MinedBy(env, n, a) == multiset{} == QueuedBy(a)
    ensures LostBy(env, n, a)
         == if n.temp.Some? && n.temp.value[0].index == 0 then MiningRun.Loads(n.queue) else multiset{}
  {
    CachedCanSync(env, n);
    hide GoodBlock, Sync, DiskAgrees, MiningRun.Loads;
  }

  lemma {:induction false} RebootBalances(env: Env, n: Node, a: Action)
    requires NodeOk(env, n) && MiningRun.QueueOk(n) && a.Reboot?
    ensures NodeBalances(env, n, a)
  {
    RebootHolds(env, n);
    RebootIs(env, n, a);
    hide *;
    Sums(WaitingLoads(n));
    BalancesIf(env, n, a);
  }

  lemma {:induction false} RebootIs(env: Env, n: Node, a: Action)
    requires NodeOk(env, n) && a.Reboot? && Restart(env.c, env.d, n).Some?
    ensures NodeStep(env, n, a) == Restart(env.c, env.d, n).value && n.chain != []
    ensures n.temp.Some? ==> n.temp.value != []
    ensures MinedBy(env, n, a) == multiset{} == QueuedBy(a) && LostBy(env, n, a) == WaitingLoads(n)
  {
    hide GoodBlock, Restart, DiskAgrees, WaitingLoads;
  }

  lemma {:induction false} NothingElse(env: Env, n: Node, a: Action)
    requires NodeOk(env, n) && (a.Template? || a.Abort? || a.Answer? || a.Deliver?)
    ensures n.chain != [] && (n.temp.Some? ==> n.temp.value != [])
    ensures MinedBy(env, n, a) == LostBy(env, n, a) == QueuedBy(a) == multiset{}
  {
    hide GoodBlock, DiskAgrees;
  }

  lemma {:induction false} Sums(x: Loads)
    ensures x + multiset{} + multiset{} == x == x + multiset{} && multiset{} + multiset{} + x == x
    ensures forall y: Loads, z: Loads :: y + z == x ==> y + multiset{} + z == x + multiset{}
  {
  }

  lemma {:induction false} BalancesIf(env: Env, n: Node, a: Action)
    requires NodeOk(env, n) && n.chain != [] && (n.temp.Some? ==> n.temp.value != [])
    requires MiningRun.QueueOk(NodeStep(env, n, a))
    requires WaitingLoads(NodeStep(env, n, a)) + MinedBy(env, n, a) + LostBy(env, n, a)
          == WaitingLoads(n) + QueuedBy(a)
    ensures NodeBalances(env, n, a)
  {
  }

  lemma {:induction false} QueueBalances(env: Env, n: Node, a: Action)
    requires NodeOk(env, n) && MiningRun.QueueOk(n) && a.Queue? && !a.tx.IsCoinbase()
    ensures NodeBalances(env, n, a)
  {
    hide NodeOk, MiningRun.QueueOk, WaitingLoads;
    QueueHolds(n, a.tx);
  }

  lemma {:induction false} AbortBalances(env: Env, n: Node, a: Action)
    requires NodeOk(env, n) && MiningRun.QueueOk(n) && (a.Abort? || a.Answer?)
    ensures NodeBalances(env, n, a)
  {
    hide NodeOk, MiningRun.QueueOk, WaitingLoads, AbortMining;
    AbortHolds(n);
  }

  lemma {:induction false} BalancesAll(env: Env, n: Node, a: Action)
    requires NodeOk(env, n) && MiningRun.QueueOk(n) && (a.Queue? ==> !a.tx.IsCoinbase())
    ensures NodeBalances(env, n, a)
  {
    hide *;
    match a
    case Queue(_, _) => QueueBalances(env, n, a);
    case Template(_, _, _, _, _) => TemplateBalances(env, n, a);
    case Append(_, _, _, _, _) => AppendBalances(env, n, a);
    case Abort(_) => AbortBalances(env, n, a);
    case Answer(_, _) => AbortBalances(env, n, a);
    case Deliver(_, _) => DeliverBalances(env, n, a);
    case TakeOver(_) => TakeOverBalances(env, n, a);
    case Reboot(_) => RebootBalances(env, n, a);
  }

  lemma {:induction false} ActsHolds(env: Env, net: Net, a: Action, i: nat)
    requires NetOk(env, net) && i < |net.nodes| && Acts(env, net, a, i)
    requires MiningRun.QueueOk(net.nodes[i]) && QueuesPayments(env, net, a, i)
    ensures i < |Step(env, net, a).nodes| && MiningRun.QueueOk(Step(env, net, a).nodes[i])
    ensures StepBalances(env, net, a, i)
  {
    NodeIsOk(env, net, i);
    OwnStep(env, net, a, i);
    BalancesAll(env, net.nodes[i], a);
    hide NetOk, NodeOk, Step, NodeStep, MiningRun.QueueOk, WaitingLoads, MinedBy, LostBy, QueuedBy;
  }

  lemma {:induction false} StepHolds(env: Env, net: Net, a: Action, i: nat)
    requires NetOk(env, net) && i < |net.nodes|
    requires MiningRun.QueueOk(net.nodes[i]) && QueuesPayments(env, net, a, i)
    ensures i < |Step(env, net, a).nodes| && MiningRun.QueueOk(Step(env, net, a).nodes[i])
    ensures StepBalances(env, net, a, i)
  {
    if Acts(env, net, a, i) {
      ActsHolds(env, net, a, i);
    } else {
      OthersStep(env, net, a, i);
    }
  }

  // ----- whole runs -----

  ghost predicate QueuesOnlyPayments(env: Env, net: Net, actions: seq<Action>, i: nat)
    requires NetOk(env, net)
  {
    forall a <- actions :: a.Queue? && a.node == i ==> !a.tx.IsCoinbase()
  }

  ghost function AllQueued(env: Env, net: Net, actions: seq<Action>, i: nat): Loads
    requires NetOk(env, net)
  {
    if actions == [] then multiset{}
    else
      var k := |actions| - 1;
      AllQueued(env, net, actions[..k], i) + Queued(env, Run(env, net, actions[..k]), actions[k], i)
  }

  ghost function AllMined(env: Env, net: Net, actions: seq<Action>, i: nat): Loads
    requires NetOk(env, net)
  {
    if actions == [] then multiset{}
    else
      var k := |actions| - 1;
      AllMined(env, net, actions[..k], i) + Mined(env, Run(env, net, actions[..k]), actions[k], i)
  }

  ghost function AllLost(env: Env, net: Net, actions: seq<Action>, i: nat): Loads
    requires NetOk(env, net)
  {
    if actions == [] then multiset{}
    else
      var k := |actions| - 1;
      AllLost(env, net, actions[..k], i) + Lost(env, Run(env, net, actions[..k]), actions[k], i)
  }

  lemma {:induction false} SumsAdd(w': Loads, m: Loads, l: Loads, m': Loads, l': Loads, w: Loads, start: Loads,
                                   q: Loads, q': Loads)
    requires w + m + l == start + q
    requires w' + m' + l' == w + q'
    ensures w' + (m + m') + (l + l') == start + (q + q')
  {
    assert forall x :: w'[x] + m'[x] + l'[x] == (w' + m' + l')[x] && (w + q')[x] == w[x] + q'[x];
    assert forall x :: w[x] + m[x] + l[x] == (w + m + l)[x] && (start + q)[x] == start[x] + q[x];
  }

  /** Over any run of the network, for every node: the payments that wait or are in flight, those it has mined,
      and those it has lost are those it had and has accepted, each as often. It loses payments when a mined
      block comes too late, when its whole chain is replaced, and when it starts again, and at no other time:
      an update of a part of the chain leaves them alone. */
  lemma {:induction false} EveryPaymentAccounted(env: Env, net: Net, actions: seq<Action>, i: nat)
    requires NetOk(env, net) && i < |net.nodes| && MiningRun.QueueOk(net.nodes[i])
    requires QueuesOnlyPayments(env, net, actions, i)
    ensures i < |Run(env, net, actions).nodes| && MiningRun.QueueOk(Run(env, net, actions).nodes[i])
    ensures WaitingLoads(Run(env, net, actions).nodes[i])
            + AllMined(env, net, actions, i) + AllLost(env, net, actions, i)
         == WaitingLoads(net.nodes[i]) + AllQueued(env, net, actions, i)
  {
    hide NetOk, Step, Queued, Mined, Lost, WaitingLoads, MiningRun.QueueOk;
    if actions != [] {
      var k := |actions| - 1;
      var front, a := actions[..k], actions[k];
      assert a in actions && forall x <- front :: x in actions;
      var mid := Run(env, net, front);
      EveryPaymentAccounted(env, net, front, i);
      StepHolds(env, mid, a, i);
      SumsAdd(WaitingLoads(Step(env, mid, a).nodes[i]), AllMined(env, net, front, i), AllLost(env, net, front, i),
              Mined(env, mid, a, i), Lost(env, mid, a, i), WaitingLoads(mid.nodes[i]), WaitingLoads(net.nodes[i]),
              AllQueued(env, net, front, i), Queued(env, mid, a, i));
    }
  }
}
