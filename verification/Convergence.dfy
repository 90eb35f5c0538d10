/** The dialogue after a summary, as steps of the network. */
module Convergence {
  import opened Wrappers
  import opened Blocks
  import opened Chains
  import opened History
  import opened Node
  import opened Network
  import opened CatchUp

  lemma {:induction false} RunConcat(env: Env, net: Net, a: seq<Action>, b: seq<Action>)
    requires NetOk(env, net)
    ensures Run(env, net, a + b) == Run(env, Run(env, net, a), b)
  {
    if b == [] {
      assert a + b == a;
    } else {
      var k := |b| - 1;
      assert (a + b)[..|a + b| - 1] == a + b[..k];
      RunConcat(env, net, a, b[..k]);
    }
  }

  /** The steps that the dialogue is made of: node j answers, and node i gets the answer. */
  function DialogueSteps(c: Crypto, i: nat, j: nat, mine: seq<Block>, peer: seq<Block>, id1: nat, id2: nat): seq<Action>
    requires mine != [] && Last(mine).index == |mine| - 1
    decreases id1
  {
    var answer := Serve(peer, Range(id1, id2));
    if answer.None? || Invalid(c, answer.value) then []
    else
      var exchange := [Answer(j, Range(id1, id2)), Deliver(i, answer.value)];
      if Attaches(mine, answer.value) then exchange
      else
        var next := NextRequest(mine, answer.value);
        assert answer.value[0].index == id1;
        exchange + DialogueSteps(c, i, j, mine, peer, next.id1, next.id2)
  }

  lemma {:induction false} RunOne(env: Env, net: Net, a: Action)
    requires NetOk(env, net)
    ensures Run(env, net, [a]) == Step(env, net, a)
  {
    assert [a][..0] == [];
    assert Run(env, net, []) == net;
  }

  lemma {:induction false} AnswerStep(env: Env, net: Net, j: nat, r: Request, answer: seq<Block>)
    requires NetOk(env, net) && j < |net.nodes| && Serve(net.nodes[j].chain, r) == Some(answer)
    ensures Step(env, net, Answer(j, r)) == net.(wire := net.wire + {answer})
  {
    hide NetOk, Serve;
  }

  lemma {:induction false} DeliverStep(env: Env, net: Net, i: nat, answer: seq<Block>)
    requires NetOk(env, net) && i < |net.nodes| && answer in net.wire
    ensures CanJudge(net.nodes[i].chain, answer)
    ensures Step(env, net, Deliver(i, answer)).nodes == net.nodes[i := Receive(env.c, net.nodes[i], answer).0]
  {
    assert net.nodes[i] in net.nodes;
    JudgeInRange(env, net.nodes[i], answer);
    hide NetOk, Receive, CanJudge;
  }

  /** One request and its answer. */
  lemma {:induction false} OneExchange(env: Env, net: Net, i: nat, j: nat, r: Request, answer: seq<Block>)
    requires NetOk(env, net) && i < |net.nodes| && j < |net.nodes|
    requires Serve(net.nodes[j].chain, r) == Some(answer)
    ensures CanJudge(net.nodes[i].chain, answer)
    ensures Run(env, net, [Answer(j, r), Deliver(i, answer)]).nodes
         == net.nodes[i := Receive(env.c, net.nodes[i], answer).0]
  {
    hide *;
    assert [Answer(j, r), Deliver(i, answer)] == [Answer(j, r)] + [Deliver(i, answer)];
    RunConcat(env, net, [Answer(j, r)], [Deliver(i, answer)]);
    RunOne(env, net, Answer(j, r));
    AnswerStep(env, net, j, r, answer);
    RunOne(env, Run(env, net, [Answer(j, r)]), Deliver(i, answer));
    DeliverStep(env, Run(env, net, [Answer(j, r)]), i, answer);
  }

  /** The update that a dialogue ended with waits; without one nothing changes. */
  function Caching(n: Node, update: Option<seq<Block>>): Node {
    if update.Some? then n.(temp := update) else n
  }

  lemma {:induction false} InPlace(env: Env, net: Net, i: nat)
    requires NetOk(env, net) && i < |net.nodes|
    ensures var n := net.nodes[i]; n.chain != [] && Last(n.chain).index == |n.chain| - 1
    ensures net.nodes[i := net.nodes[i]] == net.nodes
  {
    assert NodeOk(env, net.nodes[i]);
  }

  /** The dialogue is a run of the network that leaves everything else as it was. */
  lemma {:induction false} DialogueIsRun(env: Env, net: Net, i: nat, j: nat, id1: nat, id2: nat)
    requires NetOk(env, net) && i < |net.nodes| && j < |net.nodes| && i != j
    ensures var n := net.nodes[i]; n.chain != [] && Last(n.chain).index == |n.chain| - 1
    ensures var n, peer := net.nodes[i], net.nodes[j].chain;
            Run(env, net, DialogueSteps(env.c, i, j, n.chain, peer, id1, id2)).nodes
            == net.nodes[i := Caching(n, Dialogue(env.c, n.chain, peer, id1, id2).0)]
    decreases id1
  {
    InPlace(env, net, i);
    var n, peer := net.nodes[i], net.nodes[j].chain;
    var r := Range(id1, id2);
    var answer := Serve(peer, r);
    if answer.Some? && !Invalid(env.c, answer.value) {
      OneExchange(env, net, i, j, r, answer.value);
      if !Attaches(n.chain, answer.value) {
        var exchange := [Answer(j, r), Deliver(i, answer.value)];
        var net' := Run(env, net, exchange);
        var next := NextRequest(n.chain, answer.value);
        assert answer.value[0].index == id1;
        DialogueIsRun(env, net', i, j, next.id1, next.id2);
        RunConcat(env, net, exchange, DialogueSteps(env.c, i, j, n.chain, peer, next.id1, next.id2));
      }
    }
  }

  lemma {:induction false} TakesOver(env: Env, net: Net, i: nat)
    requires NetOk(env, net) && i < |net.nodes|
    ensures CanSync(net.nodes[i])
    ensures Run(env, net, [TakeOver(i)]).nodes == net.nodes[i := Sync(env.c, env.d, net.nodes[i])]
  {
    assert net.nodes[i] in net.nodes;
    CachedCanSync(env, net.nodes[i]);
    RunOne(env, net, TakeOver(i));
  }

  /** So is the dialogue followed by taking the update over. */
  lemma {:induction false} CatchUpIsRun(env: Env, net: Net, i: nat, j: nat, id1: nat, id2: nat)
    requires NetOk(env, net) && i < |net.nodes| && j < |net.nodes| && i != j && net.nodes[i].temp.None?
    ensures var n, peer := net.nodes[i], net.nodes[j].chain;
            && n.chain != [] && Last(n.chain).index == |n.chain| - 1
            && var after := AfterCatchUp(env.c, env.d, n, peer, Range(id1, id2));
               && after.Some?
               && Run(env, net, DialogueSteps(env.c, i, j, n.chain, peer, id1, id2) + [TakeOver(i)]).nodes
                  == net.nodes[i := after.value]
  {
    InPlace(env, net, i);
    var n, peer := net.nodes[i], net.nodes[j].chain;
    DialogueIsRun(env, net, i, j, id1, id2);
    var steps := DialogueSteps(env.c, i, j, n.chain, peer, id1, id2);
    hide NetOk, Dialogue, Sync, CanSync;
    var cached := Run(env, net, steps);
    assert cached.nodes[i] == n.(temp := Dialogue(env.c, n.chain, peer, id1, id2).0);
    RunConcat(env, net, steps, [TakeOver(i)]);
    TakesOver(env, cached, i);
  }

  /** A quiet node of a network that hears of more work on a longer chain: some run of the network, in which
      only it and the peer act, gives it the peer's hashes and strictly more work. */
  lemma {:induction false} LongerIsReached(env: Env, net: Net, i: nat, j: nat) returns (actions: seq<Action>)
    requires NetOk(env, net) && i < |net.nodes| && j < |net.nodes| && i != j
    requires net.nodes[i].temp.None? && HexDigests(env.c)
    requires SharesFirst(net.nodes[i].chain, net.nodes[j].chain)
    requires |net.nodes[j].chain| > |net.nodes[i].chain| && Work(net.nodes[i].chain) < Work(net.nodes[j].chain)
    ensures var mine, peer := net.nodes[i].chain, net.nodes[j].chain;
            var after := Run(env, net, actions).nodes;
            && |after| == |net.nodes| && (forall k :: 0 <= k < |after| && k != i ==> after[k] == net.nodes[k])
            && |after[i].chain| == |peer| && Gains(mine, peer, after[i].chain)
            && (CollisionFound(env.c, mine, peer)
                || ((forall k :: 0 <= k < |peer| ==> after[i].chain[k].hash == peer[k].hash)
                    && (SameHashSameDifficulty(mine, peer) ==> Work(mine) < Work(after[i].chain))))
  {
    hide *;
    var id1, id2 := |net.nodes[i].chain|, |net.nodes[j].chain| - 1;
    Heard(env, net, i, j);
    CatchUpIsRun(env, net, i, j, id1, id2);
    LongerIsCaught(env.c, env.d, net.nodes[i], net.nodes[j].chain);
    actions := DialogueSteps(env.c, i, j, net.nodes[i].chain, net.nodes[j].chain, id1, id2) + [TakeOver(i)];
  }

  predicate SharesFirst(mine: seq<Block>, peer: seq<Block>) {
    && mine != [] && peer != [] && mine[0].SameHeader(peer[0])
    && mine[0].hash == peer[0].hash && |peer[0].hash| == HASH_LENGTH
  }

  lemma {:induction false} Heard(env: Env, net: Net, i: nat, j: nat)
    requires NetOk(env, net) && i < |net.nodes| && j < |net.nodes| && i != j
    requires net.nodes[i].temp.None? && HexDigests(env.c)
    requires SharesFirst(net.nodes[i].chain, net.nodes[j].chain)
    ensures HearsOf(env.c, net.nodes[i], net.nodes[j].chain)
  {
    assert net.nodes[i] in net.nodes && net.nodes[j] in net.nodes;
    FragmentIsValid(env, net.nodes[i].chain);
    FragmentIsValid(env, net.nodes[j].chain);
  }
}
