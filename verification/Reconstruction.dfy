// The reconstruction pattern: N shares gathered at one party and reconstructed there. The
// rewrite keeps the shares of the source parties and evaluates the others from them and the
// secret, where they were sent from if they arrived by a transit, which is then reversed.
//
// The old edge says that the secret and all shares lie on one polynomial; so do the new
// evaluations together, if their common sources determine the polynomial.
module Reconstruction {
  import opened Graphs
  import opened Counters
  import opened Semantics
  import opened Patterns
  import opened Sharing

  // ----- The pattern

  /** The share at node s was sent here by another party. */
  predicate Arrived(g: Graph, s: NodeId)
    requires Sync(g) && s < |g.nodes|
  {
    |g.ins[s]| == 1 && IsTransit(g.ins[s][0])
  }

  /** The node the share at s was sent from, or s itself. */
  function Before(g: Graph, s: NodeId): (b: NodeId)
    requires Sync(g) && s < |g.nodes|
    ensures b < |g.nodes|
  {
    if Arrived(g, s) then g.ins[s][0].inputs[0] else s
  }

  function BeforeParty(g: Graph, s: NodeId): Party
    requires Sync(g) && s < |g.nodes|
  {
    g.nodes[Before(g, s)].party
  }

  predicate AllNodes(g: Graph, xs: seq<NodeId>) {
    forall i :: 0 <= i < |xs| ==> xs[i] < |g.nodes|
  }

  function BeforeParties(g: Graph, xs: seq<NodeId>): (r: seq<Party>)
    requires Sync(g) && AllNodes(g, xs)
    ensures |r| == |xs|
  {
    seq(|xs|, i requires 0 <= i < |xs| => BeforeParty(g, xs[i]))
  }

  /** How many destination shares are random where they come from. */
  function RandomDsts(g: Graph, xs: seq<NodeId>, src: set<Party>): nat
    requires Sync(g) && AllNodes(g, xs)
  {
    if xs == [] then 0
    else
      var k := |xs| - 1;
      RandomDsts(g, xs[..k], src)
      + if BeforeParty(g, xs[k]) !in src && IsRandom(g, Before(g, xs[k])) then 1 else 0
  }

  /** Whether the secret, losing its only in-edge, will count as random. */
  function SecretBecomesRandom(g: Graph, n: NodeId): nat
    requires Shape(g) && n < |g.nodes|
  {
    if |g.ins[n]| == 1 && !g.nodes[n].IsIO() then 1 else 0
  }

  /** The pattern check, with the prediction that the number of random nodes will not change. */
  predicate RewritableReconstruction(g: Graph, e: Operation, src: set<Party>)
    requires Sync(g) && InRange(g, e)
  {
    && NoDup(BeforeParties(g, e.inputs))
    && RandomDsts(g, e.inputs, src) == SecretBecomesRandom(g, e.output)
  }

  /** Node n is reconstructed by its only in-edge, from shares of distinct parties. */
  predicate ReconstructionPattern(g: Graph, n: NodeId)
    requires Sync(g) && n < |g.nodes|
  {
    && |g.ins[n]| == 1 && g.ins[n][0].op.RECONSTRUCT?
    && NoDup(BeforeParties(g, g.ins[n][0].inputs))
  }

  function KeptShares(g: Graph, n: NodeId, src: set<Party>): seq<NodeId>
    requires Sync(g) && n < |g.nodes| && |g.ins[n]| == 1
  {
    Pick(g.ins[n][0].inputs, BeforeParties(g, g.ins[n][0].inputs), src)
  }

  function DstShares(g: Graph, n: NodeId, src: set<Party>): seq<NodeId>
    requires Sync(g) && n < |g.nodes| && |g.ins[n]| == 1
  {
    Drop(g.ins[n][0].inputs, BeforeParties(g, g.ins[n][0].inputs), src)
  }

  /** The transits that brought the destination shares; the rewrite turns them around. */
  ghost function ArrivedTransits(g: Graph, n: NodeId, src: set<Party>): set<Operation>
    requires Sync(g) && n < |g.nodes| && |g.ins[n]| == 1
  {
    set s | s in DstShares(g, n, src) && s < |g.nodes| && Arrived(g, s) :: g.ins[s][0]
  }

  ghost function ReconElim(g: Graph, n: NodeId, src: set<Party>): set<Operation>
    requires Sync(g) && n < |g.nodes| && |g.ins[n]| == 1
  {
    {g.ins[n][0]} + ArrivedTransits(g, n, src)
  }

  ghost function ReconEvals(g: Graph, n: NodeId, src: set<Party>): set<Operation>
    requires Sync(g) && n < |g.nodes| && |g.ins[n]| == 1
  {
    Evals([n] + KeptShares(g, n, src), Elems(DstShares(g, n, src)), g.ins[n][0].arg)
  }

  ghost function ReconAdd(g: Graph, n: NodeId, src: set<Party>): set<Operation>
    requires Sync(g) && n < |g.nodes| && |g.ins[n]| == 1
  {
    ArrivedAreTransits(g, n, src);
    Flips(ArrivedTransits(g, n, src)) + ReconEvals(g, n, src)
  }

  lemma ArrivedAreTransits(g: Graph, n: NodeId, src: set<Party>)
    requires Sync(g) && n < |g.nodes| && |g.ins[n]| == 1
    ensures forall t :: t in ArrivedTransits(g, n, src) ==> IsTransit(t)
  {
  }

  /** The result of the rewrite at node n, up to the order of the lists. */
  ghost predicate ReconResult(g: Graph, n: NodeId, src: set<Party>, r: Graph)
    requires Sync(g) && n < |g.nodes|
  {
    |g.ins[n]| == 1 && Replaced(g, ReconElim(g, n, src), ReconAdd(g, n, src), r)
  }

  /** T or T + 1 source parties. */
  ghost predicate ReconSetting(env: Env, parties: set<Party>, g: Graph, n: NodeId, src: set<Party>) {
    && Ready(env, parties, g) && n < |g.nodes| && ReconstructionPattern(g, n)
    && src <= parties && g.T <= |src| <= g.T + 1
  }

  // ----- What a match guarantees

  /** Pigeonhole: N shares of N distinct parties; the source parties' shares are kept. */
  lemma ReconSplit(env: Env, parties: set<Party>, g: Graph, n: NodeId, src: set<Party>)
    requires ReconSetting(env, parties, g, n, src)
    ensures var xs, kept, dsts := g.ins[n][0].inputs, KeptShares(g, n, src), DstShares(g, n, src);
            && NoDup(kept) && NoDup(dsts) && Elems(kept) !! Elems(dsts) && Elems(kept) + Elems(dsts) == Elems(xs)
            && |kept| == |src| && |kept| + |dsts| == g.partyCnt && n !in xs && NoDup(xs) && |dsts| >= g.T >= 1
    ensures InSharing(env, g.ins[n][0].arg, Elems(g.ins[n][0].inputs) + {n})
    ensures Has(g, g.ins[n][0])
  {
    hide Pick, Drop, SyncAt;
    var e := g.ins[n][0];
    assert Has(g, e) && e.output == n;
    assert WellFormed(env, g, e);
    var xs, ps := e.inputs, BeforeParties(g, e.inputs);
    forall i | 0 <= i < |ps| ensures ps[i] in parties {
      assert ps[i] == g.nodes[Before(g, xs[i])].party;
    }
    AllParties(ps, parties);
    PickSize(xs, ps, src);
    PickNoDup(xs, ps, src);
    PickCovers(xs, ps, src);
    assert PartySet(ps) * src == src;
  }

  lemma ReconNodesInRange(env: Env, parties: set<Party>, g: Graph, n: NodeId, src: set<Party>)
    requires ReconSetting(env, parties, g, n, src)
    ensures NodesIn(Elems(g.ins[n][0].inputs) + {n}, |g.nodes|)
  {
    var e := g.ins[n][0];
    assert InRange(g, e);
    forall k | k in e.inputs ensures k < |g.nodes| {
      var i :| 0 <= i < |e.inputs| && e.inputs[i] == k;
    }
  }

  lemma ReconSrcs(env: Env, parties: set<Party>, g: Graph, n: NodeId, src: set<Party>)
    requires ReconSetting(env, parties, g, n, src)
    ensures var srcs, dsts := [n] + KeptShares(g, n, src), Elems(DstShares(g, n, src));
            && NoDup(srcs) && |srcs| == |src| + 1 && Elems(srcs) !! dsts && dsts != {}
            && Elems(srcs) + dsts == Elems(g.ins[n][0].inputs) + {n}
  {
    hide KeptShares, DstShares;
    ReconSplit(env, parties, g, n, src);
    var kept, dsts := KeptShares(g, n, src), DstShares(g, n, src);
    assert n !in Elems(kept) + Elems(dsts);
    assert n !in kept by { assert n !in Elems(kept); }
    assert Elems([n] + kept) == {n} + Elems(kept);
    assert dsts[0] in Elems(dsts);
  }

  lemma ReconEvalsHold(env: Env, parties: set<Party>, g: Graph, n: NodeId, src: set<Party>, v: Valuation)
    requires ReconSetting(env, parties, g, n, src) && |v| == |g.nodes|
    requires Fixes(env, g.ins[n][0].arg, Elems([n] + KeptShares(g, n, src)))
    ensures AllHoldIn(env, ReconEvals(g, n, src), v) <==> AllHoldIn(env, {g.ins[n][0]}, v)
  {
    hide KeptShares, DstShares, Fixes, OnPolynomial;
    var e := g.ins[n][0];
    ReconSrcs(env, parties, g, n, src);
    ReconNodesInRange(env, parties, g, n, src);
    EvalsHold(env, [n] + KeptShares(g, n, src), Elems(DstShares(g, n, src)), e.arg, v);
    assert InRange(g, e) && e.output == n;
    assert Inputs(e) + {e.output} == Elems(e.inputs) + {n};
  }

  lemma ReconAdmissible(env: Env, parties: set<Party>, g: Graph, n: NodeId, src: set<Party>)
    requires ReconSetting(env, parties, g, n, src)
    ensures Admissible(env, g, ReconElim(g, n, src), ReconAdd(g, n, src))
  {
    var ts := ArrivedTransits(g, n, src);
    ReconSplit(env, parties, g, n, src);
    ReconNodesInRange(env, parties, g, n, src);
    forall t | t in ts ensures IsTransit(t) && Has(g, t) && InRange(g, Flip(t)) && WellFormed(env, g, Flip(t)) {
      ArrivedHas(g, n, src, t);
    }
    forall e | e in ReconEvals(g, n, src) ensures InRange(g, e) && WellFormed(env, g, e) {
      ReconSrcs(env, parties, g, n, src);
      NewEvalForm(env, g, [n] + KeptShares(g, n, src), Elems(DstShares(g, n, src)), g.ins[n][0].arg,
                  Elems(g.ins[n][0].inputs) + {n}, e);
    }
  }

  /**
   * The reconstruction rewrite preserves meaning: if the secret and the kept shares fix the
   * polynomial, the new edges have the same solutions as the old ones, and are well formed.
   */
  lemma ReconEquivalent(env: Env, parties: set<Party>, g: Graph, n: NodeId, src: set<Party>)
    requires ReconSetting(env, parties, g, n, src)
    requires Fixes(env, g.ins[n][0].arg, Elems([n] + KeptShares(g, n, src)))
    ensures Equivalent(env, g, ReconElim(g, n, src), ReconAdd(g, n, src))
  {
    var ts := ArrivedTransits(g, n, src);
    ArrivedAreTransits(g, n, src);
    ReconAdmissible(env, parties, g, n, src);
    forall v | IsValuation(env, g, v)
      ensures AllHoldIn(env, ReconElim(g, n, src), v) <==> AllHoldIn(env, ReconAdd(g, n, src), v)
    {
      FlipsHold(env, ts, v);
      ReconEvalsHold(env, parties, g, n, src, v);
      HoldInUnion(env, {g.ins[n][0]}, ts, v);
      HoldInUnion(env, Flips(ts), ReconEvals(g, n, src), v);
    }
  }

  lemma ArrivedHas(g: Graph, n: NodeId, src: set<Party>, t: Operation)
    requires Sync(g) && n < |g.nodes| && |g.ins[n]| == 1 && t in ArrivedTransits(g, n, src)
    ensures IsTransit(t) && Has(g, t) && t.output in DstShares(g, n, src) && t.output < |g.nodes|
    ensures g.ins[t.output] == [t] && t.inputs[0] == Before(g, t.output) && Arrived(g, t.output)
  {
    var s :| s in DstShares(g, n, src) && s < |g.nodes| && Arrived(g, s) && t == g.ins[s][0];
  }
}
