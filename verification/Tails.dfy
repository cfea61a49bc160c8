// Eliminating honest tail nodes: what survives, what stays in sync, and what the survivors'
// counters mean.
module Tails {
  import opened Graphs
  import opened Counters
  import opened Potentials

  // ----- Eliminating one node

  /** The out-lists after the in-edges es of a node are removed from their sources. */
  function EraseFromSources(outs: seq<seq<Operation>>, es: seq<Operation>): (r: seq<seq<Operation>>)
    requires forall i :: 0 <= i < |es| ==> forall j :: 0 <= j < |es[i].inputs| ==> es[i].inputs[j] < |outs|
    ensures |r| == |outs|
  {
    if es == [] then outs
    else EraseAt(EraseFromSources(outs, es[..|es|-1]), es[|es|-1].inputs, es[|es|-1])
  }

  /** The in-lists after the out-edges es of a node are removed from their destinations. */
  function EraseFromDsts(ins: seq<seq<Operation>>, es: seq<Operation>): (r: seq<seq<Operation>>)
    requires forall i :: 0 <= i < |es| ==> es[i].output < |ins|
    ensures |r| == |ins|
  {
    if es == [] then ins
    else
      var r := EraseFromDsts(ins, es[..|es|-1]);
      var e := es[|es|-1];
      r[e.output := RemoveFirst(r[e.output], e)]
  }

  /** The graph after a node is eliminated; the cached random count is carried over as it is. */
  function WithoutNode(g: Graph, n: NodeId): (r: Graph)
    requires Sync(g) && n < |g.nodes|
    ensures Shape(r)
  {
    assert forall i :: 0 <= i < |g.ins[n]| ==> InRange(g, g.ins[n][i]);
    var honestIO := g.nodes[n].IsIO() && g.nodes[n].party !in g.corrupted;
    g.(ins := EraseFromDsts(g.ins[n := []], g.outs[n]),
       outs := EraseFromSources(g.outs[n := []], g.ins[n]),
       live := g.live[n := false],
       bubbleCnt := U32(g.bubbleCnt - if honestIO then 1 else 0))
  }

  method EliminateNode(g: Graph, n: NodeId) returns (r: Graph)
    requires Sync(g) && n < |g.nodes|
    ensures r == WithoutNode(g, n)
  {
    hide SyncAt;
    var ins, outs := g.ins[n := []], g.outs[n := []];
    for i := 0 to |g.outs[n]|
      invariant |ins| == |g.ins| && ins == EraseFromDsts(g.ins[n := []], g.outs[n][..i])
    {
      var outEdge := g.outs[n][i];
      assert InRange(g, outEdge);
      assert g.outs[n][..i + 1][..i] == g.outs[n][..i];
      var list := EraseFirst(ins[outEdge.output], outEdge);
      ins := ins[outEdge.output := list];
    }
    assert g.outs[n][..|g.outs[n]|] == g.outs[n];
    for i := 0 to |g.ins[n]|
      invariant |outs| == |g.outs| && forall k :: 0 <= k < |g.ins[n]| ==> InRange(g, g.ins[n][k])
      invariant outs == EraseFromSources(g.outs[n := []], g.ins[n][..i])
    {
      var inEdge := g.ins[n][i];
      assert g.ins[n][..i + 1][..i] == g.ins[n][..i];
      outs := EraseFromAll(outs, inEdge);
    }
    assert g.ins[n][..|g.ins[n]|] == g.ins[n];
    var honestIO := g.nodes[n].IsIO() && g.nodes[n].party !in g.corrupted;
    r := g.(ins := ins, outs := outs, live := g.live[n := false],
            bubbleCnt := U32(g.bubbleCnt - if honestIO then 1 else 0));
  }

  method EraseFromAll(outs: seq<seq<Operation>>, e: Operation) returns (r: seq<seq<Operation>>)
    requires forall j :: 0 <= j < |e.inputs| ==> e.inputs[j] < |outs|
    ensures r == EraseAt(outs, e.inputs, e)
  {
    r := outs;
    for i := 0 to |e.inputs|
      invariant r == EraseAt(outs, e.inputs[..i], e)
    {
      assert e.inputs[..i + 1][..i] == e.inputs[..i];
      var list := EraseFirst(r[e.inputs[i]], e);
      r := r[e.inputs[i] := list];
    }
    assert e.inputs[..|e.inputs|] == e.inputs;
  }

  // ----- Eliminating a tail node is eliminating its in-edges one by one

  lemma {:induction false} Drain(g: Graph, n: NodeId, k: nat)
    requires Sync(g) && n < |g.nodes| && k <= |g.ins[n]|
    ensures forall i :: 0 <= i < k ==> InRange(g, g.ins[n][i])
    ensures var m := WithoutEdges(g, g.ins[n][..k]);
            && Sync(m) && m.ins == g.ins[n := g.ins[n][k..]]
            && m.outs == EraseFromSources(g.outs, g.ins[n][..k])
  {
    hide SyncAt, WithoutEdge, EraseAt;
    if k == 0 {
      assert g.ins[n][0..] == g.ins[n] && g.ins[n][..0] == [];
    } else {
      Drain(g, n, k - 1);
      var m, e := WithoutEdges(g, g.ins[n][..k - 1]), g.ins[n][k - 1];
      assert g.ins[n][..k][..k - 1] == g.ins[n][..k - 1] && g.ins[n][..k][k - 1] == e;
      DrainStep(g, n, k, m, e);
    }
  }

  lemma DrainStep(g: Graph, n: NodeId, k: nat, m: Graph, e: Operation)
    requires Sync(g) && n < |g.nodes| && 0 < k <= |g.ins[n]| && e == g.ins[n][k - 1]
    requires Sync(m) && m.nodes == g.nodes && m.ins == g.ins[n := g.ins[n][k - 1..]]
    ensures InRange(m, e) && Sync(WithoutEdge(m, e))
    ensures WithoutEdge(m, e).ins == g.ins[n := g.ins[n][k..]]
    ensures WithoutEdge(m, e).outs == EraseAt(m.outs, e.inputs, e)
  {
    hide SyncAt, WithoutEdge;
    assert e.output == n && InRange(g, e);
    assert m.ins[n][0] == e && m.ins[n][1..] == g.ins[n][k..];
    assert Has(m, e);
    WithoutEdgeSync(m, e);
    FirstGone(m, e);
  }

  lemma FirstGone(m: Graph, e: Operation)
    requires Shape(m) && InRange(m, e) && m.ins[e.output] != [] && m.ins[e.output][0] == e
    ensures WithoutEdge(m, e).ins == m.ins[e.output := m.ins[e.output][1..]]
    ensures WithoutEdge(m, e).outs == EraseAt(m.outs, e.inputs, e)
  {
  }

  /** A node without out-edges takes only its in-edges with it, and the lists stay in sync. */
  lemma TailSync(g: Graph, n: NodeId)
    requires Sync(g) && n < |g.nodes| && g.outs[n] == []
    ensures Sync(WithoutNode(g, n)) && WithoutNode(g, n).ins == g.ins[n := []]
    ensures forall m, e :: 0 <= m < |g.nodes| ==> (e in WithoutNode(g, n).outs[m] <==> e in g.outs[m] && e.output != n)
  {
    hide SyncAt;
    var k, r := |g.ins[n]|, WithoutNode(g, n);
    Drain(g, n, k);
    assert g.ins[n][..k] == g.ins[n] && g.ins[n][k..] == [] && g.outs[n := []] == g.outs;
    var d := WithoutEdges(g, g.ins[n]);
    assert r.ins == d.ins && r.outs == d.outs && r.nodes == d.nodes;
    SameSync(d, r);
    forall m, e | 0 <= m < |g.nodes| ensures e in r.outs[m] <==> e in g.outs[m] && e.output != n {
      OutEdge(r, m, e);
      OutEdge(g, m, e);
    }
  }

  lemma SameSync(d: Graph, r: Graph)
    requires Sync(d) && r.ins == d.ins && r.outs == d.outs && r.nodes == d.nodes && |r.live| == |r.nodes|
    ensures Sync(r)
  {
    forall n, e | 0 <= n < |r.nodes| && InRange(r, e) ensures SyncAt(r, n, e) {
      assert InRange(d, e) && SyncAt(d, n, e);
    }
    forall n, i | 0 <= n < |r.nodes| && 0 <= i < |r.ins[n]| ensures r.ins[n][i].output == n && InRange(r, r.ins[n][i]) {
      assert InRange(d, d.ins[n][i]);
    }
    forall n, i | 0 <= n < |r.nodes| && 0 <= i < |r.outs[n]| ensures InRange(r, r.outs[n][i]) {
      assert InRange(d, d.outs[n][i]);
    }
  }

  // ----- The elimination loop

  predicate Honest(g: Graph, n: NodeId)
    requires n < |g.nodes|
  {
    !AtCorrupted(g, n)
  }

  /**
   * Where elimination has got to, starting from h: only honest nodes are gone, the in-lists of
   * the others are untouched, no edge leaves a gone node for a live one, the bubble count is
   * exact and the random count an upper bound.
   */
  ghost predicate Trimmed(h: Graph, g: Graph)
    requires Shape(h)
  {
    && Sync(g) && Small(g) && g.nodes == h.nodes && g.corrupted == h.corrupted && g.T == h.T && g.partyCnt == h.partyCnt
    && (forall n :: 0 <= n < |g.nodes| && !g.live[n] ==> Honest(g, n))
    && (forall n :: 0 <= n < |g.nodes| ==> g.ins[n] == if g.live[n] then h.ins[n] else [])
    && (forall n, e :: 0 <= n < |g.nodes| && e in g.outs[n] ==> g.live[n])
    && g.bubbleCnt == |Bubbles(g)| && |RandomNodes(g)| <= g.randomCnt < 0x8000_0000
  }

  ghost predicate IsTail(g: Graph, n: NodeId)
    requires Shape(g)
  {
    n < |g.nodes| && g.live[n] && |g.outs[n]| == 0 && Honest(g, n)
  }

  lemma TrimStep(h: Graph, g: Graph, n: NodeId)
    requires Shape(h) && Trimmed(h, g) && IsTail(g, n)
    ensures Trimmed(h, WithoutNode(g, n))
  {
    hide SyncAt;
    var r := WithoutNode(g, n);
    TailSync(g, n);
    TrimCounts(g, n);
    forall m, e | 0 <= m < |r.nodes| && e in r.outs[m] ensures r.live[m] {
      assert e in g.outs[m];
    }
  }

  lemma TrimCounts(g: Graph, n: NodeId)
    requires Sync(g) && Small(g) && IsTail(g, n) && g.bubbleCnt == |Bubbles(g)|
    requires WithoutNode(g, n).ins == g.ins[n := []]
    ensures var r := WithoutNode(g, n);
            && r.bubbleCnt == |Bubbles(r)| && |RandomNodes(r)| <= |RandomNodes(g)|
  {
    hide SyncAt;
    var r := WithoutNode(g, n);
    CountersFit(g);
    forall k: NodeId | k < |g.nodes| && k != n
      ensures IsRandom(r, k) == IsRandom(g, k) && IsBubble(r, k) == IsBubble(g, k)
    {
    }
    assert RandomNodes(r) == RandomNodes(g) - {n};
    assert Bubbles(r) == Bubbles(g) - {n};
    assert n in Bubbles(g) <==> g.nodes[n].IsIO();
  }

  /** Every node of B is honest and has an out-edge into B or to a corrupted party's node. */
  ghost predicate Supported(h: Graph, B: set<NodeId>)
    requires Shape(h)
  {
    forall n :: n in B ==> n < |h.nodes| && Honest(h, n) && Supports(h, B, n)
  }

  ghost predicate Supports(h: Graph, B: set<NodeId>, n: NodeId)
    requires Shape(h)
  {
    exists e :: Has(h, e) && n in e.inputs && (e.output in B || AtCorrupted(h, e.output))
  }

  ghost function LiveHonest(g: Graph): set<NodeId>
    requires Shape(g)
  {
    set n: NodeId | n < |g.nodes| && g.live[n] && Honest(g, n)
  }

  ghost function LiveCount(g: Graph): nat
    requires Shape(g)
  {
    |set n: NodeId | n < |g.nodes| && g.live[n]|
  }

  /** A supported set survives every step. */
  lemma SupportedSurvives(h: Graph, g: Graph, n: NodeId, B: set<NodeId>)
    requires Sync(h) && Trimmed(h, g) && IsTail(g, n) && Supported(h, B) && B <= LiveHonest(g)
    ensures B <= LiveHonest(WithoutNode(g, n))
  {
    hide SyncAt;
    var r := WithoutNode(g, n);
    if n in B {
      assert Supports(h, B, n);
      var e :| Has(h, e) && n in e.inputs && (e.output in B || AtCorrupted(h, e.output));
      assert g.live[e.output];
      assert Has(g, e);
      OutEdge(g, n, e);
    }
  }

  method FindTail(g: Graph) returns (found: bool, n: NodeId)
    requires Shape(g)
    ensures found ==> IsTail(g, n)
    ensures !found ==> forall k: NodeId :: !IsTail(g, k)
  {
    for i := 0 to |g.nodes|
      invariant forall k: NodeId :: k < i ==> !IsTail(g, k)
    {
      if g.live[i] {
        if |g.outs[i]| == 0 && g.nodes[i].party !in g.corrupted {
          return true, i;
        }
      }
    }
    return false, 0;
  }

  /** The greatest set of honest nodes with an out-edge each into the set or to a corrupted party's node. */
  ghost predicate GreatestSupported(h: Graph, A: set<NodeId>)
    requires Shape(h)
  {
    Supported(h, A) && forall B :: Supported(h, B) ==> B <= A
  }

  method EliminateTails(h: Graph) returns (g: Graph)
    requires Good(h)
    ensures Trimmed(h, g) && GreatestSupported(h, LiveHonest(g))
  {
    hide SyncAt, Supports, Trimmed;
    g := h;
    StartTrimmed(h);
    while true
      invariant Shape(g) && Trimmed(h, g)
      invariant forall B :: Supported(h, B) ==> B <= LiveHonest(g)
      decreases LiveCount(g)
    {
      var found, n := FindTail(g);
      if !found { break; }
      TrimStep(h, g, n);
      assert Sync(g) by { TrimmedSync(h, g); }
      forall B | Supported(h, B) ensures B <= LiveHonest(WithoutNode(g, n)) {
        SupportedSurvives(h, g, n, B);
      }
      Shrinks(g, n);
      g := EliminateNode(g, n);
    }
    NoTailSupported(h, g);
  }

  lemma TrimmedSync(h: Graph, g: Graph)
    requires Shape(h) && Trimmed(h, g)
    ensures Sync(g)
  {
  }

  lemma StartTrimmed(h: Graph)
    requires Good(h)
    ensures Trimmed(h, h) && forall B :: Supported(h, B) ==> B <= LiveHonest(h)
  {
    CountersFit(h);
  }

  lemma Shrinks(g: Graph, n: NodeId)
    requires Sync(g) && IsTail(g, n)
    ensures LiveCount(WithoutNode(g, n)) + 1 == LiveCount(g)
  {
    var r := WithoutNode(g, n);
    assert (set k: NodeId | k < |r.nodes| && r.live[k]) == (set k: NodeId | k < |g.nodes| && g.live[k]) - {n};
  }

  lemma NoTailSupported(h: Graph, g: Graph)
    requires Sync(h) && Trimmed(h, g) && forall k: NodeId :: !IsTail(g, k)
    ensures Supported(h, LiveHonest(g))
  {
    hide SyncAt;
    forall n | n in LiveHonest(g) ensures Supports(h, LiveHonest(g), n) {
      assert !IsTail(g, n);
      var e := g.outs[n][0];
      OutEdge(g, n, e);
      assert g.live[e.output];
      assert Has(h, e);
    }
  }

  // ----- The order of elimination does not matter

  /** Node order[i], a tail of trace[i], is eliminated in step i. */
  ghost predicate Elimination(h: Graph, order: seq<NodeId>, trace: seq<Graph>) {
    && |trace| == |order| + 1 && trace[0] == h
    && (forall i :: 0 <= i < |trace| ==> Sync(trace[i]))
    && forall i :: 0 <= i < |order| ==> IsTail(trace[i], order[i]) && trace[i + 1] == WithoutNode(trace[i], order[i])
  }

  lemma {:induction false} EliminationKeeps(h: Graph, order: seq<NodeId>, trace: seq<Graph>, i: nat)
    requires Good(h) && Elimination(h, order, trace) && i < |trace|
    ensures Trimmed(h, trace[i]) && forall B :: Supported(h, B) ==> B <= LiveHonest(trace[i])
    ensures i + LiveCount(trace[i]) == LiveCount(h)
  {
    hide SyncAt, Supported, Trimmed, LiveHonest, LiveCount;
    StartTrimmed(h);
    if i > 0 {
      EliminationKeeps(h, order, trace, i - 1);
      assert IsTail(trace[i - 1], order[i - 1]) && trace[i - 1 + 1] == WithoutNode(trace[i - 1], order[i - 1]);
      TrimStep(h, trace[i - 1], order[i - 1]);
      forall B | Supported(h, B) ensures B <= LiveHonest(trace[i]) {
        SupportedSurvives(h, trace[i - 1], order[i - 1], B);
      }
      Shrinks(trace[i - 1], order[i - 1]);
    }
  }

  /**
   * In whatever order tails are eliminated, one after the other until none is left, the
   * surviving honest nodes are the greatest supported set.
   */
  lemma AnyOrder(h: Graph, order: seq<NodeId>, trace: seq<Graph>)
    requires Good(h) && Elimination(h, order, trace) && forall k: NodeId :: !IsTail(trace[|order|], k)
    ensures Trimmed(h, trace[|order|]) && GreatestSupported(h, LiveHonest(trace[|order|]))
  {
    hide SyncAt, Supported, Trimmed, LiveHonest;
    EliminationKeeps(h, order, trace, |order|);
    NoTailSupported(h, trace[|order|]);
  }

  /** So two eliminations end with the same live nodes, the same in-lists and the same verdict. */
  lemma SameSurvivors(h: Graph, f: Graph, g: Graph)
    requires Sync(h) && Trimmed(h, f) && Trimmed(h, g)
    requires GreatestSupported(h, LiveHonest(f)) && GreatestSupported(h, LiveHonest(g))
    ensures f.live == g.live && f.ins == g.ins && f.bubbleCnt == g.bubbleCnt
  {
    hide SyncAt, Supported;
    var A := LiveHonest(f);
    assert A == LiveHonest(g);
    forall n | 0 <= n < |h.nodes| ensures f.live[n] == g.live[n] && f.ins[n] == g.ins[n] {
      if Honest(h, n) { assert f.live[n] <==> n in A; }
    }
    assert f.live == g.live && f.ins == g.ins;
    assert Bubbles(f) == Bubbles(g);
  }

  // ----- On acyclic graphs the survivors are what the potential counts

  /** Some ranking of the nodes increases along every edge. */
  ghost predicate Ranked(g: Graph, rank: seq<nat>)
    requires Shape(g)
  {
    |rank| == |g.nodes| && forall m: NodeId, n: NodeId :: m < |g.nodes| && Feeds(g, m, n) ==> rank[m] < rank[n]
  }

  ghost predicate Acyclic(g: Graph)
    requires Shape(g)
  {
    exists rank :: Ranked(g, rank)
  }

  lemma ReachingSupported(h: Graph)
    requires Sync(h)
    ensures Supported(h, HonestReaching(h))
  {
    hide SyncAt;
    forall n | n in HonestReaching(h) ensures Supports(h, HonestReaching(h), n) {
      var ns :| Path(h, ns) && ns[0] == n && ns[|ns|-1] < |h.nodes| && AtCorrupted(h, ns[|ns|-1]);
      assert |ns| > 1;
      assert Feeds(h, ns[0], ns[1]);
      var e :| e in h.ins[ns[1]] && n in e.inputs;
      assert Has(h, e) && e.output == ns[1];
      SuffixReaches(h, ns);
    }
  }

  lemma SuffixReaches(h: Graph, ns: seq<NodeId>)
    requires Sync(h) && Path(h, ns) && |ns| > 1 && ns[|ns|-1] < |h.nodes| && AtCorrupted(h, ns[|ns|-1])
    ensures ns[1] < |h.nodes| && Reaches(h, ns[1])
  {
    var rest := ns[1..];
    assert Feeds(h, ns[0], ns[1]);
    forall i | 0 <= i < |rest| - 1 ensures Feeds(h, rest[i], rest[i + 1]) {
      assert Feeds(h, ns[i + 1], ns[i + 2]);
    }
    assert Path(h, rest) && rest[|rest| - 1] == ns[|ns| - 1];
  }

  ghost function Ceiling(rank: seq<nat>): (c: nat)
    ensures forall i :: 0 <= i < |rank| ==> rank[i] < c
  {
    if rank == [] then 0
    else
      var c := Ceiling(rank[..|rank|-1]);
      var last := rank[|rank|-1];
      assert forall i :: 0 <= i < |rank| - 1 ==> rank[..|rank|-1][i] == rank[i];
      if last < c then c else last + 1
  }

  lemma {:induction false} SupportedReaches(h: Graph, B: set<NodeId>, rank: seq<nat>, n: NodeId)
    requires Sync(h) && Supported(h, B) && Ranked(h, rank) && n in B
    ensures n < |h.nodes| && Reaches(h, n)
    decreases Ceiling(rank) - rank[n]
  {
    hide SyncAt;
    assert Supports(h, B, n);
    var e :| Has(h, e) && n in e.inputs && (e.output in B || AtCorrupted(h, e.output));
    assert Feeds(h, n, e.output);
    if AtCorrupted(h, e.output) {
      CorruptedReaches(h, e.output);
    } else {
      SupportedReaches(h, B, rank, e.output);
    }
    FeederReaches(h, n, e.output);
  }

  /** On an acyclic graph the survivors are exactly the honest nodes the search counts. */
  lemma SurvivorsReach(h: Graph, A: set<NodeId>)
    requires Good(h) && GreatestSupported(h, A) && Acyclic(h)
    ensures A == HonestReaching(h) && |A| == PotentialOf(h).reaching
  {
    ReachingSupported(h);
    var rank :| Ranked(h, rank);
    forall n | n in A ensures n in HonestReaching(h) {
      SupportedReaches(h, A, rank, n);
    }
  }
}
