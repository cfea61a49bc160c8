// The addition rewriter with its `apply` loop over all nodes, and the guard of the two sharing
// rewriters.
module Transformers {
  import opened Arith
  import opened Graphs
  import opened Counters
  import opened Semantics
  import opened Patterns
  import opened Sharing

  datatype Candidate = Candidate(node: NodeId, graph: Graph)

  // ----- Lists of candidates

  /** Candidates come in the order of their nodes. */
  predicate InNodeOrder(cs: seq<Candidate>) {
    forall i, j :: 0 <= i < j < |cs| ==> cs[i].node <= cs[j].node
  }

  predicate OnePerNode(cs: seq<Candidate>) {
    forall i, j :: 0 <= i < j < |cs| ==> cs[i].node != cs[j].node
  }

  /** The candidates that leave the number of random nodes unchanged, in order. */
  function Kept(results: seq<Candidate>, randomCnt: int): (r: seq<Candidate>)
    ensures forall c :: c in r <==> c in results && c.graph.randomCnt == randomCnt
  {
    if results == [] then []
    else
      var k := |results| - 1;
      assert results == results[..k] + [results[k]];
      Kept(results[..k], randomCnt) + if results[k].graph.randomCnt == randomCnt then [results[k]] else []
  }

  lemma OrderSnoc(cs: seq<Candidate>, c: Candidate)
    requires InNodeOrder(cs) && forall d :: d in cs ==> d.node <= c.node
    ensures InNodeOrder(cs + [c])
  {
  }

  lemma OncePerNodeSnoc(cs: seq<Candidate>, c: Candidate)
    requires OnePerNode(cs) && forall d :: d in cs ==> d.node != c.node
    ensures OnePerNode(cs + [c])
  {
  }

  lemma {:induction false} KeptInOrder(results: seq<Candidate>, randomCnt: int)
    requires InNodeOrder(results)
    ensures InNodeOrder(Kept(results, randomCnt))
  {
    if results != [] {
      var k := |results| - 1;
      KeptInOrder(results[..k], randomCnt);
      if results[k].graph.randomCnt == randomCnt { OrderSnoc(Kept(results[..k], randomCnt), results[k]); }
    }
  }

  lemma {:induction false} KeptOnce(results: seq<Candidate>, randomCnt: int)
    requires OnePerNode(results)
    ensures OnePerNode(Kept(results, randomCnt))
  {
    if results != [] {
      var k := |results| - 1;
      KeptOnce(results[..k], randomCnt);
      if results[k].graph.randomCnt == randomCnt { OncePerNodeSnoc(Kept(results[..k], randomCnt), results[k]); }
    }
  }

  method FilterRandom(results: seq<Candidate>, randomCnt: int) returns (filtered: seq<Candidate>)
    ensures filtered == Kept(results, randomCnt)
  {
    filtered := [];
    for i := 0 to |results|
      invariant filtered == Kept(results[..i], randomCnt)
    {
      assert results[..i + 1][..i] == results[..i];
      if results[i].graph.randomCnt == randomCnt {
        filtered := filtered + [results[i]];
      }
    }
    assert results[..|results|] == results;
  }

  // ----- Reversing an addition

  /** c = a + b turned into a = c - b (first side) or b = c - a (second side). */
  function Reversed(e: Operation, first: bool): Operation
    requires |e.inputs| == 2
  {
    if first then Operation(SUB, [e.output, e.inputs[1]], e.inputs[0], 0)
    else Operation(SUB, [e.output, e.inputs[0]], e.inputs[1], 0)
  }

  ghost predicate AdditionResult(g: Graph, n: NodeId, r: Graph)
    requires Sync(g) && n < |g.nodes|
  {
    exists e, first :: e in g.ins[n] && e.op.ADD? && |e.inputs| == 2 && Replaced(g, {e}, {Reversed(e, first)}, r)
  }

  lemma Singleton(g: Graph, e: Operation, f: Operation)
    requires Sync(g) && InRange(g, e) && InRange(g, f)
    ensures Replaced(g, {e}, {f}, WithEdge(WithoutEdge(g, e), f))
  {
    var m := WithoutEdge(g, e);
    assert [e][..0] == [] && [f][..0] == [];
    assert WithoutEdges(g, [e]) == m by { assert WithoutEdges(g, []) == g; }
    assert WithEdges(m, [f]) == WithEdge(m, f) by { assert WithEdges(m, []) == m; }
    assert Lists([e], {e}) && Lists([f], {f}) && AllInRange(g, [e]) && AllInRange(g, [f]);
    assert WithEdge(m, f) == Rewrite(g, [e], [f]);
  }

  lemma AdditionEquivalent(env: Env, g: Graph, e: Operation, first: bool)
    requires WfEnv(env) && Good(g) && Coherent(env, g) && Has(g, e) && e.op.ADD? && |e.inputs| == 2
    ensures Equivalent(env, g, {e}, {Reversed(e, first)})
  {
    var f := Reversed(e, first);
    forall v | IsValuation(env, g, v) ensures AllHoldIn(env, {e}, v) <==> AllHoldIn(env, {f}, v) {
      var c, a, b := v[e.output], v[e.inputs[0]], v[e.inputs[1]];
      assert InputValues(e, v) == [a, b];
      assert InputValues(f, v) == if first then [c, b] else [c, a];
      Solve(env.p, c, a, b);
      Solve(env.p, c, b, a);
    }
  }

  lemma Solve(p: int, c: int, a: int, b: int)
    requires p > 0
    ensures Cong(p, c, a + b) <==> Cong(p, a, c - b)
  {
    if Cong(p, c, a + b) { CongSym(p, c, a + b); }
    if Cong(p, a, c - b) { CongSym(p, a, c - b); }
  }

  /** The graph with one addition reversed. */
  function AdditionGraph(g: Graph, e: Operation, first: bool): (r: Graph)
    requires Sync(g) && InRange(g, e) && |e.inputs| == 2
  {
    WithEdge(WithoutEdge(g, e), Reversed(e, first))
  }

  predicate IsAddition(g: Graph, e: Operation) {
    InRange(g, e) && e.op.ADD? && |e.inputs| == 2
  }

  ghost predicate CoversAdditions(g: Graph, results: seq<Candidate>, n: NodeId, es: seq<Operation>)
    requires Sync(g)
  {
    forall e, first :: e in es && IsAddition(g, e) ==> Candidate(n, AdditionGraph(g, e, first)) in results
  }

  ghost predicate AllAdditionResults(g: Graph, results: seq<Candidate>)
    requires Sync(g)
  {
    forall i :: 0 <= i < |results| ==>
      results[i].node < |g.nodes| && AdditionResult(g, results[i].node, results[i].graph)
  }

  /** Both reversals of every addition into node n. */
  method AdditionsInto(g: Graph, n: NodeId, ghost env: Env) returns (results: seq<Candidate>)
    requires Good(g) && Coherent(env, g) && n < |g.nodes|
    ensures AllAdditionResults(g, results) && CoversAdditions(g, results, n, g.ins[n])
    ensures forall i :: 0 <= i < |results| ==> results[i].node == n
  {
    hide SyncAt, AdditionResult, AdditionGraph, WithEdge, WithoutEdge, Counted;
    results := [];
    for i := 0 to |g.ins[n]|
      invariant AllAdditionResults(g, results) && CoversAdditions(g, results, n, g.ins[n][..i])
      invariant forall k :: 0 <= k < |results| ==> results[k].node == n
    {
      var edge := g.ins[n][i];
      ghost var before := results;
      assert Has(g, edge) && WellFormed(env, g, edge);
      if edge.op.ADD? {
        assert |edge.inputs| == 2;
        var eliminated := EliminateEdge(g, edge);
        assert InRange(eliminated, Reversed(edge, true)) && InRange(eliminated, Reversed(edge, false));
        var g0 := AddEdge(eliminated, Reversed(edge, true));
        var g1 := AddEdge(eliminated, Reversed(edge, false));
        AdditionGraphResult(g, n, edge, true);
        AdditionGraphResult(g, n, edge, false);
        results := results + [Candidate(n, g0), Candidate(n, g1)];
        assert results[|before|] == Candidate(n, g0) && results[|before| + 1] == Candidate(n, g1);
      }
      CoversSnoc(g, before, results, n, g.ins[n], i);
    }
    assert g.ins[n][..|g.ins[n]|] == g.ins[n];
  }

  lemma CoversSnoc(g: Graph, before: seq<Candidate>, results: seq<Candidate>, n: NodeId, es: seq<Operation>, i: nat)
    requires Sync(g) && i < |es| && before <= results && CoversAdditions(g, before, n, es[..i])
    requires IsAddition(g, es[i]) ==> Candidate(n, AdditionGraph(g, es[i], true)) in results
    requires IsAddition(g, es[i]) ==> Candidate(n, AdditionGraph(g, es[i], false)) in results
    ensures CoversAdditions(g, results, n, es[..i + 1])
  {
    hide SyncAt, AdditionGraph;
    forall e, first | e in es[..i + 1] && IsAddition(g, e) ensures Candidate(n, AdditionGraph(g, e, first)) in results {
      assert e in es[..i] || e == es[i];
    }
  }

  lemma AdditionGraphResult(g: Graph, n: NodeId, e: Operation, first: bool)
    requires Sync(g) && n < |g.nodes| && e in g.ins[n] && IsAddition(g, e)
    ensures AdditionResult(g, n, AdditionGraph(g, e, first))
    ensures AdditionGraph(g, e, first) == WithEdge(WithoutEdge(g, e), Reversed(e, first))
  {
    Singleton(g, e, Reversed(e, first));
    assert AdditionGraph(g, e, first) == WithEdge(WithoutEdge(g, e), Reversed(e, first));
  }

  /** Solving for operand k leaves c = a + b as the difference of c and the other operand. */
  lemma SolvesFor(g: Graph, n: NodeId, e: Operation, k: nat)
    requires Sync(g) && n < |g.nodes| && e in g.ins[n] && IsAddition(g, e) && k < 2
    ensures var f := Operation(SUB, [e.output, e.inputs[1 - k]], e.inputs[k], 0);
      && e.output == n && Replaced(g, {e}, {f}, AdditionGraph(g, e, k == 0)) && Has(AdditionGraph(g, e, k == 0), f)
  {
    hide SyncAt, Replaced, WithEdge, WithoutEdge;
    var f := Operation(SUB, [e.output, e.inputs[1 - k]], e.inputs[k], 0);
    Singleton(g, e, f);
    HasAdded(WithoutEdge(g, e), f);
  }

  lemma HasAdded(g: Graph, f: Operation)
    requires Shape(g) && InRange(g, f)
    ensures Has(WithEdge(g, f), f)
  {
    assert f in g.ins[f.output] + [f];
  }

  predicate RandomStays(g: Graph, n: NodeId, x: NodeId)
    requires Shape(g) && n < |g.nodes| && x < |g.nodes|
  {
    x == n || (IsRandom(g, x) <==> |g.ins[n]| == 1 && !g.nodes[n].IsIO())
  }

  /**
   * The operand becomes computed, the sum loses an in-edge: the number of random nodes stays
   * exactly if the operand was random and the sum becomes so, or neither, or they are one node.
   */
  lemma AdditionFilter(g: Graph, n: NodeId, e: Operation, k: nat)
    requires Good(g) && n < |g.nodes| && e in g.ins[n] && IsAddition(g, e) && k < 2
    ensures AdditionGraph(g, e, k == 0).randomCnt == g.randomCnt <==>
      RandomStays(g, n, e.inputs[k])
  {
    hide SyncAt, AdditionGraph;
    var x, r := e.inputs[k], AdditionGraph(g, e, k == 0);
    AdditionDegrees(g, n, e, k);
    if x == n {
      assert RandomNodes(r) == RandomNodes(g);
    } else {
      var lost: set<NodeId> := if IsRandom(g, x) then {x} else {};
      var gained: set<NodeId> := if |g.ins[n]| == 1 && !g.nodes[n].IsIO() then {n} else {};
      AdditionRandom(g, r, n, x, lost, gained);
      Exchanged(RandomNodes(g), RandomNodes(r), lost, gained);
    }
  }

  lemma AdditionRandom(g: Graph, r: Graph, n: NodeId, x: NodeId, lost: set<NodeId>, gained: set<NodeId>)
    requires Shape(g) && Shape(r) && r.nodes == g.nodes && r.live == g.live && AllLive(g)
    requires n < |g.nodes| && x < |g.nodes| && x != n && |g.ins[n]| > 0
    requires forall i :: 0 <= i < |g.nodes| ==>
      |r.ins[i]| == |g.ins[i]| - (if i == n then 1 else 0) + (if i == x then 1 else 0)
    requires lost == (if IsRandom(g, x) then {x} else {})
    requires gained == (if |g.ins[n]| == 1 && !g.nodes[n].IsIO() then {n} else {})
    ensures RandomNodes(r) == (RandomNodes(g) - lost) + gained
    ensures lost <= RandomNodes(g) && gained !! RandomNodes(g)
  {
  }

  lemma Exchanged(A: set<NodeId>, B: set<NodeId>, lost: set<NodeId>, gained: set<NodeId>)
    requires B == (A - lost) + gained && lost <= A && gained !! A
    ensures |B| == |A| - |lost| + |gained|
  {
  }

  lemma AdditionDegrees(g: Graph, n: NodeId, e: Operation, k: nat)
    requires Good(g) && n < |g.nodes| && e in g.ins[n] && IsAddition(g, e) && k < 2
    ensures var x, r := e.inputs[k], AdditionGraph(g, e, k == 0);
      && e.output == n && Counted(r) && r.nodes == g.nodes && r.live == g.live && Shape(r)
      && forall i :: 0 <= i < |g.nodes| ==>
           |r.ins[i]| == |g.ins[i]| - (if i == n then 1 else 0) + (if i == x then 1 else 0)
  {
    hide SyncAt;
    var m, f := WithoutEdge(g, e), Reversed(e, k == 0);
    assert Has(g, e) && AdditionGraph(g, e, k == 0) == WithEdge(m, f);
    RemoveFirstCount(g.ins[n], e);
    WithoutEdgeCounted(g, e);
    WithEdgeCounted(m, f);
  }

  /** Some candidate at node n has edge f in place of edge e. */
  ghost predicate Offering(g: Graph, cs: seq<Candidate>, n: NodeId, e: Operation, f: Operation)
    requires Shape(g)
  {
    exists c :: c in cs && c.node == n && Replaced(g, {e}, {f}, c.graph)
  }

  /** The rewriter offers every addition solved for either operand, unless that changes the number of random nodes. */
  method ApplyAddition(g: Graph, ghost env: Env, ghost parties: set<Party>) returns (filtered: seq<Candidate>)
    requires Ready(env, parties, g)
    ensures AllAdditionResults(g, filtered) && InNodeOrder(filtered)
    ensures forall c :: c in filtered ==> c.graph.randomCnt == g.randomCnt
    ensures forall n, e, first :: 0 <= n < |g.nodes| && e in g.ins[n] && IsAddition(g, e) ==>
      AdditionGraph(g, e, first).randomCnt == g.randomCnt ==> Candidate(n, AdditionGraph(g, e, first)) in filtered
    ensures forall n, e, k: nat ::
      0 <= n < |g.nodes| && e in g.ins[n] && IsAddition(g, e) && k < 2 && RandomStays(g, n, e.inputs[k]) ==>
        Offering(g, filtered, n, e, Operation(SUB, [e.output, e.inputs[1 - k]], e.inputs[k], 0))
  {
    hide AdditionResult, AdditionGraph, SyncAt, WfEnv, WellFormed, Replaced, IsRandom;
    var results: seq<Candidate> := [];
    for n := 0 to |g.nodes|
      invariant AllAdditionResults(g, results) && InNodeOrder(results)
      invariant forall i :: 0 <= i < |results| ==> results[i].node < n
      invariant forall k :: 0 <= k < n ==> CoversAdditions(g, results, k, g.ins[k])
    {
      var more := AdditionsInto(g, n, env);
      results := results + more;
    }
    filtered := FilterRandom(results, g.randomCnt);
    KeptInOrder(results, g.randomCnt);
    assert forall i :: 0 <= i < |filtered| ==> filtered[i] in results;
    forall n, e, k: nat |
      0 <= n < |g.nodes| && e in g.ins[n] && IsAddition(g, e) && k < 2 && RandomStays(g, n, e.inputs[k])
      ensures Offering(g, filtered, n, e, Operation(SUB, [e.output, e.inputs[1 - k]], e.inputs[k], 0))
    {
      SolvesFor(g, n, e, k);
      AdditionFilter(g, n, e, k);
      assert Candidate(n, AdditionGraph(g, e, k == 0)) in filtered;
    }
  }

  // ----- The guard of the sharing rewriters

  /** The conditions on the first i out-edges, as far as the guard has read them. */
  ghost predicate EdgesPass(g: Graph, es: seq<Operation>, src: set<Party>)
    requires Sync(g) && forall i :: 0 <= i < |es| ==> es[i].output < |g.nodes|
  {
    && (forall i :: 0 <= i < |es| ==> |es[i].inputs| == g.T + 1)
    && (forall i, j :: 0 <= i < j < |es| && es[i].op.EVAL? && es[j].op.EVAL? ==>
          TargetParty(g, es[i].output) != TargetParty(g, es[j].output))
    && (forall i :: 0 <= i < |es| && es[i].op.EVAL? && TargetParty(g, es[i].output) in src ==>
          |g.ins[Target(g, es[i].output)]| <= 1)
  }

  lemma EdgesPassSnoc(g: Graph, es: seq<Operation>, src: set<Party>, i: nat)
    requires Sync(g) && i < |es| && forall k :: 0 <= k < |es| ==> es[k].output < |g.nodes|
    ensures EdgesPass(g, es[..i + 1], src) <==>
      && EdgesPass(g, es[..i], src) && |es[i].inputs| == g.T + 1
      && (es[i].op.EVAL? ==>
            && (forall j :: 0 <= j < i ==> !EvalAt(g, es[j], TargetParty(g, es[i].output)))
            && (TargetParty(g, es[i].output) in src ==> |g.ins[Target(g, es[i].output)]| <= 1))
    ensures EdgesPass(g, es, src) ==> EdgesPass(g, es[..i + 1], src)
  {
    hide SyncAt, TargetParty, Target;
    if EdgesPass(g, es[..i + 1], src) {
      forall j | 0 <= j < i ensures es[..i + 1][j] == es[..i][j] {}
      assert es[..i + 1][i] == es[i];
    }
  }

  method IsRewritableSecret(g: Graph, n: NodeId, src: set<Party>) returns (ok: bool)
    requires Sync(g) && n < |g.nodes|
    ensures ok <==> RewritableSecret(g, n, src)
  {
    var es := g.outs[n];
    if |es| != g.partyCnt { return false; }
    var pass, srcIds := CheckEdges(g, n, src);
    if !pass { return false; }
    if |srcIds| != g.T + 1 { return false; }
    var rest := srcIds;
    while rest != {}
      invariant rest <= srcIds
      invariant forall s :: s in srcIds && s !in rest && s != n ==> s < |g.nodes| && IsRandom(g, s)
      decreases |rest|
    {
      var s: NodeId :| s in rest;
      InputInRange(g, n, s);
      if s != n && !IsRandom(g, s) { return false; }
      rest := rest - {s};
    }
    ok := true;
  }

  /** The loop over the out-edges: the early exits, and the source ids collected on the way. */
  method CheckEdges(g: Graph, n: NodeId, src: set<Party>) returns (pass: bool, srcIds: set<NodeId>)
    requires Sync(g) && n < |g.nodes|
    ensures pass <==> EdgesPass(g, g.outs[n], src)
    ensures pass ==> srcIds == AllInputs(g.outs[n])
  {
    hide SyncAt, AllInputs, EdgesPass;
    var es := g.outs[n];
    srcIds := {};
    var parties: set<Party> := {};
    NoEdges(g, src);
    for i := 0 to |es|
      invariant srcIds == AllInputs(es[..i])
      invariant forall q :: q in parties <==> exists j :: 0 <= j < i && EvalAt(g, es[j], q)
      invariant EdgesPass(g, es[..i], src)
    {
      var edge := es[i];
      EdgesPassSnoc(g, es, src, i);
      if |edge.inputs| != g.T + 1 { return false, {}; }
      srcIds := srcIds + (set s | s in edge.inputs);
      InputsSnoc(es, i);
      if edge.op.EVAL? {
        var share := Target(g, edge.output);
        var party := g.nodes[share].party;
        if party in parties { return false, {}; }
        parties := parties + {party};
        assert EvalAt(g, es[i], party);
        if party in src {
          TargetHasInEdge(g, n, edge);
          assert |g.ins[share]| >= 1;
          if |g.ins[share]| > 1 { return false, {}; }
        }
      }
    }
    assert es[..|es|] == es;
    pass := true;
  }

  lemma NoEdges(g: Graph, src: set<Party>)
    requires Sync(g)
    ensures AllInputs([]) == {} && EdgesPass(g, [], src)
  {
  }

  ghost predicate EvalAt(g: Graph, e: Operation, q: Party)
    requires Sync(g)
  {
    e.op.EVAL? && e.output < |g.nodes| && TargetParty(g, e.output) == q
  }

  lemma InputsSnoc(es: seq<Operation>, i: nat)
    requires i < |es|
    ensures AllInputs(es[..i + 1]) == AllInputs(es[..i]) + set s | s in es[i].inputs
  {
    forall s ensures s in AllInputs(es[..i + 1]) <==> s in AllInputs(es[..i]) || s in es[i].inputs {
      if s in AllInputs(es[..i + 1]) {
        var j :| 0 <= j < i + 1 && s in es[..i + 1][j].inputs;
        assert j < i ==> es[..i][j] == es[j] && s in AllInputs(es[..i]);
      }
      if s in AllInputs(es[..i]) {
        var j :| 0 <= j < i && s in es[..i][j].inputs;
        assert es[..i + 1][j] == es[j];
      }
      if s in es[i].inputs {
        assert es[..i + 1][i] == es[i];
      }
    }
  }

  lemma InputInRange(g: Graph, n: NodeId, s: NodeId)
    requires Sync(g) && n < |g.nodes| && s in AllInputs(g.outs[n])
    ensures s < |g.nodes|
  {
    var es := g.outs[n];
    var j :| 0 <= j < |es| && s in es[j].inputs;
    assert InRange(g, es[j]);
    var k :| 0 <= k < |es[j].inputs| && es[j].inputs[k] == s;
  }

  lemma TargetHasInEdge(g: Graph, n: NodeId, e: Operation)
    requires Sync(g) && n < |g.nodes| && e in g.outs[n]
    ensures e.output < |g.nodes| && |g.ins[Target(g, e.output)]| >= 1
  {
    OutEdge(g, n, e);
    if Sent(g, e.output) { OutEdge(g, e.output, g.outs[e.output][0]); }
  }

  // ----- The sharing rewriters

  ghost function OldTo(g: Graph, n: NodeId, i: nat): set<Operation>
    requires Sync(g) && n < |g.nodes| && i <= |g.outs[n]|
  {
    set e | e in g.outs[n][..i]
  }

  ghost function MovedTo(g: Graph, n: NodeId, src: set<Party>, i: nat): set<Operation>
    requires Sync(g) && n < |g.nodes| && i <= |g.outs[n]|
  {
    set j | 0 <= j < i && MovedShare(g, g.outs[n][j].output, src) :: g.outs[g.outs[n][j].output][0]
  }

  lemma ListsSnoc(s: seq<Operation>, S: set<Operation>, e: Operation)
    requires Lists(s, S) && e !in S
    ensures Lists(s + [e], S + {e})
  {
  }

  lemma OldToStep(env: Env, parties: set<Party>, g: Graph, n: NodeId, src: set<Party>, i: nat)
    requires Ready(env, parties, g) && n < |g.nodes| && SharingMatch(g, n, src) && i < |g.outs[n]|
    ensures OldTo(g, n, i + 1) == OldTo(g, n, i) + {g.outs[n][i]} && g.outs[n][i] !in OldTo(g, n, i)
    ensures forall f :: f in OldTo(g, n, i + 1) ==> f.op.EVAL?
  {
    hide Coherent, WfEnv, SyncAt, TargetParties, RewritableSecret;
    var es, e := g.outs[n], g.outs[n][i];
    SharingParties(env, parties, g, n, src);
    assert es[..i + 1] == es[..i] + [e];
    forall f | f in es[..i] ensures f != e {
      var j :| 0 <= j < i && es[..i][j] == f;
      assert Outputs(es)[j] == f.output && Outputs(es)[i] == e.output;
    }
  }

  lemma MovedToStep(env: Env, parties: set<Party>, g: Graph, n: NodeId, src: set<Party>, i: nat)
    requires Ready(env, parties, g) && n < |g.nodes| && SharingMatch(g, n, src) && i < |g.outs[n]|
    ensures MovedTo(g, n, src, i + 1) <= MovedTransits(g, n, src)
    ensures forall t :: t in MovedTo(g, n, src, i + 1) ==> IsTransit(t)
    ensures var s := g.outs[n][i].output;
            if MovedShare(g, s, src) then
              var t := g.outs[s][0];
              && IsTransit(t) && InRange(g, Flip(t)) && t.inputs[0] == s
              && t !in MovedTo(g, n, src, i) && MovedTo(g, n, src, i + 1) == MovedTo(g, n, src, i) + {t}
              && forall u :: u in MovedTo(g, n, src, i) ==> u.inputs != t.inputs
            else
              MovedTo(g, n, src, i + 1) == MovedTo(g, n, src, i)
  {
    hide Coherent, WfEnv, SyncAt, TargetParties, SharingMatch;
    var es, e := g.outs[n], g.outs[n][i];
    SharingParties(env, parties, g, n, src);
    forall t | t in MovedTransits(g, n, src) ensures IsTransit(t) && Has(g, t) && g.outs[t.inputs[0]] == [t] {
      MovedTransitFacts(env, parties, g, n, src, t);
    }
    if MovedShare(g, e.output, src) {
      var t := g.outs[e.output][0];
      assert t in MovedTransits(g, n, src);
      OutEdge(g, e.output, t);
      forall j | 0 <= j < i && MovedShare(g, es[j].output, src) ensures g.outs[es[j].output][0] != t {
        OutEdge(g, es[j].output, g.outs[es[j].output][0]);
        assert Outputs(es)[j] != Outputs(es)[i];
        assert g.outs[es[j].output][0] in MovedTransits(g, n, src);
      }
    }
  }
}
