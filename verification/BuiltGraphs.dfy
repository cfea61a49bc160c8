// What the builder's final state means: a protocol graph in topological order, whose
// satisfying valuations are exactly the evaluations of the expressions.
module BuiltGraphs {
  import opened Graphs
  import opened Potentials
  import opened Tails
  import opened Lowering

  // ----- Freezing the lists

  /** Every operation object has its output. */
  ghost predicate Complete(s: State) {
    forall i :: 0 <= i < |s.edges| ==> s.edges[i].target.To?
  }

  /** Edge i as a value; the fallback is never met on complete states. */
  function ValueOf(edges: seq<Edge>, i: EdgeId): Operation {
    if i < |edges| && edges[i].target.To? then
      Operation(edges[i].op, edges[i].inputs, edges[i].target.node, edges[i].arg)
    else Operation(NONE, [], 0, 0)
  }

  function OperationsOf(edges: seq<Edge>, list: seq<EdgeId>): (r: seq<Operation>)
    ensures |r| == |list|
  {
    seq(|list|, k requires 0 <= k < |list| => ValueOf(edges, list[k]))
  }

  function Frozen(edges: seq<Edge>, lists: seq<seq<EdgeId>>): (r: seq<seq<Operation>>)
    ensures |r| == |lists|
  {
    seq(|lists|, n requires 0 <= n < |lists| => OperationsOf(edges, lists[n]))
  }

  function GraphOf(s: State): GraphBase {
    GraphBase(Frozen(s.edges, s.ins), Frozen(s.edges, s.outs), s.nodes)
  }

  // ----- Building

  lemma EmptyWf(p: Program)
    ensures Wf(p, State([], [], [], [], map[], []))
  {
  }

  function Marked(s: State, n: NodeId): State
    requires n < |s.nodes|
  {
    s.(nodes := s.nodes[n := s.nodes[n].(genre := Output)])
  }

  lemma MarkedLists(s: State, n: NodeId)
    requires n < |s.nodes| && ListsOk(s)
    ensures ListsOk(Marked(s, n))
  {
    var t := Marked(s, n);
    forall m | 0 <= m < |s.nodes| ensures NodeOk(t, m) { assert NodeOk(s, m); }
    forall i | 0 <= i < |s.edges| ensures EdgeOk(t, i) { assert EdgeOk(s, i); }
    forall m, i | 0 <= m < |s.nodes| && 0 <= i < |s.edges| ensures OutOk(t, m, i) { assert OutOk(s, m, i); }
  }

  /** Marking the node of an expression as an output keeps the state well-formed. */
  lemma MarkedWf(p: Program, s: State, n: NodeId)
    requires Wf(p, s) && n < |s.nodes| && n < |s.owner| && s.owner[n] in s.memo && s.memo[s.owner[n]] == NodeAt(n)
    ensures Wf(p, Marked(s, n))
  {
    hide ListsOk;
    var t := Marked(s, n);
    MarkedLists(s, n);
    ListSizes(s);
    forall x | x in t.memo ensures Mirrored(p, t, x) { MarkedMirrored(p, s, n, x); }
    forall m | 0 <= m < |t.owner| ensures Owned(t, m) { assert Owned(s, m); }
  }

  lemma MarkedMirrored(p: Program, s: State, n: NodeId, x: ExprId)
    requires x in s.memo && Mirrored(p, s, x) && n < |s.nodes| == |s.owner| == |s.ins|
    requires s.owner[n] in s.memo && s.memo[s.owner[n]] == NodeAt(n)
    ensures Mirrored(p, Marked(s, n), x)
  {
    hide Imported, SourceNodes, Payload;
    var t := Marked(s, n);
    if s.memo[x].PolyNode? {
      var inputs, k := s.memo[x].inputs, SecretCount(p, p[x].kind.constTerm);
      forall i | k <= i < |inputs| ensures Coefficient(t, p[x].party, x, inputs[i]) {
        assert Coefficient(s, p[x].party, x, inputs[i]);
      }
    }
  }

  /** Secrets and given shares are inputs, unless they are marked as outputs; randomness never is an input. */
  lemma InputGenres(p: Program, s: State, x: ExprId)
    requires Wf(p, s) && x in s.memo && x < |p| && p[x].op.INPUT?
    ensures p[x].kind.Secret? || p[x].kind.Share? ==>
      && s.memo[x].NodeAt? && s.memo[x].n < |s.nodes| == |s.ins|
      && s.nodes[s.memo[x].n].IsIO() && s.nodes[s.memo[x].n].party == p[x].party && s.ins[s.memo[x].n] == []
    ensures p[x].kind.Randomness? ==>
      && s.memo[x].NodeAt? && s.memo[x].n < |s.nodes| == |s.ins|
      && !s.nodes[s.memo[x].n].genre.Input? && s.nodes[s.memo[x].n].party == p[x].party && s.ins[s.memo[x].n] == []
  {
    hide ListsOk, Owned;
    assert Mirrored(p, s, x);
  }

  /** After the import of output k, its node is there, and only earlier outputs are marked. */
  lemma OutputImported(p: Program, s: State, t: State, outputs: seq<ExprId>, k: nat)
    requires Complete(s) && Extends(s, t, {}) && Wf(p, t) && k < |outputs| && outputs[k] in t.memo
    requires outputs[k] < |p| && Yields(p[outputs[k]])
    requires forall j :: 0 <= j < k ==> outputs[j] in s.memo && s.memo[outputs[j]].NodeAt?
    requires forall n :: 0 <= n < |s.nodes| ==>
      (s.nodes[n].genre.Output? <==> exists j :: 0 <= j < k && s.memo[outputs[j]] == NodeAt(n))
    requires Wf(p, s)
    ensures Complete(t) && t.memo[outputs[k]].NodeAt?
    ensures var n := t.memo[outputs[k]].n; n < |t.nodes| && n < |t.owner| && t.owner[n] == outputs[k]
    ensures forall j :: 0 <= j < k ==> outputs[j] in t.memo && t.memo[outputs[j]].NodeAt?
    ensures forall n :: 0 <= n < |t.nodes| ==>
      (t.nodes[n].genre.Output? <==> exists j :: 0 <= j < k && t.memo[outputs[j]] == NodeAt(n))
  {
    hide ListsOk, InEdge, PolyFor, Owned;
    assert Mirrored(p, t, outputs[k]);
    forall i | 0 <= i < |t.edges| ensures t.edges[i].target.To? {
      if i < |s.edges| { assert t.edges[i] == t.edges[..|s.edges|][i]; }
    }
    forall n | 0 <= n < |t.nodes|
      ensures t.nodes[n].genre.Output? <==> exists j :: 0 <= j < k && t.memo[outputs[j]] == NodeAt(n)
    {
      if n < |s.nodes| {
        assert t.nodes[n] == t.nodes[..|s.nodes|][n];
      }
      forall j | 0 <= j < k ensures t.memo[outputs[j]].n < |s.nodes| {
        assert Mirrored(p, s, outputs[j]);
      }
    }
  }

  // ----- Synchronised and topologically ordered

  lemma {:induction false} CountValues(edges: seq<Edge>, list: seq<EdgeId>, i: EdgeId, e: Operation)
    requires forall k :: 0 <= k < |list| ==> (ValueOf(edges, list[k]) == e <==> list[k] == i)
    ensures multiset(OperationsOf(edges, list))[e] == multiset(list)[i]
  {
    if list != [] {
      var k := |list| - 1;
      CountValues(edges, list[..k], i, e);
      assert list == list[..k] + [list[k]];
      assert OperationsOf(edges, list) == OperationsOf(edges, list[..k]) + [ValueOf(edges, list[k])];
    }
  }

  /** The only edge into node m. */
  lemma OnlyEdge(s: State, i: EdgeId, j: EdgeId)
    requires ListsOk(s) && Complete(s) && i < |s.edges| && j < |s.edges|
    requires s.edges[i].target == s.edges[j].target
    ensures i == j
  {
    assert EdgeOk(s, i) && EdgeOk(s, j);
  }

  lemma BuiltSyncAt(s: State, g: Graph, n: NodeId, e: Operation)
    requires ListsOk(s) && Complete(s) && Shape(g) && n < |g.nodes| && InRange(g, e)
    requires GraphOf(s) == GraphBase(g.ins, g.outs, g.nodes)
    ensures SyncAt(g, n, e)
  {
    hide OutOk;
    var m := e.output;
    assert g.ins[m] == OperationsOf(s.edges, s.ins[m]) && g.outs[n] == OperationsOf(s.edges, s.outs[n]);
    assert NodeOk(s, m);
    if i :| 0 <= i < |s.edges| && ValueOf(s.edges, i) == e {
      assert EdgeOk(s, i);
      forall k | 0 <= k < |s.outs[n]| ensures ValueOf(s.edges, s.outs[n][k]) == e <==> s.outs[n][k] == i {
        if ValueOf(s.edges, s.outs[n][k]) == e { OnlyEdge(s, s.outs[n][k], i); }
      }
      CountValues(s.edges, s.outs[n], i, e);
      CountValues(s.edges, s.ins[m], i, e);
      OutCounted(s, n, i);
    } else {
      assert e !in g.outs[n] && e !in g.ins[m];
    }
  }

  lemma OutCounted(s: State, n: NodeId, i: EdgeId)
    requires ListsOk(s) && n < |s.nodes| && i < |s.edges|
    ensures multiset(s.outs[n])[i] == multiset(s.edges[i].inputs)[n]
  {
    assert OutOk(s, n, i);
  }

  /** Guids order the graph: one in-edge at most, from smaller guids. */
  ghost predicate Topological(g: Graph)
    requires Shape(g)
  {
    forall n :: 0 <= n < |g.nodes| ==>
      && |g.ins[n]| <= 1
      && (|g.ins[n]| == 1 ==>
           g.ins[n][0].output == n && forall k :: 0 <= k < |g.ins[n][0].inputs| ==> g.ins[n][0].inputs[k] < n)
  }

  /** The built graph is in sync, has at most one edge into a node and follows guid order. */
  lemma BuiltGraph(p: Program, s: State, g: Graph)
    requires Wf(p, s) && Complete(s) && Shape(g) && GraphOf(s) == GraphBase(g.ins, g.outs, g.nodes)
    ensures Sync(g) && Topological(g) && Acyclic(g)
  {
    hide OutOk, Mirrored, Owned;
    forall n | 0 <= n < |g.nodes|
      ensures |g.ins[n]| <= 1
      ensures |g.ins[n]| == 1 ==>
        g.ins[n][0].output == n && forall k :: 0 <= k < |g.ins[n][0].inputs| ==> g.ins[n][0].inputs[k] < n
    {
      assert NodeOk(s, n);
      if |s.ins[n]| == 1 { assert EdgeOk(s, s.ins[n][0]); }
    }
    BuiltInRange(s, g);
    forall n, e | 0 <= n < |g.nodes| && InRange(g, e) ensures SyncAt(g, n, e) {
      BuiltSyncAt(s, g, n, e);
    }
    TopologicalRank(g);
  }

  lemma BuiltInRange(s: State, g: Graph)
    requires ListsOk(s) && Complete(s) && Shape(g) && GraphOf(s) == GraphBase(g.ins, g.outs, g.nodes)
    ensures forall n, k :: 0 <= n < |g.nodes| && 0 <= k < |g.outs[n]| ==> InRange(g, g.outs[n][k])
    ensures forall n, k :: 0 <= n < |g.nodes| && 0 <= k < |g.ins[n]| ==> InRange(g, g.ins[n][k])
  {
    hide OutOk;
    forall n, k | 0 <= n < |g.nodes| && 0 <= k < |g.outs[n]| ensures InRange(g, g.outs[n][k]) {
      assert EdgeOk(s, s.outs[n][k]);
    }
    forall n, k | 0 <= n < |g.nodes| && 0 <= k < |g.ins[n]| ensures InRange(g, g.ins[n][k]) {
      assert NodeOk(s, n) && EdgeOk(s, s.ins[n][k]);
    }
  }

  lemma TopologicalRank(g: Graph)
    requires Shape(g) && Topological(g)
    ensures Acyclic(g)
  {
    var rank := seq(|g.nodes|, n requires 0 <= n < |g.nodes| => n);
    forall m: NodeId, n: NodeId | m < |g.nodes| && Feeds(g, m, n) ensures rank[m] < rank[n] {
      var e :| e in g.ins[n] && m in e.inputs;
      assert e == g.ins[n][0];
    }
    assert Ranked(g, rank);
  }

  // ----- Valuations of the built graph

  type Meaning = (Operation, seq<int>) -> int

  ghost function At(v: seq<int>, ns: seq<NodeId>): seq<int>
    requires forall k :: 0 <= k < |ns| ==> ns[k] < |v|
  {
    seq(|ns|, k requires 0 <= k < |ns| => v[ns[k]])
  }

  /** v keeps the given values where no edge arrives, and every edge determines its output. */
  ghost predicate Solves(g: Graph, F: Meaning, a: seq<int>, v: seq<int>)
    requires Shape(g) && Topological(g) && |a| == |g.nodes|
  {
    |v| == |g.nodes| && forall n :: 0 <= n < |v| ==> SolvedAt(g, F, a, v, n)
  }

  ghost predicate SolvedAt(g: Graph, F: Meaning, a: seq<int>, v: seq<int>, n: NodeId)
    requires Shape(g) && Topological(g) && |a| == |g.nodes| && n < |v| <= |g.nodes|
  {
    v[n] == if g.ins[n] == [] then a[n] else F(g.ins[n][0], At(v, g.ins[n][0].inputs))
  }

  /** The values of the first n nodes, computed in guid order. */
  ghost function Computed(g: Graph, F: Meaning, a: seq<int>, n: nat): (v: seq<int>)
    requires Shape(g) && Topological(g) && |a| == |g.nodes| && n <= |g.nodes|
    ensures |v| == n
  {
    if n == 0 then []
    else
      var v := Computed(g, F, a, n - 1);
      v + [if g.ins[n - 1] == [] then a[n - 1] else F(g.ins[n - 1][0], At(v, g.ins[n - 1][0].inputs))]
  }

  lemma {:induction false} ComputedSolves(g: Graph, F: Meaning, a: seq<int>, n: nat, m: NodeId)
    requires Shape(g) && Topological(g) && |a| == |g.nodes| && m < n <= |g.nodes|
    ensures SolvedAt(g, F, a, Computed(g, F, a, n), m)
  {
    var v := Computed(g, F, a, n - 1);
    if m < n - 1 { ComputedSolves(g, F, a, n - 1, m); }
    if g.ins[m] != [] {
      assert At(Computed(g, F, a, n), g.ins[m][0].inputs) == At(v, g.ins[m][0].inputs);
    }
  }

  lemma {:induction false} SolutionComputed(g: Graph, F: Meaning, a: seq<int>, v: seq<int>, n: nat)
    requires Shape(g) && Topological(g) && |a| == |g.nodes| && Solves(g, F, a, v) && n <= |g.nodes|
    ensures v[..n] == Computed(g, F, a, n)
  {
    if n > 0 {
      SolutionComputed(g, F, a, v, n - 1);
      assert SolvedAt(g, F, a, v, n - 1);
      if g.ins[n - 1] != [] {
        assert At(v, g.ins[n - 1][0].inputs) == At(v[..n - 1], g.ins[n - 1][0].inputs);
      }
    }
  }

  /** Every assignment to the nodes without in-edges extends to exactly one valuation. */
  lemma UniqueExtension(g: Graph, F: Meaning, a: seq<int>)
    requires Shape(g) && Topological(g) && |a| == |g.nodes|
    ensures Solves(g, F, a, Computed(g, F, a, |a|))
    ensures forall v :: Solves(g, F, a, v) ==> v == Computed(g, F, a, |a|)
  {
    forall m | 0 <= m < |a| ensures SolvedAt(g, F, a, Computed(g, F, a, |a|), m) {
      ComputedSolves(g, F, a, |a|, m);
    }
    forall v | Solves(g, F, a, v) ensures v == Computed(g, F, a, |a|) {
      SolutionComputed(g, F, a, v, |a|);
      assert v[..|a|] == v;
    }
  }

}
