// Lowering preserves meaning: in the valuation the graph computes, the node of every lowered
// expression has the value the expression means.
module LoweredMeaning {
  import opened Graphs
  import opened Lowering
  import opened ImportSteps
  import opened BuiltGraphs

  /**
   * The values of inputs, of the polynomials' random coefficients, and of operators. The
   * arguments an edge omits are those of the expression whose value it computes.
   */
  datatype Reading = Reading(
    leaf: ExprId -> int,
    coefficient: (ExprId, nat) -> int,
    apply: (ExprId, seq<int>) -> int)

  ghost function MeaningOf(p: Program, w: Reading, x: ExprId): int
    requires WfProgram(p) && x < |p|
    decreases x, 1, 0
  {
    assert WfExpr(p, x);
    if Simple(p[x].op) then w.apply(x, MeaningsOf(p, w, x, |p[x].operands|))
    else if p[x].op.EVAL? then w.apply(x, DealtValues(p, w, p[x].operands[0]))
    else w.leaf(x)
  }

  /** The meanings of the first k operands, constants skipped. */
  ghost function MeaningsOf(p: Program, w: Reading, x: ExprId, k: nat): seq<int>
    requires WfProgram(p) && x < |p| && Simple(p[x].op) && k <= |p[x].operands|
    decreases x, 0, k
  {
    assert WfExpr(p, x);
    if k == 0 then []
    else
      var front := MeaningsOf(p, w, x, k - 1);
      if p[p[x].operands[k - 1]].kind.Constant? then front else front + [MeaningOf(p, w, p[x].operands[k - 1])]
  }

  /** The secret, unless it is a constant, and the random coefficients of a polynomial. */
  ghost function DealtValues(p: Program, w: Reading, f: ExprId): seq<int>
    requires WfProgram(p) && f < |p| && p[f].op.POLILIZE?
    decreases f, 2, 0
  {
    assert WfExpr(p, f);
    SecretValue(p, w, f) + seq(p[f].kind.degree, i requires 0 <= i < p[f].kind.degree => w.coefficient(f, i))
  }

  ghost function SecretValue(p: Program, w: Reading, f: ExprId): (r: seq<int>)
    requires WfProgram(p) && f < |p| && p[f].op.POLILIZE? && p[f].kind.Polynomial? && p[f].kind.constTerm < f
    ensures |r| == SecretCount(p, p[f].kind.constTerm)
    decreases f, 0, 0
  {
    if SecretCount(p, p[f].kind.constTerm) == 1 then [MeaningOf(p, w, p[f].kind.constTerm)] else []
  }

  function Look(a: seq<int>, n: NodeId): int {
    if n < |a| then a[n] else 0
  }

  function NodeOf(s: State, x: ExprId): NodeId {
    if x in s.memo && s.memo[x].NodeAt? then s.memo[x].n else 0
  }

  function CoefficientOf(p: Program, s: State, x: ExprId, i: nat): NodeId {
    if x in s.memo && s.memo[x].PolyNode? && x < |p| && p[x].kind.Polynomial? && p[x].kind.constTerm < |p|
       && SecretCount(p, p[x].kind.constTerm) + i < |s.memo[x].inputs|
    then s.memo[x].inputs[SecretCount(p, p[x].kind.constTerm) + i]
    else 0
  }

  ghost predicate IsCoefficient(p: Program, s: State, x: ExprId, i: nat) {
    x in s.memo && s.memo[x].PolyNode? && x < |p| && p[x].kind.Polynomial? && i < p[x].kind.degree
  }

  /** The assignment gives inputs and coefficients the values they have in the reading. */
  ghost predicate Assigns(p: Program, s: State, w: Reading, a: seq<int>) {
    && |a| == |s.nodes|
    && (forall x :: x in s.memo && s.memo[x].NodeAt? && x < |p| && p[x].op.INPUT? ==>
         Look(a, NodeOf(s, x)) == w.leaf(x))
    && (forall x, i: nat :: IsCoefficient(p, s, x, i) ==> Look(a, CoefficientOf(p, s, x, i)) == w.coefficient(x, i))
  }

  /** Every assignment comes from a reading. */
  lemma ReadingOf(p: Program, s: State, a: seq<int>, apply: (ExprId, seq<int>) -> int) returns (w: Reading)
    requires |a| == |s.nodes|
    ensures Assigns(p, s, w, a) && w.apply == apply
  {
    w := Reading((x: ExprId) => Look(a, NodeOf(s, x)), (x: ExprId, i: nat) => Look(a, CoefficientOf(p, s, x, i)),
                 apply);
  }

  ghost function Applied(s: State, w: Reading): Meaning {
    (e: Operation, xs: seq<int>) => if e.output < |s.owner| then w.apply(s.owner[e.output], xs) else 0
  }

  /** The graph is the one of this state, and v is the valuation computed from a. */
  ghost predicate Evaluates(p: Program, s: State, g: Graph, w: Reading, a: seq<int>, v: seq<int>) {
    && WfProgram(p) && Wf(p, s) && Complete(s) && Shape(g) && GraphOf(s) == GraphBase(g.ins, g.outs, g.nodes)
    && Topological(g) && Assigns(p, s, w, a) && |a| == |g.nodes| && Solves(g, Applied(s, w), a, v)
  }

  lemma InEdgeValue(p: Program, s: State, g: Graph, w: Reading, a: seq<int>, v: seq<int>, n: NodeId)
    requires Evaluates(p, s, g, w, a, v) && n < |s.nodes| && |s.ins[n]| == 1
    ensures s.ins[n][0] < |s.edges|
    ensures var ns := s.edges[s.ins[n][0]].inputs;
            (forall k :: 0 <= k < |ns| ==> ns[k] < |v|) && v[n] == w.apply(s.owner[n], BuiltGraphs.At(v, ns))
  {
    hide Mirrored, OutOk, Owned, Assigns, WfProgram;
    var i := s.ins[n][0];
    assert NodeOk(s, n) && EdgeOk(s, i);
    assert SolvedAt(g, Applied(s, w), a, v, n);
    assert g.ins[n] == OperationsOf(s.edges, s.ins[n]) && g.ins[n][0] == ValueOf(s.edges, i);
  }

  lemma LeafValue(p: Program, s: State, g: Graph, w: Reading, a: seq<int>, v: seq<int>, n: NodeId)
    requires Evaluates(p, s, g, w, a, v) && n < |s.nodes| && s.ins[n] == []
    ensures n < |v| && n < |a| && v[n] == a[n]
  {
    hide Mirrored, OutOk, Owned, Assigns, WfProgram, NodeOk, EdgeOk;
    assert SolvedAt(g, Applied(s, w), a, v, n);
    assert g.ins[n] == OperationsOf(s.edges, s.ins[n]);
  }

  /** The node of a lowered expression has the value the expression means. */
  lemma {:induction false} NodeMeaning(p: Program, s: State, g: Graph, w: Reading, a: seq<int>, v: seq<int>, x: ExprId)
    requires Evaluates(p, s, g, w, a, v) && x in s.memo && s.memo[x].NodeAt?
    ensures x < |p| && s.memo[x].n < |v| && v[s.memo[x].n] == MeaningOf(p, w, x)
    decreases x, 1, 0
  {
    hide ListsOk, Owned, Topological, Solves, Assigns, Imported, WfProgram;
    var n := s.memo[x].n;
    assert Mirrored(p, s, x);
    SolutionSize(p, s, g, w, a, v);
    if p[x].op.INPUT? {
      LeafValue(p, s, g, w, a, v, n);
      LeafRead(p, s, w, a, x);
    } else {
      InEdgeValue(p, s, g, w, a, v, n);
      if Simple(p[x].op) {
        OperandsRead(p, s, g, w, a, v, x, |p[x].operands|);
        assert p[x].operands[..|p[x].operands|] == p[x].operands;
      } else {
        PolynomialRead(p, s, g, w, a, v, p[x].operands[0]);
      }
    }
  }

  lemma SolutionSize(p: Program, s: State, g: Graph, w: Reading, a: seq<int>, v: seq<int>)
    requires Evaluates(p, s, g, w, a, v)
    ensures |v| == |a| == |s.nodes| == |s.ins| == |s.owner|
  {
  }

  lemma LeafRead(p: Program, s: State, w: Reading, a: seq<int>, x: ExprId)
    requires Assigns(p, s, w, a) && x in s.memo && s.memo[x].NodeAt? && x < |p| && p[x].op.INPUT?
    ensures Look(a, s.memo[x].n) == w.leaf(x)
  {
  }

  lemma {:induction false} OperandsRead(p: Program, s: State, g: Graph, w: Reading, a: seq<int>, v: seq<int>, x: ExprId,
                                        k: nat)
    requires Evaluates(p, s, g, w, a, v) && x < |p| && WfExpr(p, x) && Simple(p[x].op) && k <= |p[x].operands|
    requires Imported(p, s.memo, p[x].operands)
    ensures Imported(p, s.memo, p[x].operands[..k])
    ensures var ns := SourceNodes(p, s.memo, p[x].operands[..k]);
            (forall j :: 0 <= j < |ns| ==> ns[j] < |v|) && BuiltGraphs.At(v, ns) == MeaningsOf(p, w, x, k)
    decreases x, 0, k
  {
    hide ListsOk, Owned, Topological, Solves, Assigns, Mirrored, WfProgram, GraphOf, Complete;
    var operands := p[x].operands;
    if k > 0 {
      OperandsRead(p, s, g, w, a, v, x, k - 1);
      var y := operands[k - 1];
      assert operands[..k][..k - 1] == operands[..k - 1];
      if !p[y].kind.Constant? {
        NodeMeaning(p, s, g, w, a, v, y);
      }
    }
  }

  lemma {:induction false} PolynomialRead(p: Program, s: State, g: Graph, w: Reading, a: seq<int>, v: seq<int>,
                                          f: ExprId)
    requires Evaluates(p, s, g, w, a, v) && f in s.memo && s.memo[f].PolyNode?
    ensures f < |p| && p[f].op.POLILIZE?
    ensures forall j :: 0 <= j < |s.memo[f].inputs| ==> s.memo[f].inputs[j] < |v|
    ensures BuiltGraphs.At(v, s.memo[f].inputs) == DealtValues(p, w, f)
    decreases f, 2, 0
  {
    hide ListsOk, Owned, Topological, Solves, Assigns, WfProgram, GraphOf, Complete;
    assert Mirrored(p, s, f);
    SolutionSize(p, s, g, w, a, v);
    PolyInputs(p, s, f);
    var inputs, c := s.memo[f].inputs, p[f].kind.constTerm;
    var k := SecretCount(p, c);
    if k == 1 { NodeMeaning(p, s, g, w, a, v, c); }
    forall j | k <= j < |inputs| ensures v[inputs[j]] == w.coefficient(f, j - k) {
      assert Coefficient(s, p[f].party, f, inputs[j]);
      LeafValue(p, s, g, w, a, v, inputs[j]);
      CoefficientRead(p, s, w, a, f, j - k);
    }
  }

  lemma CoefficientRead(p: Program, s: State, w: Reading, a: seq<int>, f: ExprId, i: nat)
    requires Assigns(p, s, w, a) && IsCoefficient(p, s, f, i)
    ensures Look(a, CoefficientOf(p, s, f, i)) == w.coefficient(f, i)
  {
  }

  /** A finished state, and the graph made of it. */
  ghost predicate Finished(p: Program, s: State, g: Graph) {
    WfProgram(p) && Wf(p, s) && Complete(s) && Shape(g) && GraphOf(s) == GraphBase(g.ins, g.outs, g.nodes)
  }

  /** The value the graph computes for the node of expression x, from the values of the leaves. */
  ghost function ComputedAt(s: State, g: Graph, w: Reading, a: seq<int>, x: ExprId): int
    requires Shape(g) && Topological(g) && |a| == |g.nodes| && x in s.memo && s.memo[x].NodeAt? && s.memo[x].n < |a|
  {
    Computed(g, Applied(s, w), a, |a|)[s.memo[x].n]
  }

  /**
   * Whatever the nodes without in-edges are assigned, the graph evaluates every lowered
   * expression to what it means when its inputs and coefficients are read off the assignment.
   */
  lemma LoweringPreservesMeaning(p: Program, s: State, g: Graph, a: seq<int>, apply: (ExprId, seq<int>) -> int)
    returns (w: Reading)
    requires Finished(p, s, g) && |a| == |g.nodes|
    ensures Assigns(p, s, w, a) && w.apply == apply && Topological(g)
    ensures forall x :: x in s.memo && s.memo[x].NodeAt? ==>
      x < |p| && s.memo[x].n < |a| && ComputedAt(s, g, w, a, x) == MeaningOf(p, w, x)
  {
    hide Wf, Assigns, Topological, Solves, WfProgram;
    BuiltGraph(p, s, g);
    w := ReadingOf(p, s, a, apply);
    AllMeanings(p, s, g, w, a);
  }

  lemma AllMeanings(p: Program, s: State, g: Graph, w: Reading, a: seq<int>)
    requires Finished(p, s, g) && |a| == |g.nodes| && Assigns(p, s, w, a) && Topological(g)
    ensures forall x :: x in s.memo && s.memo[x].NodeAt? ==>
      x < |p| && s.memo[x].n < |a| && ComputedAt(s, g, w, a, x) == MeaningOf(p, w, x)
  {
    hide Wf, Assigns, Topological, Solves, WfProgram;
    UniqueExtension(g, Applied(s, w), a);
    var v := Computed(g, Applied(s, w), a, |a|);
    forall x | x in s.memo && s.memo[x].NodeAt?
      ensures x < |p| && s.memo[x].n < |a| && ComputedAt(s, g, w, a, x) == MeaningOf(p, w, x)
    {
      NodeMeaning(p, s, g, w, a, v, x);
    }
  }

  /** Conversely, whatever inputs and coefficients are to be, some assignment makes the graph evaluate to that. */
  lemma MeaningsEvaluated(p: Program, s: State, g: Graph, w: Reading) returns (a: seq<int>)
    requires Finished(p, s, g)
    ensures |a| == |g.nodes| && Assigns(p, s, w, a) && Topological(g)
    ensures forall x :: x in s.memo && s.memo[x].NodeAt? ==>
      x < |p| && s.memo[x].n < |a| && ComputedAt(s, g, w, a, x) == MeaningOf(p, w, x)
  {
    hide Wf, Assigns, Topological, Solves, WfProgram;
    BuiltGraph(p, s, g);
    a := AssignmentOf(p, s, w);
    AllMeanings(p, s, g, w, a);
  }

  /** The value a reading gives a node without in-edges: through the expression the node was made for. */
  ghost function LeafFor(p: Program, s: State, w: Reading, n: NodeId): int {
    if n >= |s.owner| then 0
    else
      var x := s.owner[n];
      if i: nat :| IsCoefficient(p, s, x, i) && CoefficientOf(p, s, x, i) == n then w.coefficient(x, i)
      else w.leaf(x)
  }

  lemma AssignmentOf(p: Program, s: State, w: Reading) returns (a: seq<int>)
    requires WfProgram(p) && Wf(p, s)
    ensures |a| == |s.nodes| && Assigns(p, s, w, a)
  {
    hide WfProgram;
    a := seq(|s.nodes|, n requires 0 <= n < |s.nodes| => LeafFor(p, s, w, n));
    forall x | x in s.memo && s.memo[x].NodeAt? && x < |p| && p[x].op.INPUT?
      ensures Look(a, NodeOf(s, x)) == w.leaf(x)
    {
      InputOwner(p, s, x);
    }
    forall x, i: nat | IsCoefficient(p, s, x, i) ensures Look(a, CoefficientOf(p, s, x, i)) == w.coefficient(x, i) {
      CoefficientOwner(p, s, x, i);
      assert forall j: nat :: IsCoefficient(p, s, x, j) && CoefficientOf(p, s, x, j) == CoefficientOf(p, s, x, i) ==>
        j == i;
    }
  }

  lemma InputOwner(p: Program, s: State, x: ExprId)
    requires Wf(p, s) && x in s.memo && s.memo[x].NodeAt? && x < |p|
    ensures s.memo[x].n < |s.nodes| == |s.owner| && s.owner[s.memo[x].n] == x
    ensures forall i: nat :: !IsCoefficient(p, s, x, i)
  {
    hide ListsOk, Owned, InEdge, PolyFor;
    assert Mirrored(p, s, x);
  }

  lemma CoefficientOwner(p: Program, s: State, x: ExprId, i: nat)
    requires Wf(p, s) && IsCoefficient(p, s, x, i)
    ensures CoefficientOf(p, s, x, i) < |s.nodes| == |s.owner| && s.owner[CoefficientOf(p, s, x, i)] == x
    ensures forall j: nat :: IsCoefficient(p, s, x, j) && CoefficientOf(p, s, x, j) == CoefficientOf(p, s, x, i) ==>
      j == i
  {
    hide ListsOk, Owned, InEdge, NodeFor;
    assert Mirrored(p, s, x) && WfExpr(p, x);
    var inputs, k := s.memo[x].inputs, SecretCount(p, p[x].kind.constTerm);
    assert Coefficient(s, p[x].party, x, inputs[k + i]);
  }

  // ----- Coefficients

  /** All evaluations of one polynomial have the same inputs: its secret and its coefficients. */
  lemma SharedCoefficients(p: Program, s: State, x: ExprId, y: ExprId)
    requires WfProgram(p) && Wf(p, s) && x in s.memo && y in s.memo && x < |p| && y < |p|
    requires p[x].op.EVAL? && p[y].op.EVAL? && p[x].operands == p[y].operands
    ensures s.memo[x].NodeAt? && s.memo[y].NodeAt?
    ensures var n, m := s.memo[x].n, s.memo[y].n;
            && n < |s.ins| && m < |s.ins| && |s.ins[n]| == |s.ins[m]| == 1
            && s.ins[n][0] < |s.edges| && s.ins[m][0] < |s.edges|
            && s.edges[s.ins[n][0]].inputs == s.edges[s.ins[m][0]].inputs
            && (x != y ==> n != m)
  {
    hide ListsOk, Owned, WfProgram;
    assert Mirrored(p, s, x) && Mirrored(p, s, y);
  }

  /** Coefficients of different polynomials are different nodes. */
  lemma ApartCoefficients(p: Program, s: State, f: ExprId, h: ExprId, i: nat, j: nat)
    requires WfProgram(p) && Wf(p, s) && f in s.memo && h in s.memo && f != h && s.memo[f].PolyNode?
    requires s.memo[h].PolyNode?
    requires f < |p| && h < |p| && p[f].kind.Polynomial? && p[h].kind.Polynomial? && i < p[f].kind.degree
    requires j < p[h].kind.degree
    ensures CoefficientOf(p, s, f, i) != CoefficientOf(p, s, h, j)
  {
    hide ListsOk, Owned;
    assert Mirrored(p, s, f) && Mirrored(p, s, h);
    assert WfExpr(p, f) && WfExpr(p, h);
    assert Coefficient(s, p[f].party, f, CoefficientOf(p, s, f, i));
    assert Coefficient(s, p[h].party, h, CoefficientOf(p, s, h, j));
  }

  /** A polynomial whose constant term is a constant leaves its evaluations without a secret input. */
  lemma ConstantSecret(p: Program, s: State, f: ExprId)
    requires WfProgram(p) && Wf(p, s) && f in s.memo && f < |p| && p[f].op.POLILIZE?
    ensures s.memo[f].PolyNode? && p[f].kind.Polynomial? && p[f].kind.constTerm < |p|
    ensures |s.memo[f].inputs| == p[f].kind.degree <==> p[p[f].kind.constTerm].kind.Constant?
    ensures |s.memo[f].inputs| == p[f].kind.degree + 1 <==> !p[p[f].kind.constTerm].kind.Constant?
  {
    hide ListsOk, Owned;
    assert Mirrored(p, s, f);
    assert WfExpr(p, f);
    assert WfExpr(p, p[f].kind.constTerm);
  }
}
