// The graph builder: memoised recursive lowering of expressions, and the graph it builds.
module Builders {
  import opened Graphs
  import opened Lowering
  import opened ImportSteps
  import opened BuiltGraphs

  class Builder {
    const p: Program
    var nodes: seq<Node>
    var ins: seq<seq<EdgeId>>
    var outs: seq<seq<EdgeId>>
    var edges: seq<Edge>
    var memo: map<ExprId, Lowered>
    ghost var owner: seq<ExprId>

    ghost function S(): State
      reads this
    {
      State(nodes, ins, outs, edges, memo, owner)
    }

    constructor (p: Program)
      ensures this.p == p && S() == State([], [], [], [], map[], [])
    {
      this.p := p;
      nodes, ins, outs, edges, memo, owner := [], [], [], [], map[], [];
    }

    method NewNode(party: Party, genre: Genre, ghost x: ExprId) returns (n: NodeId)
      modifies this
      ensures n == old(|nodes|) && S() == WithNodes(old(S()), x, Node(party, genre), 1)
    {
      n := |nodes|;
      nodes := nodes + [Node(party, genre)];
      ins := ins + [[]];
      outs := outs + [[]];
      owner := owner + [x];
    }

    /** Lower an expression, its operands first, each expression once. */
    method Import(x: ExprId) returns (r: Lowered)
      requires WfProgram(p) && x < |p| && Wf(p, S())
      modifies this
      ensures Wf(p, S()) && Extends(old(S()), S(), {}) && x in memo && r == memo[x]
      ensures forall y :: y in memo && y !in old(memo) ==> y <= x
      ensures p[x].op.INPUT? && (p[x].kind.Secret? || p[x].kind.Share?) ==>
        r.NodeAt? && r.n < |nodes| && nodes[r.n].IsIO() && nodes[r.n].party == p[x].party
      ensures p[x].op.INPUT? && p[x].kind.Randomness? ==>
        r.NodeAt? && r.n < |nodes| && !nodes[r.n].genre.Input? && nodes[r.n].party == p[x].party
      decreases x, 1
    {
      hide Wf, Extends;
      if x in memo {
        ExtendsSelf(S());
        if p[x].op.INPUT? { InputGenres(p, S(), x); }
        return memo[x];
      }
      ghost var s := S();
      var e := p[x];
      if Simple(e.op) {
        r := ImportSimple(x);
      } else if e.op.EVAL? {
        r := ImportEvaluation(x);
      } else if e.op.POLILIZE? {
        r := ImportPolynomial(x);
      } else if e.op.INPUT? && (e.kind.Secret? || e.kind.Share? || e.kind.Randomness?) {
        var genre := if e.kind.Randomness? then Others else Input;
        assert genre == GenreOf(e);
        InputWf(p, s, x, Node(e.party, genre));
        var n := NewNode(e.party, genre, x);
        r := NodeAt(n);
        memo := memo[x := r];
        NodesExtend(s, x, Node(e.party, genre), 1, r);
      } else {
        NoNodeWf(p, s, x);
        r := NoNode;
        memo := memo[x := r];
        NothingAdded(s, x, Node(e.party, Others), r);
        NodesExtend(s, x, Node(e.party, Others), 0, r);
      }
      if e.op.INPUT? { InputGenres(p, S(), x); }
    }

    /** An operation node: the operation object first, then its operands in order, then the node. */
    method ImportSimple(x: ExprId) returns (r: Lowered)
      requires WfProgram(p) && x < |p| && Wf(p, S()) && x !in memo && Simple(p[x].op)
      modifies this
      ensures Wf(p, S()) && Extends(old(S()), S(), {}) && x in memo && r == memo[x]
      ensures forall y :: y in memo && y !in old(memo) ==> y <= x
      decreases x, 0
    {
      hide Wf, Extends, ListsOk, SourceNodes, Payload, Imported;
      ghost var s0 := S();
      var e := p[x];
      var i := |edges|;
      edges := edges + [Edge(e.op, [], Pending, Unsaid(e.op, x))];
      OpenedWf(p, s0, e.op, Unsaid(e.op, x));
      assert WfExpr(p, x);
      for k := 0 to |e.operands|
        invariant Wf(p, S()) && Extends(s0, S(), {i}) && i < |edges| && i == |s0.edges|
        invariant x !in memo && forall y :: y in memo && y !in s0.memo ==> y <= x
        invariant Imported(p, memo, e.operands[..k])
        invariant edges[i] ==
          Edge(e.op, SourceNodes(p, memo, e.operands[..k]), Pending, Payload(p, Unsaid(e.op, x), e.operands[..k]))
      {
        AddOperand(x, i, k, s0);
      }
      assert e.operands[..|e.operands|] == e.operands;
      ghost var s := S();
      ClosedWf(p, s, i, x, Node(e.party, Others));
      ClosedExtends(s0, s, i, x, Node(e.party, Others));
      WfSizes(p, s);
      NodeWithEdge(s, i, x, Node(e.party, Others));
      var n := NewNode(e.party, Others, x);
      ins := ins[n := ins[n] + [i]];
      edges := edges[i := edges[i].(target := To(n))];
      r := NodeAt(n);
      memo := memo[x := r];
      assert S() == Closed(s, i, x, Node(e.party, Others));
    }

    /** One operand: a constant becomes the payload, anything else an input. */
    method AddOperand(x: ExprId, i: EdgeId, k: nat, ghost s0: State)
      requires WfProgram(p) && x < |p| && Wf(p, S()) && Simple(p[x].op) && k < |p[x].operands|
      requires Extends(s0, S(), {i}) && i < |edges| && i == |s0.edges|
      requires x !in memo && forall y :: y in memo && y !in s0.memo ==> y <= x
      requires Imported(p, memo, p[x].operands[..k])
      requires edges[i] ==
        Edge(p[x].op, SourceNodes(p, memo, p[x].operands[..k]), Pending,
             Payload(p, Unsaid(p[x].op, x), p[x].operands[..k]))
      modifies this
      ensures Wf(p, S()) && Extends(s0, S(), {i}) && i < |edges|
      ensures x !in memo && forall y :: y in memo && y !in s0.memo ==> y <= x
      ensures Imported(p, memo, p[x].operands[..k + 1])
      ensures edges[i] ==
        Edge(p[x].op, SourceNodes(p, memo, p[x].operands[..k + 1]), Pending,
             Payload(p, Unsaid(p[x].op, x), p[x].operands[..k + 1]))
      decreases x, 0, 0
    {
      hide Wf, Extends, ListsOk, SourceNodes, Payload, Imported, WfProgram;
      var operand := p[x].operands[k];
      ghost var s := S();
      OperandKind(p, x, k);
      if p[operand].kind.Constant? {
        PayloadWf(p, s, i, operand);
        PayloadExtends(s0, s, i, operand);
        TakeConstant(p, memo, Unsaid(p[x].op, x), p[x].operands, k);
        edges := edges[i := edges[i].(arg := operand)];
        assert S() == WithPayload(s, i, operand);
      } else {
        var tmp := Import(operand);
        ghost var t := S();
        AfterImport(p, s0, s, t, i, x, operand, k);
        var n := tmp.n;
        InputWfStep(p, t, i, n);
        InputExtendsStep(s0, t, i, n);
        TakeNode(p, memo, Unsaid(p[x].op, x), p[x].operands, k);
        edges := edges[i := edges[i].(inputs := edges[i].inputs + [n])];
        outs := outs[n := outs[n] + [i]];
        assert S() == WithInput(t, i, n);
      }
    }

    /** A polynomial has no node: its constant term is lowered and its coefficients are drawn. */
    method ImportPolynomial(x: ExprId) returns (r: Lowered)
      requires WfProgram(p) && x < |p| && Wf(p, S()) && x !in memo && p[x].op.POLILIZE?
      modifies this
      ensures Wf(p, S()) && Extends(old(S()), S(), {}) && x in memo && r == memo[x]
      ensures forall y :: y in memo && y !in old(memo) ==> y <= x
      decreases x, 0
    {
      hide Wf, Extends;
      ghost var s0 := S();
      assert WfExpr(p, x);
      var c := Import(p[x].kind.constTerm);
      ghost var s := S();
      var inputs := [];
      if c.NodeAt? { inputs := inputs + [c.n]; }
      ghost var node := Node(p[x].party, Others);
      var d := p[x].kind.degree;
      NothingAdded(s, x, node, NoNode);
      for i := 0 to d
        invariant S() == WithNodes(s, x, node, i) && inputs == SecretInput(c) + DrawnNodes(|s.nodes|, i)
      {
        var n := NewNode(p[x].party, Others, x);
        inputs := inputs + [n];
        OneMore(s, x, node, i);
      }
      PolyWf(p, s, x, node);
      r := PolyNode(inputs);
      memo := memo[x := r];
      NodesExtend(s, x, node, d, r);
      ExtendsTransitive(s0, s, S(), {});
    }

    /** An evaluation copies the operation of its polynomial. */
    method ImportEvaluation(x: ExprId) returns (r: Lowered)
      requires WfProgram(p) && x < |p| && Wf(p, S()) && x !in memo && p[x].op.EVAL?
      modifies this
      ensures Wf(p, S()) && Extends(old(S()), S(), {}) && x in memo && r == memo[x]
      ensures forall y :: y in memo && y !in old(memo) ==> y <= x
      decreases x, 0
    {
      hide Wf, Extends, PushAll;
      ghost var s0 := S();
      assert WfExpr(p, x);
      var f := p[x].operands[0];
      var poly := Import(f);
      ghost var s := S();
      PolyLowered(p, s, f);
      PolyInputs(p, s, f);
      var inputs := poly.inputs;
      EvaluatedWf(p, s, x, Node(p[x].party, Others));
      EvaluatedExtends(s, x, Node(p[x].party, Others), inputs, f);
      var i := |edges|;
      var n := NewNode(p[x].party, Others, x);
      edges := edges + [Edge(EVAL, inputs, To(n), f)];
      WfSizes(p, s);
      NodeWithEdge(s, i, x, Node(p[x].party, Others));
      ins := ins[n := ins[n] + [i]];
      assert inputs[..0] == [];
      PushNone(s.outs + [[]], i);
      for k := 0 to |inputs|
        invariant S() == WithNodes(s, x, Node(p[x].party, Others), 1).(
                           ins := s.ins + [[i]], edges := s.edges + [Edge(EVAL, inputs, To(n), f)],
                           outs := PushAll(s.outs + [[]], inputs[..k], i))
      {
        PushNext(s.outs + [[]], inputs, i, k);
        outs := outs[inputs[k] := outs[inputs[k]] + [i]];
      }
      assert inputs[..|inputs|] == inputs;
      r := NodeAt(n);
      memo := memo[x := r];
      assert S() == Evaluated(s, x, Node(p[x].party, Others), inputs, f);
      ExtendsTransitive(s0, s, S(), {});
    }

    /** Lower every output and mark its node, then freeze the lists. */
    method Build(outputs: seq<ExprId>) returns (b: GraphBase)
      requires WfProgram(p) && S() == State([], [], [], [], map[], [])
      requires forall k :: 0 <= k < |outputs| ==> outputs[k] < |p| && Yields(p[outputs[k]])
      modifies this
      ensures Wf(p, S()) && Complete(S()) && b == GraphOf(S())
      ensures forall k :: 0 <= k < |outputs| ==> outputs[k] in memo && memo[outputs[k]].NodeAt?
      ensures forall n :: 0 <= n < |nodes| ==>
        (nodes[n].genre.Output? <==> exists k :: 0 <= k < |outputs| && memo[outputs[k]] == NodeAt(n))
    {
      hide Wf, Extends;
      EmptyWf(p);
      for k := 0 to |outputs|
        invariant Wf(p, S()) && Complete(S())
        invariant forall j :: 0 <= j < k ==> outputs[j] in memo && memo[outputs[j]].NodeAt?
        invariant forall n :: 0 <= n < |nodes| ==>
          (nodes[n].genre.Output? <==> exists j :: 0 <= j < k && memo[outputs[j]] == NodeAt(n))
      {
        ghost var s := S();
        var r := Import(outputs[k]);
        ghost var t := S();
        OutputImported(p, s, t, outputs, k);
        var n := r.n;
        nodes := nodes[n := nodes[n].(genre := Output)];
        MarkedWf(p, t, n);
        assert S() == Marked(t, n);
        assert Complete(S());
      }
      b := Freeze();
    }

    method Freeze() returns (b: GraphBase)
      requires Wf(p, S()) && Complete(S())
      ensures b == GraphOf(S())
    {
      hide ListsOk, Mirrored, Owned;
      var ins', outs' := [], [];
      WfSizes(p, S());
      for n := 0 to |ins|
        invariant ins' == Frozen(edges, ins)[..n]
      {
        ins' := ins' + [OperationsOf(edges, ins[n])];
      }
      for n := 0 to |outs|
        invariant outs' == Frozen(edges, outs)[..n]
      {
        outs' := outs' + [OperationsOf(edges, outs[n])];
      }
      b := GraphBase(ins', outs', nodes);
    }
  }
}
