// The steps of the import keep the builder's state well-formed and only ever extend it.
//
// There is one step per case of the import (an input, an operation with its operands, an
// evaluation, a polynomial, an expression without a node). Each lemma takes a well-formed
// state to the state the case leaves behind, and the builder's methods compute exactly
// those states.
module ImportSteps {
  import opened Graphs
  import opened Lowering

  // ----- Each case of the import keeps the state well-formed

  function NodesAndMemo(s: State, x: ExprId, node: Node, count: nat, r: Lowered): State {
    WithNodes(s, x, node, count).(memo := s.memo[x := r])
  }

  lemma ClosedMirrored(p: Program, s: State, i: EdgeId, x: ExprId, node: Node)
    requires x < |p| && WfExpr(p, x) && Simple(p[x].op) && node == Node(p[x].party, Others) && x !in s.memo
    requires |s.ins| == |s.nodes| == |s.owner| && i < |s.edges| && Imported(p, s.memo, p[x].operands)
    requires s.edges[i] ==
      Edge(p[x].op, SourceNodes(p, s.memo, p[x].operands), Pending, Payload(p, Unsaid(p[x].op, x), p[x].operands))
    ensures Mirrored(p, Closed(s, i, x, node), x) && Owned(Closed(s, i, x, node), |s.owner|)
  {
    hide Imported, SourceNodes, Payload, WfExpr;
    var t := Closed(s, i, x, node);
    SourcesKept(p, s.memo, t.memo, p[x].operands);
    assert InEdge(p, t, x, |s.nodes|);
  }

  lemma ClosedWf(p: Program, s: State, i: EdgeId, x: ExprId, node: Node)
    requires WfProgram(p) && Wf(p, s) && x < |p| && x !in s.memo && Simple(p[x].op) && node == Node(p[x].party, Others)
    requires i < |s.edges| && Imported(p, s.memo, p[x].operands)
    requires s.edges[i] ==
      Edge(p[x].op, SourceNodes(p, s.memo, p[x].operands), Pending, Payload(p, Unsaid(p[x].op, x), p[x].operands))
    ensures Wf(p, Closed(s, i, x, node))
  {
    hide ListsOk, Keeps, Mirrored, Owned, Imported, SourceNodes, Payload, WfExpr, Yields;
    ListSizes(s);
    assert WfExpr(p, x);
    ClosedLists(s, i, x, node);
    ClosedMirrored(p, s, i, x, node);
    WfKept(p, s, Closed(s, i, x, node), x);
  }

  lemma PolyInputs(p: Program, s: State, x: ExprId)
    requires Wf(p, s) && x in s.memo && s.memo[x].PolyNode?
    ensures |s.outs| == |s.nodes| && forall k :: 0 <= k < |s.memo[x].inputs| ==> s.memo[x].inputs[k] < |s.nodes|
  {
    assert Mirrored(p, s, x);
    var inputs := s.memo[x].inputs;
    var k := SecretCount(p, p[x].kind.constTerm);
    forall j | 0 <= j < |inputs| ensures inputs[j] < |s.nodes| {
      if j >= k { assert Coefficient(s, p[x].party, x, inputs[j]); }
    }
  }

  lemma EvaluatedWf(p: Program, s: State, x: ExprId, node: Node)
    requires WfProgram(p) && Wf(p, s) && x < |p| && x !in s.memo && p[x].op.EVAL? && node == Node(p[x].party, Others)
    requires |p[x].operands| == 1 && p[x].operands[0] in s.memo && s.memo[p[x].operands[0]].PolyNode?
    requires |s.outs| == |s.nodes|
    requires forall k :: 0 <= k < |s.memo[p[x].operands[0]].inputs| ==> s.memo[p[x].operands[0]].inputs[k] < |s.nodes|
    ensures Wf(p, Evaluated(s, x, node, s.memo[p[x].operands[0]].inputs, p[x].operands[0]))
  {
    hide ListsOk, NodeOk, EdgeOk, OutOk, Keeps, PushAll;
    var f := p[x].operands[0];
    var t := Evaluated(s, x, node, s.memo[f].inputs, f);
    ListSizes(s);
    EvaluatedLists(s, x, node, s.memo[f].inputs, f);
    assert WfExpr(p, x);
    assert InEdge(p, t, x, |s.nodes|);
    WfKept(p, s, t, x);
  }

  lemma InputWf(p: Program, s: State, x: ExprId, node: Node)
    requires WfProgram(p) && Wf(p, s) && x < |p| && x !in s.memo
    requires p[x].op.INPUT? && Yields(p[x]) && node == Node(p[x].party, GenreOf(p[x]))
    ensures var t := WithNodes(s, x, node, 1); Wf(p, t.(memo := t.memo[x := NodeAt(|s.nodes|)]))
  {
    hide ListsOk, NodeOk, EdgeOk, OutOk, Keeps;
    var u := WithNodes(s, x, node, 1);
    var t := u.(memo := u.memo[x := NodeAt(|s.nodes|)]);
    ListSizes(s);
    NodesLists(s, x, node, 1);
    MemoLists(s, u, x, NodeAt(|s.nodes|));
    assert WfExpr(p, x);
    WfKept(p, s, t, x);
  }

  lemma MemoLists(s: State, u: State, x: ExprId, r: Lowered)
    requires ListsOk(u) && Keeps(s, u) && x !in s.memo
    ensures ListsOk(u.(memo := u.memo[x := r])) && Keeps(s, u.(memo := u.memo[x := r]))
  {
    var t := u.(memo := u.memo[x := r]);
    forall n | 0 <= n < |u.nodes| ensures NodeOk(t, n) { assert NodeOk(u, n); }
    forall i | 0 <= i < |u.edges| ensures EdgeOk(t, i) { assert EdgeOk(u, i); }
    forall n, i | 0 <= n < |u.nodes| && 0 <= i < |u.edges| ensures OutOk(t, n, i) { assert OutOk(u, n, i); }
  }

  lemma NoNodeWf(p: Program, s: State, x: ExprId)
    requires WfProgram(p) && Wf(p, s) && x < |p| && x !in s.memo && !Yields(p[x]) && !p[x].op.POLILIZE?
    ensures Wf(p, s.(memo := s.memo[x := NoNode]))
  {
    hide ListsOk, NodeOk, EdgeOk, OutOk, Keeps;
    MemoLists(s, s, x, NoNode) by { KeepsSelf(s); }
    assert WfExpr(p, x);
    WfKept(p, s, s.(memo := s.memo[x := NoNode]), x);
  }

  lemma KeepsSelf(s: State)
    ensures Keeps(s, s)
  {
  }

  /** The inputs of a polynomial's evaluations: its constant term, if that has a node, and new nodes. */
  function DrawnNodes(first: NodeId, count: nat): seq<NodeId> {
    seq(count, i requires 0 <= i < count => first + i)
  }

  function SecretInput(r: Lowered): seq<NodeId> {
    if r.NodeAt? then [r.n] else []
  }

  /** The state after a polynomial is lowered. */
  function PolyState(p: Program, s: State, x: ExprId, node: Node): State
    requires x < |p| && p[x].kind.Polynomial? && p[x].kind.constTerm in s.memo
  {
    var inputs := SecretInput(s.memo[p[x].kind.constTerm]) + DrawnNodes(|s.nodes|, p[x].kind.degree);
    NodesAndMemo(s, x, node, p[x].kind.degree, PolyNode(inputs))
  }

  lemma PolyMirrored(p: Program, s: State, x: ExprId, node: Node)
    requires WfProgram(p) && x < |p| && x !in s.memo && p[x].op.POLILIZE? && p[x].kind.Polynomial?
    requires node == Node(p[x].party, Others) && p[x].kind.constTerm in s.memo && Mirrored(p, s, p[x].kind.constTerm)
    requires |s.ins| == |s.nodes| == |s.owner|
    ensures Mirrored(p, PolyState(p, s, x, node), x)
  {
    hide InEdge;
    var c, d := p[x].kind.constTerm, p[x].kind.degree;
    var inputs := SecretInput(s.memo[c]) + DrawnNodes(|s.nodes|, d);
    var t := PolyState(p, s, x, node);
    assert WfExpr(p, x);
    var k := SecretCount(p, c);
    assert |SecretInput(s.memo[c])| == k;
    forall i | k <= i < |inputs| ensures Coefficient(t, p[x].party, x, inputs[i]) {
      assert inputs[i] == |s.nodes| + (i - k);
    }
    assert PolyFor(p, t, x, inputs);
  }

  lemma PolyWf(p: Program, s: State, x: ExprId, node: Node)
    requires WfProgram(p) && Wf(p, s) && x < |p| && x !in s.memo && p[x].op.POLILIZE? && p[x].kind.Polynomial?
    requires node == Node(p[x].party, Others) && p[x].kind.constTerm in s.memo
    ensures Wf(p, PolyState(p, s, x, node))
  {
    hide ListsOk, Keeps, Mirrored;
    var c, d := p[x].kind.constTerm, p[x].kind.degree;
    var inputs := SecretInput(s.memo[c]) + DrawnNodes(|s.nodes|, d);
    var t := PolyState(p, s, x, node);
    ListSizes(s);
    NodesLists(s, x, node, d);
    MemoLists(s, WithNodes(s, x, node, d), x, PolyNode(inputs));
    PolyMirrored(p, s, x, node);
    forall n | |s.owner| <= n < |t.owner| ensures Owned(t, n) {
      assert inputs[|SecretInput(s.memo[c])| + (n - |s.nodes|)] == n;
    }
    WfKept(p, s, t, x);
  }

  lemma OpenedWf(p: Program, s: State, op: Operator, arg: nat)
    requires Wf(p, s)
    ensures Wf(p, Opened(s, op, arg)) && Extends(s, Opened(s, op, arg), {|s.edges|})
    ensures Imported(p, s.memo, [])
    ensures Opened(s, op, arg).edges[|s.edges|] == Edge(op, SourceNodes(p, s.memo, []), Pending, Payload(p, arg, []))
  {
    hide ListsOk, Mirrored, Owned, Keeps, Extends;
    OpenedLists(s, op, arg);
    WfSame(p, s, Opened(s, op, arg));
  }

  /** A change that lowers nothing and makes no node. */
  lemma WfSame(p: Program, s: State, t: State)
    requires Wf(p, s) && ListsOk(t) && Keeps(s, t) && t.memo == s.memo && t.owner == s.owner
    ensures Wf(p, t)
  {
    hide ListsOk, Mirrored, Owned, Keeps;
    ListSizes(t);
    forall y | y in t.memo ensures Mirrored(p, t, y) {
      MirroredKept(p, s, t, y);
    }
    forall n | 0 <= n < |t.owner| ensures Owned(t, n) {
      OwnedKept(s, t, n);
    }
  }

  // ----- Operands

  lemma OperandKind(p: Program, x: ExprId, k: nat)
    requires WfProgram(p) && x < |p| && Simple(p[x].op) && k < |p[x].operands|
    ensures p[x].operands[k] < x && (p[p[x].operands[k]].kind.Constant? || Yields(p[p[x].operands[k]]))
  {
    assert WfExpr(p, x);
  }

  lemma PayloadWf(p: Program, s: State, i: EdgeId, arg: nat)
    requires Wf(p, s) && i < |s.edges| && s.edges[i].target.Pending?
    ensures Wf(p, WithPayload(s, i, arg))
  {
    hide Mirrored, Owned, Keeps, ListsOk;
    PayloadLists(s, i, arg);
    WfSame(p, s, WithPayload(s, i, arg));
  }

  lemma InputWfStep(p: Program, s: State, i: EdgeId, n: NodeId)
    requires Wf(p, s) && i < |s.edges| && s.edges[i].target.Pending? && n < |s.nodes| && n < |s.outs|
    ensures Wf(p, WithInput(s, i, n))
  {
    hide Mirrored, Owned, Keeps, ListsOk;
    InputLists(s, i, n);
    WfSame(p, s, WithInput(s, i, n));
  }

  lemma PayloadExtends(s0: State, s: State, i: EdgeId, arg: nat)
    requires Extends(s0, s, {i}) && |s0.edges| <= i < |s.edges|
    ensures Extends(s0, WithPayload(s, i, arg), {i})
  {
    var t := WithPayload(s, i, arg);
    assert t.edges[..|s0.edges|] == s.edges[..|s0.edges|];
  }

  lemma InputExtendsStep(s0: State, s: State, i: EdgeId, n: NodeId)
    requires Extends(s0, s, {i}) && |s0.edges| <= i < |s.edges| && n < |s.outs|
    ensures Extends(s0, WithInput(s, i, n), {i})
  {
    var t := WithInput(s, i, n);
    assert t.edges[..|s0.edges|] == s.edges[..|s0.edges|];
  }

  lemma TakeConstant(p: Program, memo: map<ExprId, Lowered>, unsaid: nat, operands: seq<ExprId>, k: nat)
    requires k < |operands| && Imported(p, memo, operands[..k]) && operands[k] < |p| && p[operands[k]].kind.Constant?
    ensures Imported(p, memo, operands[..k + 1])
    ensures SourceNodes(p, memo, operands[..k + 1]) == SourceNodes(p, memo, operands[..k])
    ensures Payload(p, unsaid, operands[..k + 1]) == operands[k]
  {
    assert operands[..k + 1][..k] == operands[..k];
    assert forall j :: 0 <= j < k ==> operands[..k + 1][j] == operands[..k][j];
  }

  lemma TakeNode(p: Program, memo: map<ExprId, Lowered>, unsaid: nat, operands: seq<ExprId>, k: nat)
    requires k < |operands| && Imported(p, memo, operands[..k])
    requires operands[k] < |p| && !p[operands[k]].kind.Constant? && operands[k] in memo && memo[operands[k]].NodeAt?
    ensures Imported(p, memo, operands[..k + 1])
    ensures SourceNodes(p, memo, operands[..k + 1]) == SourceNodes(p, memo, operands[..k]) + [memo[operands[k]].n]
    ensures Payload(p, unsaid, operands[..k + 1]) == Payload(p, unsaid, operands[..k])
  {
    assert operands[..k + 1][..k] == operands[..k];
    assert forall j :: 0 <= j < k ==> operands[..k + 1][j] == operands[..k][j];
  }

  /** What an import in the middle of an operation leaves as it was. */
  lemma AfterImport(p: Program, s0: State, s: State, t: State, i: EdgeId, x: ExprId, operand: ExprId, k: nat)
    requires WfProgram(p) && x < |p| && Wf(p, t) && Extends(s0, s, {i}) && Extends(s, t, {})
    requires |s0.edges| == i < |s.edges|
    requires k < |p[x].operands| && operand == p[x].operands[k] < x && Yields(p[operand]) && operand in t.memo
    requires Imported(p, s.memo, p[x].operands[..k])
    requires x !in s.memo && forall y :: y in t.memo && y !in s.memo ==> y <= operand
    ensures Extends(s0, t, {i}) && i < |t.edges| && t.edges[i] == s.edges[i] && x !in t.memo
    ensures t.memo[operand].NodeAt? && t.memo[operand].n < |t.nodes| && t.memo[operand].n < |t.outs|
    ensures Imported(p, t.memo, p[x].operands[..k])
    ensures SourceNodes(p, t.memo, p[x].operands[..k]) == SourceNodes(p, s.memo, p[x].operands[..k])
  {
    hide ListsOk, Owned, WfProgram, NodeFor, PolyFor, Imported, SourceNodes;
    ListSizes(t);
    assert t.edges[i] == t.edges[..|s.edges|][i];
    assert Extends(s, t, {i});
    ExtendsTransitive(s0, s, t, {i});
    assert Mirrored(p, t, operand);
    NodeInRange(p, t, operand);
    SourcesKept(p, s.memo, t.memo, p[x].operands[..k]);
  }

  lemma NodeInRange(p: Program, t: State, x: ExprId)
    requires x in t.memo && Mirrored(p, t, x) && t.memo[x].NodeAt?
    ensures t.memo[x].n < |t.nodes|
  {
  }

  // ----- Extension

  lemma ExtendsSelf(s: State)
    ensures Extends(s, s, {})
  {
  }

  lemma WfSizes(p: Program, s: State)
    requires Wf(p, s)
    ensures |s.ins| == |s.outs| == |s.nodes| == |s.owner|
  {
  }

  lemma NothingAdded(s: State, x: ExprId, node: Node, r: Lowered)
    ensures WithNodes(s, x, node, 0) == s
  {
  }

  lemma OneMore(s: State, x: ExprId, node: Node, i: nat)
    ensures WithNodes(WithNodes(s, x, node, i), x, node, 1) == WithNodes(s, x, node, i + 1)
  {
    var t := WithNodes(WithNodes(s, x, node, i), x, node, 1);
    var u := WithNodes(s, x, node, i + 1);
    assert t.nodes == u.nodes && t.ins == u.ins && t.outs == u.outs && t.owner == u.owner;
  }

  lemma NodesExtend(s: State, x: ExprId, node: Node, count: nat, r: Lowered)
    requires x !in s.memo && !node.genre.Output?
    ensures Extends(s, NodesAndMemo(s, x, node, count, r), {})
  {
  }

  lemma ClosedExtends(s0: State, s: State, i: EdgeId, x: ExprId, node: Node)
    requires Extends(s0, s, {i}) && |s0.edges| <= i < |s.edges| && x !in s.memo && !node.genre.Output?
    ensures Extends(s0, Closed(s, i, x, node), {})
  {
    var t := Closed(s, i, x, node);
    assert t.edges[..|s0.edges|] == s.edges[..|s0.edges|];
    assert t.nodes[..|s0.nodes|] == s.nodes[..|s0.nodes|];
    assert t.ins[..|s0.ins|] == s.ins[..|s0.ins|];
    assert t.owner[..|s0.owner|] == s.owner[..|s0.owner|];
  }

  /** A new node with its in-edge pushed. */
  lemma NodeWithEdge(s: State, i: EdgeId, x: ExprId, node: Node)
    requires |s.ins| == |s.outs| == |s.nodes| == |s.owner|
    ensures var u := WithNodes(s, x, node, 1);
            && u.nodes == s.nodes + [node] && u.outs == s.outs + [[]] && u.owner == s.owner + [x]
            && u.ins[|s.nodes| := u.ins[|s.nodes|] + [i]] == s.ins + [[i]]
  {
    var u := WithNodes(s, x, node, 1);
    assert u.ins == s.ins + [[]];
    assert (s.ins + [[]])[|s.nodes|] + [i] == [i];
  }

  // ----- Evaluations

  lemma PolyLowered(p: Program, s: State, f: ExprId)
    requires Wf(p, s) && f in s.memo && f < |p| && p[f].op.POLILIZE?
    ensures s.memo[f].PolyNode?
  {
    assert Mirrored(p, s, f);
  }

  lemma EvaluatedExtends(s: State, x: ExprId, node: Node, inputs: seq<NodeId>, f: ExprId)
    requires x !in s.memo && !node.genre.Output? && |s.outs| == |s.nodes|
    requires forall k :: 0 <= k < |inputs| ==> inputs[k] < |s.nodes|
    ensures Extends(s, Evaluated(s, x, node, inputs, f), {})
  {
  }

  lemma PushNone(outs: seq<seq<EdgeId>>, i: EdgeId)
    ensures PushAll(outs, [], i) == outs
  {
  }

  lemma PushNext(outs: seq<seq<EdgeId>>, inputs: seq<NodeId>, i: EdgeId, k: nat)
    requires k < |inputs| && forall j :: 0 <= j < |inputs| ==> inputs[j] < |outs|
    ensures PushAll(outs, inputs[..k + 1], i)
         == PushAll(outs, inputs[..k], i)[inputs[k] := PushAll(outs, inputs[..k], i)[inputs[k]] + [i]]
  {
    assert inputs[..k + 1][..k] == inputs[..k];
  }
}
