// Lowering expressions to the protocol graph. Expressions are a program whose operands come
// earlier. The builder's state keeps operations as shared objects in a table, because an
// operation is put in the out-lists of its inputs before its own output node exists; a list
// entry is an index of that table. The predicates say what every reachable state satisfies
// (ListsOk for the adjacency, Mirrored for the lowered expressions, Owned for the nodes), and
// the lemmas that every step of the import keeps them.
module Lowering {
  import opened Graphs

  type ExprId = nat
  type EdgeId = nat

  datatype Kind =
    | Secret
    | Share
    | Polynomial(constTerm: ExprId, degree: nat)
    | Randomness
    | Constant
    | Cast

  /** An expression, its operands by their positions in the program. */
  datatype Expr = Expr(kind: Kind, op: Operator, operands: seq<ExprId>, party: Party)

  type Program = seq<Expr>

  predicate Simple(op: Operator) {
    !op.NONE? && !op.INPUT? && !op.EVAL? && !op.POLILIZE?
  }

  /** The expression is lowered to a node of the graph. */
  predicate Yields(e: Expr) {
    Simple(e.op) || e.op.EVAL? || (e.op.INPUT? && (e.kind.Secret? || e.kind.Share? || e.kind.Randomness?))
  }

  /** Operands come earlier and are of the kind the importer asserts. */
  predicate WfExpr(p: Program, x: ExprId)
    requires x < |p|
  {
    var e := p[x];
    && (forall i :: 0 <= i < |e.operands| ==> e.operands[i] < x)
    && (e.kind.Constant? ==> e.op.INPUT?)
    && (Simple(e.op) ==>
         forall i :: 0 <= i < |e.operands| ==> p[e.operands[i]].kind.Constant? || Yields(p[e.operands[i]]))
    && (e.op.EVAL? ==> e.kind.Share? && |e.operands| == 1 && p[e.operands[0]].op.POLILIZE?)
    && (e.op.POLILIZE? ==> e.kind.Polynomial? && e.kind.constTerm < x)
    && (e.op.POLILIZE? ==> p[e.kind.constTerm].kind.Constant? || Yields(p[e.kind.constTerm]))
  }

  predicate WfProgram(p: Program) {
    forall x :: 0 <= x < |p| ==> WfExpr(p, x)
  }

  // ----- The state of the builder

  datatype Destination = Pending | To(node: NodeId)

  /** An operation object, shared by the lists that hold it; its output is set late. */
  datatype Edge = Edge(op: Operator, inputs: seq<NodeId>, target: Destination, arg: nat)

  /** A polynomial has no node of its own, only the inputs of its evaluations. */
  datatype Lowered = NoNode | NodeAt(n: NodeId) | PolyNode(inputs: seq<NodeId>)

  /** owner[n] is the expression node n was made for. */
  datatype State = State(
    nodes: seq<Node>,
    ins: seq<seq<EdgeId>>,
    outs: seq<seq<EdgeId>>,
    edges: seq<Edge>,
    memo: map<ExprId, Lowered>,
    owner: seq<ExprId>)

  ghost predicate NodeOk(s: State, n: NodeId)
    requires n < |s.ins|
  {
    s.ins[n] == [] || (|s.ins[n]| == 1 && s.ins[n][0] < |s.edges| && s.edges[s.ins[n][0]].target == To(n))
  }

  ghost predicate EdgeOk(s: State, i: EdgeId)
    requires i < |s.edges| && |s.ins| == |s.nodes|
  {
    var e := s.edges[i];
    && (forall k :: 0 <= k < |e.inputs| ==> e.inputs[k] < |s.nodes|)
    && (e.target.To? ==>
         && e.target.node < |s.nodes| && s.ins[e.target.node] == [i]
         && forall k :: 0 <= k < |e.inputs| ==> e.inputs[k] < e.target.node)
  }

  /** Edge i occurs in the out-list of n as often as n among its inputs. */
  ghost predicate OutOk(s: State, n: NodeId, i: EdgeId)
    requires n < |s.outs| && i < |s.edges|
  {
    multiset(s.outs[n])[i] == multiset(s.edges[i].inputs)[n]
  }

  ghost predicate ListsOk(s: State) {
    && |s.ins| == |s.outs| == |s.nodes| == |s.owner|
    && (forall n :: 0 <= n < |s.nodes| ==> NodeOk(s, n))
    && (forall i :: 0 <= i < |s.edges| ==> EdgeOk(s, i))
    && (forall n, k :: 0 <= n < |s.nodes| && 0 <= k < |s.outs[n]| ==> s.outs[n][k] < |s.edges|)
    && (forall n, i :: 0 <= n < |s.nodes| && 0 <= i < |s.edges| ==> OutOk(s, n, i))
  }

  // ----- What the lowered expressions look like

  /** All operands but the constants are lowered to nodes. */
  ghost predicate Imported(p: Program, memo: map<ExprId, Lowered>, operands: seq<ExprId>) {
    forall i :: 0 <= i < |operands| ==>
      operands[i] < |p| && (p[operands[i]].kind.Constant? || (operands[i] in memo && memo[operands[i]].NodeAt?))
  }

  /** The nodes of the operands, constants skipped. */
  ghost function SourceNodes(p: Program, memo: map<ExprId, Lowered>, operands: seq<ExprId>): seq<NodeId>
    requires Imported(p, memo, operands)
  {
    if operands == [] then []
    else
      var k := |operands| - 1;
      SourceNodes(p, memo, operands[..k]) + if p[operands[k]].kind.Constant? then [] else [memo[operands[k]].n]
  }

  /** What an operation is about before its operands are seen: a reconstruction has a sharing of its own. */
  function Unsaid(op: Operator, x: ExprId): nat {
    if op.RECONSTRUCT? then x else 0
  }

  /** The payload: the last constant operand, if there is one. */
  ghost function Payload(p: Program, unsaid: nat, operands: seq<ExprId>): nat
    requires forall i :: 0 <= i < |operands| ==> operands[i] < |p|
  {
    if operands == [] then unsaid
    else
      var k := |operands| - 1;
      if p[operands[k]].kind.Constant? then operands[k] else Payload(p, unsaid, operands[..k])
  }

  /** The in-edge of node n is the operation of expression x. */
  ghost predicate InEdge(p: Program, s: State, x: ExprId, n: NodeId)
    requires n < |s.ins| && x < |p|
  {
    var e := p[x];
    if e.op.INPUT? then s.ins[n] == []
    else
      && |s.ins[n]| == 1 && s.ins[n][0] < |s.edges|
      && var o := s.edges[s.ins[n][0]];
         && o.op == e.op
         && (Simple(e.op) ==>
              && Imported(p, s.memo, e.operands) && o.inputs == SourceNodes(p, s.memo, e.operands)
              && o.arg == Payload(p, Unsaid(e.op, x), e.operands))
         && (e.op.EVAL? ==>
              && |e.operands| == 1 && e.operands[0] in s.memo && s.memo[e.operands[0]].PolyNode?
              && o.inputs == s.memo[e.operands[0]].inputs && o.arg == e.operands[0])
  }

  /** Secrets and shares given from outside are inputs. */
  function GenreOf(e: Expr): Genre {
    if e.op.INPUT? && !e.kind.Randomness? then Input else Others
  }

  ghost predicate NodeFor(p: Program, s: State, x: ExprId, n: NodeId)
    requires x < |p|
  {
    && n < |s.nodes| && |s.ins| == |s.nodes| == |s.owner| && s.owner[n] == x
    && s.nodes[n].party == p[x].party && (s.nodes[n].genre == GenreOf(p[x]) || s.nodes[n].genre.Output?)
    && InEdge(p, s, x, n)
  }

  /** The number of inputs that stand for the constant term: none when that is a constant. */
  function SecretCount(p: Program, c: ExprId): nat
    requires c < |p|
  {
    if Yields(p[c]) then 1 else 0
  }

  /** The inputs are the constant term's node, if it has one, and fresh random nodes of the dealer. */
  ghost predicate PolyFor(p: Program, s: State, x: ExprId, inputs: seq<NodeId>)
    requires x < |p| && p[x].kind.Polynomial? && p[x].kind.constTerm < |p|
  {
    var c := p[x].kind.constTerm;
    var k := SecretCount(p, c);
    && |inputs| == k + p[x].kind.degree && |s.ins| == |s.nodes| == |s.owner|
    && (k == 1 ==> c in s.memo && s.memo[c] == NodeAt(inputs[0]) && inputs[0] < |s.nodes|)
    && (forall i :: k <= i < |inputs| ==> Coefficient(s, p[x].party, x, inputs[i]))
    && (forall i, j :: k <= i < j < |inputs| ==> inputs[i] != inputs[j])
  }

  ghost predicate Coefficient(s: State, dealer: Party, x: ExprId, n: NodeId)
    requires |s.ins| == |s.nodes| == |s.owner|
  {
    n < |s.nodes| && s.ins[n] == [] && s.owner[n] == x && s.nodes[n] == Node(dealer, Others)
  }

  ghost predicate Mirrored(p: Program, s: State, x: ExprId)
    requires x in s.memo
  {
    && x < |p| && WfExpr(p, x)
    && match s.memo[x]
       case NoNode => !Yields(p[x]) && !p[x].op.POLILIZE?
       case NodeAt(n) => Yields(p[x]) && NodeFor(p, s, x, n)
       case PolyNode(inputs) => p[x].op.POLILIZE? && PolyFor(p, s, x, inputs)
  }

  /** Node n was made for an expression that is lowered: it is its node or a coefficient of it. */
  ghost predicate Owned(s: State, n: NodeId)
    requires n < |s.owner|
  {
    && s.owner[n] in s.memo
    && match s.memo[s.owner[n]]
       case NoNode => false
       case NodeAt(m) => m == n
       case PolyNode(inputs) => n in inputs
  }

  ghost predicate Wf(p: Program, s: State) {
    && ListsOk(s)
    && (forall x :: x in s.memo ==> Mirrored(p, s, x))
    && (forall n :: 0 <= n < |s.owner| ==> Owned(s, n))
  }

  /** Nothing that was there has changed, new operations (but one) have an output, new nodes are not outputs. */
  ghost predicate Extends(s: State, t: State, but: set<EdgeId>) {
    && |s.nodes| <= |t.nodes| && t.nodes[..|s.nodes|] == s.nodes
    && |s.ins| <= |t.ins| && t.ins[..|s.ins|] == s.ins
    && |s.owner| <= |t.owner| && t.owner[..|s.owner|] == s.owner
    && |s.edges| <= |t.edges| && t.edges[..|s.edges|] == s.edges
    && (forall x :: x in s.memo ==> x in t.memo && t.memo[x] == s.memo[x])
    && (forall i :: |s.edges| <= i < |t.edges| && i !in but ==> t.edges[i].target.To?)
    && (forall n :: |s.nodes| <= n < |t.nodes| ==> !t.nodes[n].genre.Output?)
  }

  lemma ExtendsTransitive(s: State, t: State, u: State, but: set<EdgeId>)
    requires Extends(s, t, but) && Extends(t, u, but)
    ensures Extends(s, u, but)
  {
    assert u.nodes[..|s.nodes|] == u.nodes[..|t.nodes|][..|s.nodes|];
    assert u.ins[..|s.ins|] == u.ins[..|t.ins|][..|s.ins|];
    assert u.owner[..|s.owner|] == u.owner[..|t.owner|][..|s.owner|];
    assert u.edges[..|s.edges|] == u.edges[..|t.edges|][..|s.edges|];
    forall i | |s.edges| <= i < |u.edges| && i !in but ensures u.edges[i].target.To? {
      if i < |t.edges| { assert u.edges[i] == u.edges[..|t.edges|][i] == t.edges[i]; }
    }
    forall n | |s.nodes| <= n < |u.nodes| ensures !u.nodes[n].genre.Output? {
      if n < |t.nodes| { assert u.nodes[n] == u.nodes[..|t.nodes|][n] == t.nodes[n]; }
    }
  }

  // ----- Growth keeps what is lowered

  /** Nodes, in-lists, lowered expressions and finished operations stay as they are. */
  ghost predicate Keeps(s: State, t: State) {
    && |s.nodes| <= |t.nodes| && t.nodes[..|s.nodes|] == s.nodes
    && |s.ins| <= |t.ins| && t.ins[..|s.ins|] == s.ins
    && |s.owner| <= |t.owner| && t.owner[..|s.owner|] == s.owner
    && (forall x :: x in s.memo ==> x in t.memo && t.memo[x] == s.memo[x])
    && (forall i :: 0 <= i < |s.edges| && s.edges[i].target.To? ==> i < |t.edges| && t.edges[i] == s.edges[i])
  }

  lemma {:induction false} SourcesKept(p: Program, m: map<ExprId, Lowered>, m': map<ExprId, Lowered>,
                                       operands: seq<ExprId>)
    requires Imported(p, m, operands) && forall x :: x in m ==> x in m' && m'[x] == m[x]
    ensures Imported(p, m', operands) && SourceNodes(p, m', operands) == SourceNodes(p, m, operands)
  {
    if operands != [] { SourcesKept(p, m, m', operands[..|operands| - 1]); }
  }

  lemma NodeKept(s: State, t: State, n: NodeId)
    requires Keeps(s, t) && |s.ins| == |s.nodes| == |s.owner| && n < |s.nodes|
    ensures n < |t.ins| && n < |t.nodes| && n < |t.owner|
    ensures t.ins[n] == s.ins[n] && t.nodes[n] == s.nodes[n] && t.owner[n] == s.owner[n]
  {
    assert t.ins[n] == t.ins[..|s.ins|][n];
    assert t.owner[n] == t.owner[..|s.owner|][n];
    assert t.nodes[n] == t.nodes[..|s.nodes|][n];
  }

  lemma MirroredKept(p: Program, s: State, t: State, x: ExprId)
    requires ListsOk(s) && |t.ins| == |t.nodes| == |t.owner| && Keeps(s, t) && x in s.memo && Mirrored(p, s, x)
    ensures Mirrored(p, t, x)
  {
    hide EdgeOk, OutOk;
    match s.memo[x] {
      case NoNode =>
      case NodeAt(n) =>
        NodeKept(s, t, n);
        assert NodeOk(s, n);
        if Simple(p[x].op) { SourcesKept(p, s.memo, t.memo, p[x].operands); }
      case PolyNode(inputs) =>
        var k := SecretCount(p, p[x].kind.constTerm);
        forall i | k <= i < |inputs| ensures Coefficient(t, p[x].party, x, inputs[i]) {
          assert Coefficient(s, p[x].party, x, inputs[i]);
          NodeKept(s, t, inputs[i]);
        }
    }
  }

  lemma OwnedKept(s: State, t: State, n: NodeId)
    requires Keeps(s, t) && n < |s.owner| && Owned(s, n)
    ensures Owned(t, n)
  {
    assert t.owner[n] == t.owner[..|s.owner|][n];
  }

  /** A well-formed state that grows by at most one lowered expression and its nodes stays well-formed. */
  lemma WfKept(p: Program, s: State, t: State, x: ExprId)
    requires Wf(p, s) && ListsOk(t) && Keeps(s, t) && t.memo.Keys <= s.memo.Keys + {x}
    requires x in t.memo ==> Mirrored(p, t, x)
    requires forall n :: |s.owner| <= n < |t.owner| ==> Owned(t, n)
    ensures Wf(p, t)
  {
    hide ListsOk, Mirrored, Owned, Keeps;
    ListSizes(t);
    forall y | y in t.memo ensures Mirrored(p, t, y) {
      if y in s.memo { MirroredKept(p, s, t, y); }
    }
    forall n | 0 <= n < |t.owner| ensures Owned(t, n) {
      if n < |s.owner| { OwnedKept(s, t, n); }
    }
  }

  lemma ListSizes(s: State)
    requires ListsOk(s)
    ensures |s.ins| == |s.outs| == |s.nodes| == |s.owner|
  {
  }

  // ----- The steps of the import

  function Opened(s: State, op: Operator, arg: nat): State {
    s.(edges := s.edges + [Edge(op, [], Pending, arg)])
  }

  lemma OpenedLists(s: State, op: Operator, arg: nat)
    requires ListsOk(s)
    ensures ListsOk(Opened(s, op, arg)) && Keeps(s, Opened(s, op, arg)) && Extends(s, Opened(s, op, arg), {|s.edges|})
  {
    var t, i := Opened(s, op, arg), |s.edges|;
    forall n | 0 <= n < |s.nodes| ensures OutOk(t, n, i) {
      assert i !in s.outs[n];
    }
    forall n, j | 0 <= n < |s.nodes| && 0 <= j < i ensures OutOk(t, n, j) {
      assert OutOk(s, n, j);
    }
    forall j | 0 <= j < i ensures EdgeOk(t, j) {
      assert EdgeOk(s, j);
    }
    forall n | 0 <= n < |s.nodes| ensures NodeOk(t, n) {
      assert NodeOk(s, n);
    }
  }

  function WithPayload(s: State, i: EdgeId, arg: nat): State
    requires i < |s.edges|
  {
    s.(edges := s.edges[i := s.edges[i].(arg := arg)])
  }

  lemma PayloadLists(s: State, i: EdgeId, arg: nat)
    requires ListsOk(s) && i < |s.edges| && s.edges[i].target.Pending?
    ensures ListsOk(WithPayload(s, i, arg)) && Keeps(s, WithPayload(s, i, arg))
  {
    var t := WithPayload(s, i, arg);
    forall n, j | 0 <= n < |s.nodes| && 0 <= j < |s.edges| ensures OutOk(t, n, j) {
      assert OutOk(s, n, j);
    }
    forall j | 0 <= j < |s.edges| ensures EdgeOk(t, j) {
      assert EdgeOk(s, j);
    }
    forall n | 0 <= n < |s.nodes| ensures NodeOk(t, n) {
      assert NodeOk(s, n);
    }
  }

  function WithInput(s: State, i: EdgeId, n: NodeId): State
    requires i < |s.edges| && n < |s.outs|
  {
    s.(edges := s.edges[i := s.edges[i].(inputs := s.edges[i].inputs + [n])], outs := s.outs[n := s.outs[n] + [i]])
  }

  lemma InputOuts(s: State, i: EdgeId, n: NodeId)
    requires ListsOk(s) && i < |s.edges| && n < |s.nodes|
    ensures var t := WithInput(s, i, n); forall m, j :: 0 <= m < |s.nodes| && 0 <= j < |s.edges| ==> OutOk(t, m, j)
  {
    hide NodeOk, EdgeOk;
    var t := WithInput(s, i, n);
    forall m, j | 0 <= m < |s.nodes| && 0 <= j < |s.edges| ensures OutOk(t, m, j) {
      assert OutOk(s, m, j);
      assert multiset(s.outs[n] + [i]) == multiset(s.outs[n]) + multiset{i};
      assert multiset(s.edges[i].inputs + [n]) == multiset(s.edges[i].inputs) + multiset{n};
    }
  }

  lemma InputLists(s: State, i: EdgeId, n: NodeId)
    requires ListsOk(s) && i < |s.edges| && s.edges[i].target.Pending? && n < |s.nodes|
    ensures ListsOk(WithInput(s, i, n)) && Keeps(s, WithInput(s, i, n))
  {
    hide OutOk;
    var t := WithInput(s, i, n);
    InputOuts(s, i, n);
    forall j | 0 <= j < |s.edges| ensures EdgeOk(t, j) {
      assert EdgeOk(s, j);
    }
    forall m | 0 <= m < |s.nodes| ensures NodeOk(t, m) {
      assert NodeOk(s, m);
    }
  }

  /** A finished operation: edge i gets its output, the new node of expression x. */
  function Closed(s: State, i: EdgeId, x: ExprId, node: Node): State
    requires i < |s.edges|
  {
    var n := |s.nodes|;
    s.(nodes := s.nodes + [node], ins := s.ins + [[i]], outs := s.outs + [[]], owner := s.owner + [x],
       edges := s.edges[i := s.edges[i].(target := To(n))], memo := s.memo[x := NodeAt(n)])
  }

  lemma ClosedLists(s: State, i: EdgeId, x: ExprId, node: Node)
    requires ListsOk(s) && i < |s.edges| && s.edges[i].target.Pending? && x !in s.memo
    ensures ListsOk(Closed(s, i, x, node)) && Keeps(s, Closed(s, i, x, node))
  {
    var t, n := Closed(s, i, x, node), |s.nodes|;
    forall m, j | 0 <= m <= n && 0 <= j < |s.edges| ensures OutOk(t, m, j) {
      if m < n {
        assert OutOk(s, m, j);
      } else {
        assert EdgeOk(s, j) && n !in s.edges[j].inputs;
      }
    }
    forall j | 0 <= j < |s.edges| ensures EdgeOk(t, j) {
      assert EdgeOk(s, j);
    }
    forall m | 0 <= m <= n ensures NodeOk(t, m) {
      if m < n { assert NodeOk(s, m); }
    }
  }

  /** New nodes without edges: an input, or the coefficients of a polynomial. */
  function WithNodes(s: State, x: ExprId, node: Node, count: nat): State {
    s.(nodes := s.nodes + seq(count, _ => node), ins := s.ins + seq(count, _ => []),
       outs := s.outs + seq(count, _ => []), owner := s.owner + seq(count, _ => x))
  }

  lemma NodesLists(s: State, x: ExprId, node: Node, count: nat)
    requires ListsOk(s)
    ensures ListsOk(WithNodes(s, x, node, count)) && Keeps(s, WithNodes(s, x, node, count))
  {
    var t, k := WithNodes(s, x, node, count), |s.nodes|;
    forall m, j | 0 <= m < k + count && 0 <= j < |s.edges| ensures OutOk(t, m, j) {
      if m < k {
        assert OutOk(s, m, j);
      } else {
        assert EdgeOk(s, j) && m !in s.edges[j].inputs && t.outs[m] == [];
      }
    }
    forall j | 0 <= j < |s.edges| ensures EdgeOk(t, j) {
      assert EdgeOk(s, j);
    }
    forall m | 0 <= m < k + count ensures NodeOk(t, m) {
      if m < k { assert NodeOk(s, m); }
    }
  }

  /** Edge i pushed onto the out-list of every input in turn. */
  function PushAll(outs: seq<seq<EdgeId>>, inputs: seq<NodeId>, i: EdgeId): (r: seq<seq<EdgeId>>)
    requires forall k :: 0 <= k < |inputs| ==> inputs[k] < |outs|
    ensures |r| == |outs|
  {
    if inputs == [] then outs
    else
      var k := |inputs| - 1;
      var front := PushAll(outs, inputs[..k], i);
      front[inputs[k] := front[inputs[k]] + [i]]
  }

  lemma {:induction false} PushAllCount(outs: seq<seq<EdgeId>>, inputs: seq<NodeId>, i: EdgeId, n: NodeId, j: EdgeId)
    requires n < |outs| && forall k :: 0 <= k < |inputs| ==> inputs[k] < |outs|
    ensures multiset(PushAll(outs, inputs, i)[n])[j]
         == multiset(outs[n])[j] + if i == j then multiset(inputs)[n] else 0
  {
    if inputs != [] {
      var k := |inputs| - 1;
      PushAllCount(outs, inputs[..k], i, n, j);
      assert inputs == inputs[..k] + [inputs[k]];
      var front := PushAll(outs, inputs[..k], i);
      assert multiset(front[inputs[k]] + [i]) == multiset(front[inputs[k]]) + multiset{i};
    }
  }

  lemma {:induction false} PushAllElements(outs: seq<seq<EdgeId>>, inputs: seq<NodeId>, i: EdgeId, n: NodeId, k: nat)
    requires n < |outs| && forall k :: 0 <= k < |inputs| ==> inputs[k] < |outs|
    requires k < |PushAll(outs, inputs, i)[n]|
    ensures PushAll(outs, inputs, i)[n][k] == i || PushAll(outs, inputs, i)[n][k] in outs[n]
  {
    if inputs != [] {
      var l := |inputs| - 1;
      var front := PushAll(outs, inputs[..l], i);
      if k < |front[n]| { PushAllElements(outs, inputs[..l], i, n, k); }
    }
  }

  /** The evaluation of a polynomial: a copy of its operation, with a node and list entries of its own. */
  function Evaluated(s: State, x: ExprId, node: Node, inputs: seq<NodeId>, poly: ExprId): State
    requires |s.outs| == |s.nodes| && forall k :: 0 <= k < |inputs| ==> inputs[k] < |s.nodes|
  {
    var n, i := |s.nodes|, |s.edges|;
    s.(nodes := s.nodes + [node], ins := s.ins + [[i]], outs := PushAll(s.outs + [[]], inputs, i),
       owner := s.owner + [x],
       edges := s.edges + [Edge(EVAL, inputs, To(n), poly)], memo := s.memo[x := NodeAt(n)])
  }

  lemma EvaluatedOuts(s: State, x: ExprId, node: Node, inputs: seq<NodeId>, poly: ExprId)
    requires ListsOk(s) && forall k :: 0 <= k < |inputs| ==> inputs[k] < |s.nodes|
    ensures var t := Evaluated(s, x, node, inputs, poly);
            forall m, j :: 0 <= m < |t.nodes| && 0 <= j < |t.edges| ==> OutOk(t, m, j)
  {
    hide NodeOk;
    var t, n, i := Evaluated(s, x, node, inputs, poly), |s.nodes|, |s.edges|;
    forall m, j | 0 <= m <= n && 0 <= j <= i ensures OutOk(t, m, j) {
      PushAllCount(s.outs + [[]], inputs, i, m, j);
      if m < n {
        if j < i { assert OutOk(s, m, j); } else { assert i !in s.outs[m]; }
      } else {
        assert n !in inputs;
        if j < i { assert EdgeOk(s, j) && n !in s.edges[j].inputs; }
      }
    }
  }

  lemma EvaluatedLists(s: State, x: ExprId, node: Node, inputs: seq<NodeId>, poly: ExprId)
    requires ListsOk(s) && x !in s.memo && forall k :: 0 <= k < |inputs| ==> inputs[k] < |s.nodes|
    ensures ListsOk(Evaluated(s, x, node, inputs, poly)) && Keeps(s, Evaluated(s, x, node, inputs, poly))
  {
    hide OutOk;
    var t, n, i := Evaluated(s, x, node, inputs, poly), |s.nodes|, |s.edges|;
    EvaluatedOuts(s, x, node, inputs, poly);
    forall j | 0 <= j <= i ensures EdgeOk(t, j) {
      if j < i { assert EdgeOk(s, j); }
    }
    forall m | 0 <= m <= n ensures NodeOk(t, m) {
      if m < n { assert NodeOk(s, m); }
    }
    forall m, k | 0 <= m <= n && 0 <= k < |t.outs[m]| ensures t.outs[m][k] < |t.edges| {
      PushAllElements(s.outs + [[]], inputs, i, m, k);
    }
  }
}
