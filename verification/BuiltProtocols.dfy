// From the builder to the prover: with the sharings read off its polynomials and
// reconstructions, the graph built for a well-typed program meets the standing conditions.
module BuiltProtocols {
  import opened Arith
  import opened Graphs
  import opened Counters
  import opened Semantics
  import opened Patterns
  import opened SharingMeaning
  import opened Lowering
  import opened BuiltGraphs
  import opened Provers
  import opened Tails
  import opened Potentials
  import opened Runs
  import Polynomials

  // ----- Programs

  /** Expression x is the secret of sharing a: a polynomial's constant term, or what is reconstructed. */
  predicate SecretOf(p: Program, a: ExprId, x: ExprId) {
    && a < |p|
    && ((p[a].op.POLILIZE? && p[a].kind.Polynomial? && x == p[a].kind.constTerm) || (p[a].op.RECONSTRUCT? && x == a))
  }

  /** Expression x is the value of sharing a at a point: an evaluation, or an operand of the reconstruction. */
  predicate TakenAt(p: Program, a: ExprId, x: ExprId) {
    && a < |p| && x < |p|
    && ((p[a].op.POLILIZE? && p[x].op.EVAL? && p[x].operands == [a]) || (p[a].op.RECONSTRUCT? && x in p[a].operands))
  }

  predicate Talks(p: Program, a: ExprId, x: ExprId) {
    SecretOf(p, a, x) || TakenAt(p, a, x)
  }

  /** The number of operands that are no constants. */
  function Arity(p: Program, operands: seq<ExprId>): nat {
    if operands == [] then 0
    else
      var k := |operands| - 1;
      Arity(p, operands[..k]) + if operands[k] < |p| && p[operands[k]].kind.Constant? then 0 else 1
  }

  predicate IsNode(p: Program, x: ExprId) {
    x < |p| && !p[x].kind.Constant?
  }

  /** A field with N parties, of whom T may be corrupted, and the point of an expression in a sharing. */
  datatype Setting = Setting(q: int, T: nat, parties: set<Party>, point: (ExprId, ExprId) -> int)

  predicate ExprTyped(p: Program, w: Setting, x: ExprId)
    requires x < |p|
  {
    var e := p[x];
    && (!e.kind.Constant? ==> e.party in w.parties)
    && (e.op.TRANSIT? || e.op.SCALARMUL? ==> Arity(p, e.operands) == 1)
    && (e.op.ADD? || e.op.SUB? || e.op.MUL? ==> Arity(p, e.operands) == 2)
    && (e.op.POLILIZE? ==> e.kind.Polynomial? && e.kind.degree == w.T && IsNode(p, e.kind.constTerm))
    && (e.op.RECONSTRUCT? ==>
         && |e.operands| == |w.parties| && NoDup(e.operands)
         && (forall i :: 0 <= i < |e.operands| ==> IsNode(p, e.operands[i]))
         && (forall i, j :: 0 <= i < |e.operands| && 0 <= j < |e.operands| ==>
              p[e.operands[i]].party == p[e.operands[j]].party))
  }

  /** The values of one sharing are taken at different nonzero points. */
  ghost predicate PointsApart(p: Program, w: Setting) {
    && (forall a, x :: TakenAt(p, a, x) ==> 0 < w.point(a, x) < w.q)
    && (forall a, x, y :: TakenAt(p, a, x) && TakenAt(p, a, y) && x != y ==> w.point(a, x) != w.point(a, y))
  }

  /** A reconstruction has at most one expression in common with any other sharing. */
  ghost predicate ReconstructionsApart(p: Program) {
    forall a, b, x, y ::
      Reconstructs(p, a) && a != b && x != y && Talks(p, a, x) && Talks(p, a, y) && Talks(p, b, x) ==>
      !Talks(p, b, y)
  }

  predicate Reconstructs(p: Program, a: ExprId) {
    a < |p| && p[a].op.RECONSTRUCT?
  }

  ghost predicate WellTyped(p: Program, w: Setting) {
    && Prime(w.q) && w.T >= 1 && |w.parties| >= 2 * w.T + 1 && WfProgram(p)
    && (forall x :: 0 <= x < |p| ==> ExprTyped(p, w, x))
    && PointsApart(p, w) && ReconstructionsApart(p)
  }

  lemma TalksYields(p: Program, w: Setting, a: ExprId, x: ExprId)
    requires WellTyped(p, w) && Talks(p, a, x)
    ensures x < |p| && Yields(p[x]) && !p[x].op.POLILIZE?
  {
    hide PointsApart, ReconstructionsApart, Prime;
    assert WfExpr(p, a) && ExprTyped(p, w, a);
    if x < |p| { assert WfExpr(p, x); }
  }

  /** Two sharings have at most one expression in common. */
  lemma SharingsApart(p: Program, w: Setting, a: ExprId, b: ExprId, x: ExprId, y: ExprId)
    requires WellTyped(p, w) && a != b && x != y && Talks(p, a, x) && Talks(p, a, y) && Talks(p, b, x)
    ensures !Talks(p, b, y)
  {
    hide PointsApart, Prime;
    if Talks(p, b, y) && !p[a].op.RECONSTRUCT? && !p[b].op.RECONSTRUCT? {
      Positions(p, a, x);
      Positions(p, a, y);
      Positions(p, b, x);
      Positions(p, b, y);
    }
  }

  /** The secret of a polynomial comes before it, its evaluations come after. */
  lemma Positions(p: Program, a: ExprId, x: ExprId)
    requires WfProgram(p) && Talks(p, a, x) && !p[a].op.RECONSTRUCT?
    ensures TakenAt(p, a, x) ==> a < x && p[x].op.EVAL? && p[x].operands == [a]
    ensures !TakenAt(p, a, x) ==> x < a && x == p[a].kind.constTerm
  {
    assert WfExpr(p, a);
    if x < |p| { assert WfExpr(p, x); }
    if TakenAt(p, a, x) { assert p[x].operands[0] == a; }
  }

  // ----- Sharings of the built graph

  /** Node n was drawn as a coefficient of polynomial a. */
  predicate Drawn(p: Program, s: State, a: ExprId, n: NodeId) {
    n < |s.owner| && s.owner[n] == a < |p| && p[a].op.POLILIZE?
  }

  predicate Member(p: Program, s: State, a: ExprId, n: NodeId) {
    n < |s.owner| && (Drawn(p, s, a, n) || Talks(p, a, s.owner[n]))
  }

  function Members(p: Program, s: State, a: ExprId): set<NodeId> {
    set n | 0 <= n < |s.owner| && Member(p, s, a, n)
  }

  function IndexIn(ns: seq<NodeId>, n: NodeId): (i: nat)
    ensures n in ns ==> i < |ns| && ns[i] == n
  {
    if ns == [] || ns[0] == n then 0 else 1 + IndexIn(ns[1..], n)
  }

  function RoleOf(p: Program, s: State, w: Setting, a: ExprId, n: NodeId): Polynomials.Role {
    if Drawn(p, s, a, n) then
      Polynomials.Coef(if a in s.memo && s.memo[a].PolyNode? then IndexIn(s.memo[a].inputs, n) else 0)
    else if n < |s.owner| && !SecretOf(p, a, s.owner[n]) then Polynomials.At(w.point(a, s.owner[n]))
    else Polynomials.Coef(0)
  }

  /** The sharings of the program, whatever constants and other operators mean. */
  function EnvOf(p: Program, s: State, w: Setting, scalar: nat -> int, other: (Operator, nat, seq<int>) -> int): Env {
    Env(w.q, w.T,
        map a | a in s.memo && a < |p| && (p[a].op.POLILIZE? || p[a].op.RECONSTRUCT?) ::
          map n | n in Members(p, s, a) :: RoleOf(p, s, w, a, n),
        scalar, other)
  }

  // ----- Nodes and their owners

  /** Every node was made for an expression, or drawn as a coefficient. */
  lemma OwnerKinds(p: Program, s: State, w: Setting, n: NodeId)
    requires WellTyped(p, w) && Wf(p, s) && n < |s.owner|
    ensures |s.ins| == |s.nodes| == |s.owner| && s.owner[n] < |p| && s.owner[n] in s.memo
    ensures s.nodes[n].party in w.parties
    ensures p[s.owner[n]].op.POLILIZE? ==> DrawnAt(p, s, n)
    ensures !p[s.owner[n]].op.POLILIZE? ==> s.memo[s.owner[n]] == NodeAt(n) && InEdge(p, s, s.owner[n], n)
  {
    hide ListsOk, InEdge, PointsApart, ReconstructionsApart, Prime;
    ListSizes(s);
    var x := s.owner[n];
    assert Owned(s, n) && Mirrored(p, s, x) && ExprTyped(p, w, x);
    if s.memo[x].PolyNode? {
      DrawnInput(p, s, w, n);
    }
  }

  predicate DrawnAt(p: Program, s: State, n: NodeId) {
    && n < |s.owner| == |s.ins| && s.owner[n] in s.memo && s.memo[s.owner[n]].PolyNode?
    && s.ins[n] == [] && n in s.memo[s.owner[n]].inputs
    && IndexIn(s.memo[s.owner[n]].inputs, n) >= 1
  }

  lemma DrawnInput(p: Program, s: State, w: Setting, n: NodeId)
    requires WellTyped(p, w) && Wf(p, s) && n < |s.owner| && |s.ins| == |s.nodes| == |s.owner|
    requires s.owner[n] in s.memo && s.memo[s.owner[n]].PolyNode? && n in s.memo[s.owner[n]].inputs
    ensures DrawnAt(p, s, n) && s.owner[n] < |p| && p[s.owner[n]].op.POLILIZE?
    ensures s.nodes[n].party == p[s.owner[n]].party
  {
    hide ListsOk, PointsApart, ReconstructionsApart, Prime;
    var x := s.owner[n];
    PolyShape(p, s, w, x);
    var i := IndexIn(s.memo[x].inputs, n);
    assert s.memo[x].inputs[i] == n;
    if i == 0 { assert false; }
  }

  /** The inputs of a polynomial: the node of its secret and T drawn coefficients, all different. */
  lemma PolyShape(p: Program, s: State, w: Setting, f: ExprId)
    requires WellTyped(p, w) && Wf(p, s) && f in s.memo && s.memo[f].PolyNode? && |s.ins| == |s.nodes| == |s.owner|
    ensures f < |p| && p[f].op.POLILIZE? && |s.memo[f].inputs| == w.T + 1 && NoDup(s.memo[f].inputs)
    ensures var ns := s.memo[f].inputs;
            && ns[0] < |s.nodes| && s.owner[ns[0]] != f && SecretOf(p, f, s.owner[ns[0]])
            && forall i :: 1 <= i < |ns| ==> Coefficient(s, p[f].party, f, ns[i])
  {
    hide ListsOk, InEdge, PointsApart, ReconstructionsApart, Prime;
    assert Mirrored(p, s, f) && ExprTyped(p, w, f) && WfExpr(p, f);
    var c := p[f].kind.constTerm;
    assert WfExpr(p, c);
    assert Mirrored(p, s, c);
  }

  lemma SameOwner(p: Program, s: State, w: Setting, m: NodeId, n: NodeId)
    requires WellTyped(p, w) && Wf(p, s) && m < |s.owner| && n < |s.owner| && s.owner[m] == s.owner[n]
    requires s.owner[m] < |p| && !p[s.owner[m]].op.POLILIZE?
    ensures m == n
  {
    hide WellTyped, Wf, InEdge;
    OwnerKinds(p, s, w, m);
    OwnerKinds(p, s, w, n);
  }

  /** A node of a sharing was drawn for it, or belongs to an expression that talks about it. */
  lemma MemberKinds(p: Program, s: State, w: Setting, a: ExprId, n: NodeId)
    requires WellTyped(p, w) && Wf(p, s) && Member(p, s, a, n)
    ensures Drawn(p, s, a, n) ==> DrawnAt(p, s, n) && !Talks(p, a, s.owner[n])
    ensures !Drawn(p, s, a, n) ==> Talks(p, a, s.owner[n]) && s.owner[n] < |p| && !p[s.owner[n]].op.POLILIZE?
  {
    hide WellTyped, Wf, InEdge, DrawnAt;
    OwnerKinds(p, s, w, n);
    if Talks(p, a, s.owner[n]) { TalksYields(p, w, a, s.owner[n]); }
  }

  // ----- The environment is well formed

  lemma RolesInjective(p: Program, s: State, w: Setting, a: ExprId, m: NodeId, n: NodeId)
    requires WellTyped(p, w) && Wf(p, s) && Member(p, s, a, m) && Member(p, s, a, n) && m != n
    ensures RoleOf(p, s, w, a, m) != RoleOf(p, s, w, a, n)
  {
    hide Wf, Prime, ReconstructionsApart, WfProgram, ExprTyped;
    MemberKinds(p, s, w, a, m);
    MemberKinds(p, s, w, a, n);
    if !Drawn(p, s, a, m) && !Drawn(p, s, a, n) && s.owner[m] == s.owner[n] {
      SameOwner(p, s, w, m, n);
    }
  }

  lemma RoleLegal(p: Program, s: State, w: Setting, a: ExprId, n: NodeId)
    requires WellTyped(p, w) && Wf(p, s) && Member(p, s, a, n)
    ensures match RoleOf(p, s, w, a, n) case Coef(k) => k <= w.T case At(x) => 0 < x < w.q
  {
    hide Wf, Prime, ReconstructionsApart, WfProgram, ExprTyped;
    MemberKinds(p, s, w, a, n);
    if Drawn(p, s, a, n) {
      OwnerKinds(p, s, w, n);
      PolyShape(p, s, w, a);
    }
  }

  lemma MembersApart(p: Program, s: State, w: Setting, a: ExprId, b: ExprId, m: NodeId, n: NodeId)
    requires WellTyped(p, w) && Wf(p, s) && a != b && m != n
    requires Member(p, s, a, m) && Member(p, s, a, n) && Member(p, s, b, m)
    ensures !Member(p, s, b, n)
  {
    hide Wf, WellTyped, Talks, DrawnAt;
    if Member(p, s, b, n) {
      CommonTalks(p, s, w, a, b, m);
      CommonTalks(p, s, w, a, b, n);
      if s.owner[m] == s.owner[n] {
        SameOwner(p, s, w, m, n);
      } else {
        SharingsApart(p, w, a, b, s.owner[m], s.owner[n]);
      }
    }
  }

  /** A node of two sharings was drawn for neither. */
  lemma CommonTalks(p: Program, s: State, w: Setting, a: ExprId, b: ExprId, n: NodeId)
    requires WellTyped(p, w) && Wf(p, s) && a != b && Member(p, s, a, n) && Member(p, s, b, n)
    ensures Talks(p, a, s.owner[n]) && Talks(p, b, s.owner[n]) && s.owner[n] < |p| && !p[s.owner[n]].op.POLILIZE?
  {
    hide Wf, WellTyped, Talks, DrawnAt;
    MemberKinds(p, s, w, a, n);
    MemberKinds(p, s, w, b, n);
  }

  lemma EnvOk(p: Program, s: State, w: Setting, scalar: nat -> int, other: (Operator, nat, seq<int>) -> int)
    requires WellTyped(p, w) && Wf(p, s)
    ensures WfEnv(EnvOf(p, s, w, scalar, other))
  {
    var env := EnvOf(p, s, w, scalar, other);
    assert Prime(env.p) && env.T >= 1;
    hide Wf, WellTyped, RoleOf, Member, Prime;
    forall a | a in env.roles ensures Injective(env.roles[a]) {
      forall m, n | m in env.roles[a] && n in env.roles[a] && m != n ensures env.roles[a][m] != env.roles[a][n] {
        RolesInjective(p, s, w, a, m, n);
      }
    }
    forall a, n | a in env.roles && n in env.roles[a] ensures LegalRole(env, env.roles[a][n]) {
      RoleLegal(p, s, w, a, n);
    }
    forall a, b, m, n | a in env.roles && b in env.roles && a != b && m != n
      && m in env.roles[a] && n in env.roles[a] && m in env.roles[b]
      ensures n !in env.roles[b]
    {
      MembersApart(p, s, w, a, b, m, n);
    }
  }

  // ----- The edges are well formed

  lemma {:induction false} ArityCounts(p: Program, memo: map<ExprId, Lowered>, operands: seq<ExprId>)
    requires Imported(p, memo, operands)
    ensures |SourceNodes(p, memo, operands)| == Arity(p, operands)
  {
    if operands != [] { ArityCounts(p, memo, operands[..|operands| - 1]); }
  }

  lemma {:induction false} NodeSources(p: Program, memo: map<ExprId, Lowered>, unsaid: nat, operands: seq<ExprId>)
    requires Imported(p, memo, operands) && forall i :: 0 <= i < |operands| ==> IsNode(p, operands[i])
    ensures |SourceNodes(p, memo, operands)| == |operands| && Payload(p, unsaid, operands) == unsaid
    ensures forall i :: 0 <= i < |operands| ==>
      operands[i] in memo && memo[operands[i]] == NodeAt(SourceNodes(p, memo, operands)[i])
  {
    if operands != [] {
      var front := operands[..|operands| - 1];
      assert forall i :: 0 <= i < |front| ==> front[i] == operands[i];
      NodeSources(p, memo, unsaid, front);
    }
  }

  /** The graph of a finished state. */
  ghost predicate GraphFrom(p: Program, s: State, w: Setting, g: Graph) {
    && WellTyped(p, w) && Wf(p, s) && Complete(s) && Shape(g) && GraphOf(s) == GraphBase(g.ins, g.outs, g.nodes)
    && g.partyCnt == |w.parties| && g.T == w.T
  }

  /** Where an edge comes from: the operation object of the expression its output was made for. */
  lemma EdgeFrom(p: Program, s: State, w: Setting, g: Graph, e: Operation) returns (x: ExprId)
    requires GraphFrom(p, s, w, g) && Has(g, e)
    ensures |s.ins| == |s.nodes| == |s.owner| && e.output < |s.owner| && x == s.owner[e.output] < |p|
    ensures !p[x].op.POLILIZE?
    ensures InEdge(p, s, x, e.output) && |s.ins[e.output]| == 1 && s.ins[e.output][0] < |s.edges|
    ensures e.op == p[x].op && (Simple(e.op) || e.op.EVAL?)
    ensures e.inputs == s.edges[s.ins[e.output][0]].inputs && e.arg == s.edges[s.ins[e.output][0]].arg
    ensures forall k :: 0 <= k < |e.inputs| ==> e.inputs[k] < e.output
  {
    hide WellTyped, OutOk, Mirrored, Owned, DrawnAt;
    x := s.owner[e.output];
    OwnerKinds(p, s, w, e.output);
    BuiltGraph(p, s, g);
    assert g.ins[e.output] == BuiltGraphs.OperationsOf(s.edges, s.ins[e.output]);
    assert NodeOk(s, e.output);
    if p[x].op.POLILIZE? {
      assert DrawnAt(p, s, e.output) by { OwnerKinds(p, s, w, e.output); }
      NotDrawn(p, s, g, e);
    }
    NodeOperator(p, s, x, e.output);
  }

  lemma NotDrawn(p: Program, s: State, g: Graph, e: Operation)
    requires Shape(g) && Has(g, e) && GraphOf(s) == GraphBase(g.ins, g.outs, g.nodes) && |s.ins| == |s.nodes|
    ensures !DrawnAt(p, s, e.output)
  {
    assert g.ins[e.output] == BuiltGraphs.OperationsOf(s.edges, s.ins[e.output]);
  }

  lemma NodeOperator(p: Program, s: State, x: ExprId, n: NodeId)
    requires Wf(p, s) && n < |s.owner| && s.owner[n] == x < |p| && !p[x].op.POLILIZE?
    ensures Simple(p[x].op) || p[x].op.EVAL? || p[x].op.INPUT?
  {
    assert Owned(s, n) && Mirrored(p, s, x);
  }

  /** The nodes and values an edge of the polynomial or of the reconstruction talks about are of one sharing. */
  lemma InSharingOf(p: Program, s: State, w: Setting, env: Env, a: ExprId, ns: set<NodeId>, scalar: nat -> int,
                    other: (Operator, nat, seq<int>) -> int)
    requires env == EnvOf(p, s, w, scalar, other) && a in s.memo && a < |p|
    requires (p[a].op.POLILIZE? || p[a].op.RECONSTRUCT?)
    requires forall n :: n in ns ==> Member(p, s, a, n)
    ensures InSharing(env, a, ns)
    ensures forall n :: n in ns ==> env.roles[a][n] == RoleOf(p, s, w, a, n)
  {
    hide Talks, Drawn, RoleOf;
    assert ns <= Members(p, s, a);
  }

  /** The members of a polynomial's sharing, with their roles: its inputs and its evaluations. */
  lemma EvaluationMembers(p: Program, s: State, w: Setting, x: ExprId, n: NodeId, f: ExprId)
    requires WellTyped(p, w) && Wf(p, s) && |s.ins| == |s.nodes| == |s.owner| && n < |s.owner| && s.owner[n] == x < |p|
    requires p[x].op.EVAL? && p[x].operands == [f] && f in s.memo && s.memo[f].PolyNode?
    ensures f < |p| && p[f].op.POLILIZE? && |s.memo[f].inputs| == w.T + 1 && NoDup(s.memo[f].inputs)
    ensures Member(p, s, f, n)
    ensures forall i :: 0 <= i < |s.memo[f].inputs| ==>
      Member(p, s, f, s.memo[f].inputs[i]) && RoleOf(p, s, w, f, s.memo[f].inputs[i]) == Polynomials.Coef(i)
  {
    hide Wf, WellTyped;
    PolyShape(p, s, w, f);
    var ns := s.memo[f].inputs;
    forall i | 0 <= i < |ns| ensures Member(p, s, f, ns[i]) && RoleOf(p, s, w, f, ns[i]) == Polynomials.Coef(i) {
      if i > 0 { assert Coefficient(s, p[f].party, f, ns[i]); }
      assert ns[i] in ns && ns[IndexIn(ns, ns[i])] == ns[i];
    }
  }

  lemma EvaluationEdge(p: Program, s: State, w: Setting, g: Graph, e: Operation, env: Env, scalar: nat -> int,
                       other: (Operator, nat, seq<int>) -> int)
    requires GraphFrom(p, s, w, g) && Has(g, e) && e.op.EVAL? && env == EnvOf(p, s, w, scalar, other) && env.p > 0
    ensures WellFormed(env, g, e) && Fixes(env, e.arg, Inputs(e))
  {
    hide GraphFrom, WellTyped, Wf, Member, RoleOf, Polynomials.Determines;
    var x := FromFinished(p, s, w, g, e);
    var f := e.arg;
    EvaluationMembers(p, s, w, x, e.output, f);
    InSharingOf(p, s, w, env, f, Inputs(e) + {e.output}, scalar, other);
    forall k: nat | k <= env.T ensures HoldsCoefficient(env, f, Inputs(e), k) {
      assert e.inputs[k] in Inputs(e);
    }
    AllCoefficients(env, f, Inputs(e));
  }

  lemma FromFinished(p: Program, s: State, w: Setting, g: Graph, e: Operation) returns (x: ExprId)
    requires GraphFrom(p, s, w, g) && Has(g, e)
    ensures WellTyped(p, w) && Wf(p, s) && g.partyCnt == |w.parties| && g.T == w.T && |g.nodes| == |s.nodes|
    ensures |s.ins| == |s.nodes| == |s.owner| && e.output < |s.owner| && x == s.owner[e.output] < |p|
    ensures !p[x].op.POLILIZE?
    ensures e.op == p[x].op && (Simple(e.op) || e.op.EVAL?)
    ensures forall k :: 0 <= k < |e.inputs| ==> e.inputs[k] < e.output
    ensures Simple(e.op) ==>
      && Imported(p, s.memo, p[x].operands) && e.inputs == SourceNodes(p, s.memo, p[x].operands)
      && e.arg == Payload(p, Unsaid(e.op, x), p[x].operands)
    ensures e.op.EVAL? ==>
      p[x].operands == [e.arg] && e.arg in s.memo && s.memo[e.arg].PolyNode? && e.inputs == s.memo[e.arg].inputs
    ensures x in s.memo && s.memo[x] == NodeAt(e.output)
  {
    hide WellTyped, Wf;
    x := EdgeFrom(p, s, w, g, e);
    OwnerKinds(p, s, w, e.output);
    assert |g.nodes| == |s.nodes|;
    assert e.op.EVAL? ==> p[x].operands == [p[x].operands[0]];
  }

  /** The operands of a reconstruction have different nodes, all at one party. */
  lemma OperandNodes(p: Program, s: State, w: Setting, x: ExprId)
    requires WellTyped(p, w) && Wf(p, s) && x < |p| && p[x].op.RECONSTRUCT? && Imported(p, s.memo, p[x].operands)
    ensures |s.nodes| == |s.owner|
    ensures var ns := SourceNodes(p, s.memo, p[x].operands);
            && |ns| == |p[x].operands| == |w.parties| && NoDup(ns)
            && Payload(p, Unsaid(RECONSTRUCT, x), p[x].operands) == x
            && (forall i :: 0 <= i < |ns| ==> ns[i] < |s.nodes| && s.owner[ns[i]] == p[x].operands[i])
            && (forall i, j :: 0 <= i < |ns| && 0 <= j < |ns| ==> s.nodes[ns[i]].party == s.nodes[ns[j]].party)
  {
    hide InEdge, PointsApart, ReconstructionsApart, Prime, SourceNodes, Payload, ListsOk, Owned;
    assert ExprTyped(p, w, x);
    ListSizes(s);
    var operands, ns := p[x].operands, SourceNodes(p, s.memo, p[x].operands);
    NodeSources(p, s.memo, x, operands);
    forall i | 0 <= i < |ns|
      ensures ns[i] < |s.nodes| && s.owner[ns[i]] == operands[i] && s.nodes[ns[i]].party == p[operands[i]].party
    {
      assert Mirrored(p, s, operands[i]);
    }
  }

  lemma ReconstructionMembers(p: Program, s: State, w: Setting, x: ExprId, n: NodeId)
    requires WellTyped(p, w) && Wf(p, s) && n < |s.owner| && s.owner[n] == x < |p| && p[x].op.RECONSTRUCT?
    requires Imported(p, s.memo, p[x].operands)
    ensures Member(p, s, x, n)
    ensures forall i :: 0 <= i < |SourceNodes(p, s.memo, p[x].operands)| ==>
      var m := SourceNodes(p, s.memo, p[x].operands)[i];
      Member(p, s, x, m) && RoleOf(p, s, w, x, m).At?
  {
    hide Wf, PointsApart, ReconstructionsApart, Prime, SourceNodes, Yields;
    OperandNodes(p, s, w, x);
    assert WfExpr(p, x);
    var ns := SourceNodes(p, s.memo, p[x].operands);
    forall i | 0 <= i < |ns| ensures Member(p, s, x, ns[i]) && RoleOf(p, s, w, x, ns[i]).At? {
      assert p[x].operands[i] in p[x].operands && p[x].operands[i] < x;
      assert TakenAt(p, x, s.owner[ns[i]]);
    }
  }

  lemma BaseNodes(p: Program, s: State, w: Setting, g: Graph)
    requires GraphFrom(p, s, w, g)
    ensures g.nodes == s.nodes
  {
  }

  lemma ReconstructionEdge(p: Program, s: State, w: Setting, g: Graph, e: Operation, env: Env, scalar: nat -> int,
                           other: (Operator, nat, seq<int>) -> int)
    requires GraphFrom(p, s, w, g) && Has(g, e) && e.op.RECONSTRUCT? && env == EnvOf(p, s, w, scalar, other)
    requires WfEnv(env) && |w.parties| >= w.T + 1
    ensures WellFormed(env, g, e) && Fixes(env, e.arg, Inputs(e))
  {
    hide GraphFrom, WellTyped, Wf, Member, RoleOf, Polynomials.Determines, WfEnv, SourceNodes, Payload, Imported;
    var x := FromFinished(p, s, w, g, e);
    OperandNodes(p, s, w, x);
    ReconstructionMembers(p, s, w, x, e.output);
    InSharingOf(p, s, w, env, x, Inputs(e) + {e.output}, scalar, other);
    BaseNodes(p, s, w, g);
    SharesFix(env, x, e.inputs);
  }

  // ----- From the builder to the prover

  lemma OtherEdge(p: Program, s: State, w: Setting, g: Graph, e: Operation, env: Env)
    requires GraphFrom(p, s, w, g) && Has(g, e) && !PolyEdge(e)
    ensures WellFormed(env, g, e) && (env.p > 0 ==> EdgeFixes(env, e))
  {
    hide GraphFrom, WellTyped, Wf, SourceNodes, Payload, Imported;
    var x := FromFinished(p, s, w, g, e);
    if e.op.TRANSIT? || e.op.SCALARMUL? || e.op.ADD? || e.op.SUB? || e.op.MUL? {
      ArityCounts(p, s.memo, p[x].operands);
      Typed(p, w, x);
    }
  }

  lemma Typed(p: Program, w: Setting, x: ExprId)
    requires WellTyped(p, w) && x < |p|
    ensures ExprTyped(p, w, x) && w.q > 0 && w.T >= 1 && |w.parties| >= 2 * w.T + 1
  {
  }

  lemma BuiltEdges(p: Program, s: State, w: Setting, g: Graph, env: Env, scalar: nat -> int,
                   other: (Operator, nat, seq<int>) -> int)
    requires GraphFrom(p, s, w, g) && env == EnvOf(p, s, w, scalar, other) && WfEnv(env) && |w.parties| >= w.T + 1
    ensures env.p > 0 && EdgesFix(env, g) && forall e :: Has(g, e) ==> WellFormed(env, g, e)
  {
    assert env.p > 0;
    hide GraphFrom, WellFormed, Fixes, WfEnv, EnvOf;
    forall e | Has(g, e) ensures WellFormed(env, g, e) && EdgeFixes(env, e) {
      if e.op.EVAL? {
        EvaluationEdge(p, s, w, g, e, env, scalar, other);
      } else if e.op.RECONSTRUCT? {
        ReconstructionEdge(p, s, w, g, e, env, scalar, other);
      } else {
        OtherEdge(p, s, w, g, e, env);
      }
    }
  }

  lemma BuiltNodes(p: Program, s: State, w: Setting, g: Graph)
    requires GraphFrom(p, s, w, g)
    ensures Sync(g) && Acyclic(g) && forall n :: 0 <= n < |g.nodes| ==> g.nodes[n].party in w.parties
  {
    hide WellTyped, Topological, InEdge, DrawnAt;
    BuiltGraph(p, s, g);
    forall n | 0 <= n < |g.nodes| ensures g.nodes[n].party in w.parties {
      ListSizes(s);
      OwnerKinds(p, s, w, n);
    }
  }

  /**
   * The graph built for a well-typed program meets the standing conditions of the prover for
   * every meaning of constants and other operators, it is acyclic, and the inputs of every edge
   * fix its polynomial.
   */
  lemma BuiltStartable(p: Program, s: State, w: Setting, scalar: nat -> int, other: (Operator, nat, seq<int>) -> int)
    requires WellTyped(p, w) && Wf(p, s) && Complete(s) && |s.nodes| < 0x8000_0000
    ensures var env, b := EnvOf(p, s, w, scalar, other), GraphOf(s);
            && Startable(env, w.parties, b, w.T) && env.p > 0
            && forall corrupted :: var g := StartOf(b, |w.parties|, w.T, corrupted); Acyclic(g) && EdgesFix(env, g)
  {
    var env, b := EnvOf(p, s, w, scalar, other), GraphOf(s);
    EnvOk(p, s, w, scalar, other);
    BaseSizes(p, s);
    forall corrupted: set<Party>
      ensures Acyclic(StartOf(b, |w.parties|, w.T, corrupted)) && EdgesFix(env, StartOf(b, |w.parties|, w.T, corrupted))
    {
      BuiltReady(p, s, w, scalar, other, corrupted);
    }
    BuiltReady(p, s, w, scalar, other, {});
  }

  lemma BaseSizes(p: Program, s: State)
    requires Wf(p, s)
    ensures |GraphOf(s).ins| == |GraphOf(s).outs| == |GraphOf(s).nodes| == |s.nodes|
  {
  }

  lemma BuiltReady(p: Program, s: State, w: Setting, scalar: nat -> int, other: (Operator, nat, seq<int>) -> int,
                   corrupted: set<Party>)
    requires WellTyped(p, w) && Wf(p, s) && Complete(s) && |s.nodes| < 0x8000_0000
    requires |GraphOf(s).ins| == |GraphOf(s).outs| == |GraphOf(s).nodes| == |s.nodes|
    ensures var env, g := EnvOf(p, s, w, scalar, other), StartOf(GraphOf(s), |w.parties|, w.T, corrupted);
            env.p > 0 && Ready(env, w.parties, g) && Acyclic(g) && EdgesFix(env, g)
  {
    hide Wf, Complete, SyncAt, EdgesFix, WellFormed, Acyclic, AlmostDisjoint;
    var env, g := EnvOf(p, s, w, scalar, other), StartOf(GraphOf(s), |w.parties|, w.T, corrupted);
    EnvOk(p, s, w, scalar, other);
    assert GraphFrom(p, s, w, g);
    BuiltNodes(p, s, w, g);
    BuiltEdges(p, s, w, g, env, scalar, other);
  }

  /**
   * What a verdict says about a protocol. A well-typed program is built and an attempt for some
   * corrupted set succeeds with an acyclic final graph: if points are in general position, all
   * that the corrupted parties hold is a function of the final random nodes and of the corrupted
   * inputs and outputs without in-edges.
   */
  lemma BuiltVerdict(p: Program, s: State, w: Setting, scalar: nat -> int, other: (Operator, nat, seq<int>) -> int,
                     corrupted: set<Party>, f: Graph, u: Valuation, v: Valuation, n: NodeId)
    requires WellTyped(p, w) && Wf(p, s) && Complete(s) && |s.nodes| < 0x8000_0000
    requires |GraphOf(s).ins| == |GraphOf(s).outs| == |GraphOf(s).nodes|
    requires var env, g := EnvOf(p, s, w, scalar, other), StartOf(GraphOf(s), |w.parties|, w.T, corrupted);
      && Generic(env) && Attempted(w.parties, g, f) && Sat(env, g, u) && Sat(env, g, v)
    requires Shape(f) && Clear(f) && Acyclic(f) && AgreeOnSources(f, u, v) && n < |f.nodes| && AtCorrupted(f, n)
    ensures n < |u| && n < |v| && u[n] == v[n]
  {
    hide WellTyped, Wf, Complete, Generic, Sat, Clear, Acyclic, AgreeOnSources, EnvOf, StartOf, GraphOf;
    hide Ready, EdgesFix, FixedRun, IsRun, Greedy, Exhausted, Trimmed, GreatestSupported;
    var env, g := EnvOf(p, s, w, scalar, other), StartOf(GraphOf(s), |w.parties|, w.T, corrupted);
    BaseSizes(p, s);
    BuiltReady(p, s, w, scalar, other, corrupted);
    var src, trace :| AttemptedBy(w.parties, g, f, src, trace);
    GenericRun(env, w.parties, src, trace);
    AttemptMeaning(env, w.parties, g, f, src, trace, u, v, n);
  }
}
