// Executions are solutions: in the prover's semantics the values that the frontend's expressions
// have in a world satisfy every edge of the graph that is built for them.
module Executions {
  import opened Arith
  import opened Polynomials
  import opened Graphs
  import opened Counters
  import opened Semantics
  import opened Expressions
  import opened BgwCorrectness
  import opened FrontendPrograms
  import L = Lowering
  import B = BuiltProtocols
  import M = BuiltMatches

  /** The constants of the program, as the environment has them. */
  ghost function ScalarsOf(w: World, l: Listing): nat -> int
    requires WfWorld(w)
  {
    (x: nat) => if x < |l| && l[x].OfConst? then ConstantValue(w, l[x].c) else 0
  }

  /** What a node holds: the value of its expression, or a random coefficient. */
  ghost function NodeValue(w: World, l: Listing, s: L.State, n: NodeId): int
    requires WfWorld(w)
  {
    if n >= |s.owner| || s.owner[n] >= |l| then 0
    else
      match l[s.owner[n]]
      case OfConst(_) => 0
      case OfExpr(e) => Value(w, e)
      case OfPoly(f) =>
        if s.owner[n] in s.memo && s.memo[s.owner[n]].PolyNode? then
          w.random(f.id, B.IndexIn(s.memo[s.owner[n]].inputs, n))
        else 0
  }

  ghost function Execution(w: World, l: Listing, s: L.State): (v: Valuation)
    requires WfWorld(w) && w.p > 0
    ensures |v| == |s.nodes|
    ensures forall n :: 0 <= n < |v| ==> 0 <= v[n] < w.p && v[n] == NodeValue(w, l, s, n) % w.p
  {
    seq(|s.nodes|, n requires 0 <= n < |s.nodes| => NodeValue(w, l, s, n) % w.p)
  }

  /** The operands of a reconstruction are shares on one polynomial of degree at most T. */
  ghost predicate Consistent(w: World, T: nat, e: Expression)
    requires WfWorld(w)
  {
    e.Reconstruct? ==> |e.shares| == |w.parties| && exists P :: OnShares(w, T, e.shares, P)
  }

  ghost predicate Executable(w: World, T: nat, l: Listing, s: L.State, g: Graph) {
    && WfWorld(w) && TypedListing(w, T, l) && w.p > 0
    && B.GraphFrom(ProgramOf(l), s, SettingOf(w, T, l), g)
    && forall x :: 0 <= x < |l| && l[x].OfExpr? ==> Consistent(w, T, l[x].e)
  }

  // ----- Values

  lemma {:induction false} EvalCong(p: int, P: seq<int>, x: int, y: int)
    requires p > 0 && Cong(p, x, y)
    ensures Cong(p, Eval(P, x), Eval(P, y))
  {
    hide Cong;
    CongRefl(p, 0);
    if P != [] {
      EvalCong(p, P[1..], x, y);
      CongMul(p, x, y, Eval(P[1..], x), Eval(P[1..], y));
      CongRefl(p, P[0]);
      CongAdd(p, P[0], P[0], x * Eval(P[1..], x), y * Eval(P[1..], y));
    }
  }

  lemma ValueAt(w: World, T: nat, l: Listing, s: L.State, g: Graph, e: Expression)
    requires Executable(w, T, l, s, g) && OfExpr(e) in l && Position(l, OfExpr(e)) in s.memo
    requires s.memo[Position(l, OfExpr(e))].NodeAt?
    ensures var n := s.memo[Position(l, OfExpr(e))].n;
      n < |s.nodes| && Execution(w, l, s)[n] == Value(w, e) % w.p && Cong(w.p, Execution(w, l, s)[n], Value(w, e))
  {
    var x := Position(l, OfExpr(e));
    assert B.WellTyped(ProgramOf(l), SettingOf(w, T, l)) && L.Wf(ProgramOf(l), s);
    hide TypedListing, B.WellTyped, L.Wf, Value, Position, WfWorld;
    M.NodeOwner(ProgramOf(l), s, SettingOf(w, T, l), x);
    CongMod(w.p, Value(w, e));
  }

  lemma OwnerAt(w: World, T: nat, l: Listing, s: L.State, g: Graph, e: Operation) returns (x: nat)
    requires Executable(w, T, l, s, g) && Has(g, e)
    ensures x < |l| && x in s.memo && s.memo[x] == L.NodeAt(e.output) && l[x].OfExpr? && Position(l, l[x]) == x
    ensures e.op == ProgramOf(l)[x].op && (L.Simple(e.op) || e.op.EVAL?)
    ensures |s.owner| == |s.nodes| == |g.nodes| && e.output < |s.owner| && s.owner[e.output] == x
    ensures L.Simple(e.op) ==>
      && L.Imported(ProgramOf(l), s.memo, ProgramOf(l)[x].operands)
      && e.inputs == L.SourceNodes(ProgramOf(l), s.memo, ProgramOf(l)[x].operands)
      && e.arg == L.Payload(ProgramOf(l), L.Unsaid(e.op, x), ProgramOf(l)[x].operands)
    ensures e.op.EVAL? ==>
      && ProgramOf(l)[x].operands == [e.arg] && e.arg in s.memo && s.memo[e.arg].PolyNode?
      && e.inputs == s.memo[e.arg].inputs
  {
    hide B.GraphFrom, L.SourceNodes, L.Payload, L.Imported, Position, WfWorld;
    x := B.FromFinished(ProgramOf(l), s, SettingOf(w, T, l), g, e);
    ItemOfNode(w, T, l, x);
  }

  lemma ItemOfNode(w: World, T: nat, l: Listing, x: nat)
    requires TypedListing(w, T, l) && x < |l| && (L.Simple(ProgramOf(l)[x].op) || ProgramOf(l)[x].op.EVAL?)
    ensures l[x].OfExpr? && Position(l, l[x]) == x
  {
    hide WfWorld, ItemsApart;
    assert ItemTyped(w, T, l[x]);
    PositionAt(l, x);
  }

  // ----- The edges hold

  ghost function EnvIn(w: World, T: nat, l: Listing, s: L.State, other: (Operator, nat, seq<int>) -> int): Env
    requires WfWorld(w) && w.p > 0
  {
    B.EnvOf(ProgramOf(l), s, SettingOf(w, T, l), ScalarsOf(w, l), other)
  }

  lemma EnvParts(w: World, T: nat, l: Listing, s: L.State, other: (Operator, nat, seq<int>) -> int)
    requires WfWorld(w) && w.p > 0
    ensures EnvIn(w, T, l, s, other).p == w.p && EnvIn(w, T, l, s, other).T == T
    ensures EnvIn(w, T, l, s, other).scalar == ScalarsOf(w, l)
  {
  }

  /** The node of an operand, and what it holds. */
  lemma OperandValue(w: World, T: nat, l: Listing, s: L.State, g: Graph, x: nat, k: nat)
    requires Executable(w, T, l, s, g) && x < |l| && k < |Parts(l[x])| && Parts(l[x])[k].OfExpr?
    requires k < |ProgramOf(l)[x].operands| && ProgramOf(l)[x].operands[k] == Position(l, Parts(l[x])[k])
    requires L.Imported(ProgramOf(l), s.memo, ProgramOf(l)[x].operands)
    ensures var y := ProgramOf(l)[x].operands[k];
      && y < |l| && l[y] == Parts(l[x])[k] && !ProgramOf(l)[y].kind.Constant? && y in s.memo && s.memo[y].NodeAt?
      && s.memo[y].n < |s.nodes| && Cong(w.p, Execution(w, l, s)[s.memo[y].n], Value(w, Parts(l[x])[k].e))
      && Execution(w, l, s)[s.memo[y].n] == Value(w, Parts(l[x])[k].e) % w.p
  {
    hide B.GraphFrom, Position, WfWorld, Parts, Value, Execution, Consistent, TypedListing;
    var it := Parts(l[x])[k];
    PartNode(w, T, l, x, it);
    var y := ProgramOf(l)[x].operands[k];
    ValueAt(w, T, l, s, g, it.e);
  }

  /** With a constant as its second operand an operation has one input. */
  lemma SourceAndConstant(p: L.Program, memo: map<nat, L.Lowered>, unsaid: nat, y: nat, z: nat)
    requires L.Imported(p, memo, [y, z]) && y < |p| && z < |p| && !p[y].kind.Constant? && p[z].kind.Constant?
    ensures y in memo && memo[y].NodeAt?
    ensures L.SourceNodes(p, memo, [y, z]) == [memo[y].n] && L.Payload(p, unsaid, [y, z]) == z
  {
    assert [y, z][..1] == [y] && [y][..0] == [];
    assert [y, z][0] == y && [y, z][1] == z;
    assert L.SourceNodes(p, memo, [y]) == [memo[y].n] by { assert L.SourceNodes(p, memo, [y][..0]) == []; }
  }

  lemma TransitHolds(w: World, T: nat, l: Listing, s: L.State, g: Graph, e: Operation, env: Env)
    requires Executable(w, T, l, s, g) && Has(g, e) && e.op.TRANSIT? && env.p > 0
    ensures Semantics.Spans(e, Execution(w, l, s)) && Holds(env, e, Execution(w, l, s))
  {
    hide B.GraphFrom, Position, WfWorld, Execution, Consistent, TypedListing, L.SourceNodes, L.Imported, L.Payload;
    var x := OwnerAt(w, T, l, s, g, e);
    TransitItem(w, T, l, x);
    OperandValue(w, T, l, s, g, x, 0);
    ValueAt(w, T, l, s, g, l[x].e);
    B.NodeSources(ProgramOf(l), s.memo, 0, ProgramOf(l)[x].operands);
  }

  lemma TransitItem(w: World, T: nat, l: Listing, x: nat)
    requires TypedListing(w, T, l) && x < |l| && l[x].OfExpr? && ProgramOf(l)[x].op.TRANSIT?
    ensures l[x].e.Transit? && Parts(l[x]) == [OfExpr(l[x].e.source)]
    ensures ProgramOf(l)[x].operands == [Position(l, OfExpr(l[x].e.source))]
  {
    assert ItemTyped(w, T, l[x]);
    hide TypedListing, Position;
  }

  lemma BinaryItem(w: World, T: nat, l: Listing, x: nat)
    requires TypedListing(w, T, l) && x < |l| && l[x].OfExpr?
    requires var op := ProgramOf(l)[x].op; op.ADD? || op.SUB? || op.MUL?
    ensures l[x].e.Binary? && l[x].e.op == ProgramOf(l)[x].op
    ensures Parts(l[x]) == [OfExpr(l[x].e.a), OfExpr(l[x].e.b)]
    ensures ProgramOf(l)[x].operands == [Position(l, OfExpr(l[x].e.a)), Position(l, OfExpr(l[x].e.b))]
  {
    assert ItemTyped(w, T, l[x]);
    hide TypedListing, Position;
  }

  lemma BinaryParts(w: World, T: nat, l: Listing, s: L.State, g: Graph, e: Operation) returns (x: nat)
    requires Executable(w, T, l, s, g) && Has(g, e) && (e.op.ADD? || e.op.SUB? || e.op.MUL?)
    ensures x < |l| && l[x].OfExpr? && l[x].e.Binary? && l[x].e.op == e.op
    ensures var v := Execution(w, l, s);
      && |e.inputs| == 2 && Semantics.Spans(e, v) && Cong(w.p, v[e.output], Value(w, l[x].e))
      && Cong(w.p, v[e.inputs[0]], Value(w, l[x].e.a)) && Cong(w.p, v[e.inputs[1]], Value(w, l[x].e.b))
  {
    hide B.GraphFrom, Position, WfWorld, Execution, Consistent, TypedListing, L.SourceNodes, L.Imported, L.Payload;
    hide Value, Cong;
    x := OwnerAt(w, T, l, s, g, e);
    BinaryItem(w, T, l, x);
    OperandValue(w, T, l, s, g, x, 0);
    OperandValue(w, T, l, s, g, x, 1);
    ValueAt(w, T, l, s, g, l[x].e);
    B.NodeSources(ProgramOf(l), s.memo, 0, ProgramOf(l)[x].operands);
  }

  lemma BinaryHolds(w: World, T: nat, l: Listing, s: L.State, g: Graph, e: Operation, env: Env)
    requires Executable(w, T, l, s, g) && Has(g, e) && (e.op.ADD? || e.op.SUB? || e.op.MUL?) && env.p == w.p > 0
    ensures Semantics.Spans(e, Execution(w, l, s)) && Holds(env, e, Execution(w, l, s))
  {
    assert WfWorld(w);
    hide Executable, Execution, WfWorld, Cong, Value, Holds;
    var x := BinaryParts(w, T, l, s, g, e);
    var d := l[x].e;
    BinaryValue(w, d);
    BinaryEdge(env, e, Execution(w, l, s), Value(w, d), Value(w, d.a), Value(w, d.b));
  }

  lemma BinaryValue(w: World, d: Expression)
    requires WfWorld(w) && d.Binary?
    ensures d.op.ADD? ==> Value(w, d) == Value(w, d.a) + Value(w, d.b)
    ensures d.op.SUB? ==> Value(w, d) == Value(w, d.a) - Value(w, d.b)
    ensures d.op.MUL? ==> Value(w, d) == Value(w, d.a) * Value(w, d.b)
  {
    hide WfWorld;
  }

  lemma BinaryEdge(env: Env, e: Operation, v: Valuation, c: int, a: int, b: int)
    requires env.p > 0 && (e.op.ADD? || e.op.SUB? || e.op.MUL?) && |e.inputs| == 2 && Semantics.Spans(e, v)
    requires Cong(env.p, v[e.output], c) && Cong(env.p, v[e.inputs[0]], a) && Cong(env.p, v[e.inputs[1]], b)
    requires c == if e.op.ADD? then a + b else if e.op.SUB? then a - b else a * b
    ensures Holds(env, e, v)
  {
    hide Cong;
    assert InputValues(e, v) == [v[e.inputs[0]], v[e.inputs[1]]];
    BinaryResidues(env.p, v[e.output], c, v[e.inputs[0]], a, v[e.inputs[1]], b);
  }

  lemma BinaryResidues(p: int, o: int, c: int, x: int, a: int, y: int, b: int)
    requires p > 0 && Cong(p, o, c) && Cong(p, x, a) && Cong(p, y, b)
    ensures c == a + b ==> Cong(p, o, x + y)
    ensures c == a - b ==> Cong(p, o, x - y)
    ensures c == a * b ==> Cong(p, o, x * y)
  {
    hide Cong;
    CongSym(p, x, a);
    CongSym(p, y, b);
    if c == a + b {
      CongAdd(p, a, x, b, y);
      CongTrans(p, o, c, x + y);
    }
    if c == a - b {
      CongRefl(p, -1);
      CongMul(p, -1, -1, b, y);
      CongAdd(p, a, x, -1 * b, -1 * y);
      assert a + -1 * b == c && x + -1 * y == x - y;
      CongTrans(p, o, c, x - y);
    }
    if c == a * b {
      CongMul(p, a, x, b, y);
      CongTrans(p, o, c, x * y);
    }
  }

  lemma ScaledItem(w: World, T: nat, l: Listing, x: nat)
    requires TypedListing(w, T, l) && x < |l| && l[x].OfExpr? && ProgramOf(l)[x].op.SCALARMUL?
    ensures l[x].e.Scaled? && Parts(l[x]) == [OfExpr(l[x].e.e), OfConst(l[x].e.c)]
    ensures ProgramOf(l)[x].operands == [Position(l, OfExpr(l[x].e.e)), Position(l, OfConst(l[x].e.c))]
    ensures var y := ProgramOf(l)[x].operands[1]; y < |l| && l[y] == OfConst(l[x].e.c) && ProgramOf(l)[y].kind.Constant?
  {
    assert ItemTyped(w, T, l[x]);
    hide TypedListing, Position;
    PartNode(w, T, l, x, OfConst(l[x].e.c));
  }

  lemma ScaledParts(w: World, T: nat, l: Listing, s: L.State, g: Graph, e: Operation) returns (x: nat)
    requires Executable(w, T, l, s, g) && Has(g, e) && e.op.SCALARMUL?
    ensures x < |l| && l[x].OfExpr? && l[x].e.Scaled? && e.arg < |l| && l[e.arg] == OfConst(l[x].e.c)
    ensures var v := Execution(w, l, s);
      && |e.inputs| == 1 && Semantics.Spans(e, v) && Cong(w.p, v[e.output], Value(w, l[x].e))
      && Cong(w.p, v[e.inputs[0]], Value(w, l[x].e.e))
  {
    hide B.GraphFrom, Position, WfWorld, Execution, Consistent, TypedListing, L.SourceNodes, L.Imported, L.Payload;
    hide Value, Cong;
    x := OwnerAt(w, T, l, s, g, e);
    ScaledItem(w, T, l, x);
    OperandValue(w, T, l, s, g, x, 0);
    ValueAt(w, T, l, s, g, l[x].e);
    var operands := ProgramOf(l)[x].operands;
    SourceAndConstant(ProgramOf(l), s.memo, L.Unsaid(e.op, x), operands[0], operands[1]);
  }

  lemma ScaledHolds(w: World, T: nat, l: Listing, s: L.State, g: Graph, e: Operation, env: Env)
    requires Executable(w, T, l, s, g) && Has(g, e) && e.op.SCALARMUL? && env.p == w.p > 0
    requires env.scalar == ScalarsOf(w, l)
    ensures Semantics.Spans(e, Execution(w, l, s)) && Holds(env, e, Execution(w, l, s))
  {
    var x := ScaledParts(w, T, l, s, g, e);
    var v, c := Execution(w, l, s), ConstantValue(w, l[x].e.c);
    hide Executable, Execution, WfWorld, Cong, ConstantValue;
    assert InputValues(e, v) == [v[e.inputs[0]]];
    assert env.scalar(e.arg) == c;
    CongRefl(w.p, c);
    BinaryResidues(w.p, v[e.output], Value(w, l[x].e), c, c, v[e.inputs[0]], Value(w, l[x].e.e));
  }

  /** The polynomial of an evaluation, and the roles and values of the nodes it is about. */
  lemma EvaluationItem(w: World, T: nat, l: Listing, x: nat, a: nat)
    requires TypedListing(w, T, l) && x < |l| && l[x].OfExpr? && ProgramOf(l)[x].op.EVAL?
    requires ProgramOf(l)[x].operands == [a]
    ensures a < x && l[x].e.Evaluation? && l[a] == OfPoly(l[x].e.poly) && l[x].e.poly.degree == T
    ensures ProgramOf(l)[a].op.POLILIZE? && ProgramOf(l)[a].kind.Polynomial? && ProgramOf(l)[a].kind.constTerm < a
    ensures l[ProgramOf(l)[a].kind.constTerm] == OfExpr(l[x].e.poly.constTerm)
    ensures ProgramOf(l)[a].kind.constTerm == Position(l, OfExpr(l[x].e.poly.constTerm))
  {
    hide WfWorld, ItemsApart;
    assert ItemTyped(w, T, l[x]);
    PartBefore(l, x, OfPoly(l[x].e.poly));
    assert ItemTyped(w, T, l[a]);
    PartBefore(l, a, OfExpr(l[x].e.poly.constTerm));
  }

  /** The coefficients of a polynomial, at the inputs of its evaluations. */
  lemma InputHolds(w: World, T: nat, l: Listing, s: L.State, g: Graph, a: nat, f: Poly, i: nat)
    requires Executable(w, T, l, s, g) && a in s.memo && s.memo[a].PolyNode? && a < |l| && l[a] == OfPoly(f)
    requires i < |s.memo[a].inputs|
    requires ProgramOf(l)[a].kind.Polynomial? && ProgramOf(l)[a].kind.constTerm == Position(l, OfExpr(f.constTerm))
    requires OfExpr(f.constTerm) in l
    ensures |s.memo[a].inputs| == T + 1 && s.memo[a].inputs[i] < |s.nodes|
    ensures Cong(w.p, Coefficients(w, f.id, Value(w, f.constTerm), T)[i], Execution(w, l, s)[s.memo[a].inputs[i]])
  {
    hide Position, WfWorld, Consistent, TypedListing, Value, B.WellTyped, L.Wf, Cong, B.IndexIn;
    var p, st, n := ProgramOf(l), SettingOf(w, T, l), s.memo[a].inputs[i];
    GraphSizes(w, T, l, s, g);
    B.PolyShape(p, s, st, a);
    if i == 0 {
      ValueMod(w.p, Value(w, f.constTerm));
    } else {
      assert L.Coefficient(s, p[a].party, a, n);
      IndexUnique(s.memo[a].inputs, i);
      ValueMod(w.p, w.random(f.id, i));
    }
  }

  lemma ValueMod(p: int, x: int)
    requires p > 0
    ensures Cong(p, x, x % p)
  {
    CongMod(p, x);
    CongSym(p, x % p, x);
  }

  lemma IndexUnique(ns: seq<NodeId>, i: nat)
    requires NoDup(ns) && i < |ns|
    ensures B.IndexIn(ns, ns[i]) == i
  {
    assert ns[i] in ns && ns[B.IndexIn(ns, ns[i])] == ns[i];
  }

  lemma GraphSizes(w: World, T: nat, l: Listing, s: L.State, g: Graph)
    requires Executable(w, T, l, s, g)
    ensures B.WellTyped(ProgramOf(l), SettingOf(w, T, l)) && L.Wf(ProgramOf(l), s)
    ensures |s.ins| == |s.nodes| == |s.owner| == |g.nodes| && SettingOf(w, T, l).T == T && SettingOf(w, T, l).q == w.p
  {
    hide B.WellTyped, TypedListing;
    L.ListSizes(s);
  }

  lemma EvaluationHolds(w: World, T: nat, l: Listing, s: L.State, g: Graph, e: Operation,
                        other: (Operator, nat, seq<int>) -> int)
    requires Executable(w, T, l, s, g) && Has(g, e) && e.op.EVAL?
    ensures Semantics.Spans(e, Execution(w, l, s)) && Holds(EnvIn(w, T, l, s, other), e, Execution(w, l, s))
  {
    hide B.GraphFrom, Position, Consistent, TypedListing, B.WellTyped, L.Wf, Value, WfWorld, Execution, Coefficients;
    hide Eval, Cong;
    hide B.Member, B.RoleOf, EnvIn, SettingOf;
    var x := OwnerAt(w, T, l, s, g, e);
    var a, p, st := e.arg, ProgramOf(l), SettingOf(w, T, l);
    GraphSizes(w, T, l, s, g);
    EvaluationItem(w, T, l, x, a);
    var f, v, env := l[x].e.poly, Execution(w, l, s), EnvIn(w, T, l, s, other);
    var P := Coefficients(w, f.id, Value(w, f.constTerm), T);
    B.EvaluationMembers(p, s, st, x, e.output, a);
    EnvParts(w, T, l, s, other);
    SharingRoles(w, T, l, s, a, Inputs(e) + {e.output}, other);
    OutputHolds(w, T, l, s, g, e, x, a);
    forall n | n in Inputs(e) + {e.output} ensures n < |v| && Cong(w.p, Apply(env.roles[a][n], P), v[n]) {
      if n in Inputs(e) {
        var i :| 0 <= i < |e.inputs| && e.inputs[i] == n;
        InputHolds(w, T, l, s, g, a, f, i);
      }
    }
    assert Fits(env, a, Inputs(e) + {e.output}, v, P);
  }

  lemma SharingRoles(w: World, T: nat, l: Listing, s: L.State, a: nat, ns: set<NodeId>, other: (Operator, nat,
                     seq<int>) -> int)
    requires WfWorld(w) && w.p > 0 && a in s.memo && a < |l|
    requires (ProgramOf(l)[a].op.POLILIZE? || ProgramOf(l)[a].op.RECONSTRUCT?)
    requires forall n :: n in ns ==> B.Member(ProgramOf(l), s, a, n)
    ensures InSharing(EnvIn(w, T, l, s, other), a, ns)
    ensures forall n :: n in ns ==>
      EnvIn(w, T, l, s, other).roles[a][n] == B.RoleOf(ProgramOf(l), s, SettingOf(w, T, l), a, n)
  {
    hide WfWorld, B.Member, B.RoleOf, B.EnvOf;
    B.InSharingOf(ProgramOf(l), s, SettingOf(w, T, l), EnvIn(w, T, l, s, other), a, ns, ScalarsOf(w, l), other);
  }

  /** The value of an evaluation is that of its polynomial at the party's point. */
  lemma OutputHolds(w: World, T: nat, l: Listing, s: L.State, g: Graph, e: Operation, x: nat, a: nat)
    requires Executable(w, T, l, s, g) && x < |l| && a < x && l[x].OfExpr? && l[x].e.Evaluation?
    requires l[a] == OfPoly(l[x].e.poly)
    requires l[x].e.poly.degree == T && x in s.memo && s.memo[x] == L.NodeAt(e.output) && Position(l, l[x]) == x
    requires e.output < |s.owner| && s.owner[e.output] == x && ProgramOf(l)[x].op.EVAL?
    requires ProgramOf(l)[a].op.POLILIZE? && ProgramOf(l)[a].kind.Polynomial? && ProgramOf(l)[a].kind.constTerm < a
    ensures e.output < |s.nodes|
    ensures var P := Coefficients(w, l[x].e.poly.id, Value(w, l[x].e.poly.constTerm), T);
      Cong(w.p, Apply(B.RoleOf(ProgramOf(l), s, SettingOf(w, T, l), a, e.output), P), Execution(w, l, s)[e.output])
  {
    hide Position, Consistent, TypedListing, B.WellTyped, L.Wf, WfWorld, Coefficients, Eval, Cong;
    GraphSizes(w, T, l, s, g);
    var d := l[x].e;
    var P, z := Coefficients(w, d.poly.id, Value(w, d.poly.constTerm), T), w.point(d.at);
    assert d == Evaluation(d.poly, d.at) && d.poly == Poly(d.poly.id, d.poly.constTerm, T);
    assert Value(w, d) == Eval(P, z);
    CongMod(w.p, z);
    EvalCong(w.p, P, z % w.p, z);
    ValueMod(w.p, Value(w, d));
    CongTrans(w.p, Eval(P, z % w.p), Eval(P, z), Value(w, d) % w.p);
  }

  // ----- Reconstructions

  lemma ReconstructItem(w: World, T: nat, l: Listing, x: nat)
    requires TypedListing(w, T, l) && x < |l| && l[x].OfExpr? && ProgramOf(l)[x].op.RECONSTRUCT?
    ensures l[x].e.Reconstruct? && l[x].e.shares != []
    ensures var es, operands := l[x].e.shares, ProgramOf(l)[x].operands;
      && |es| == |operands| == |w.parties| && NoDup(es)
      && forall i :: 0 <= i < |es| ==>
           && operands[i] < x && l[operands[i]] == OfExpr(es[i])
           && operands[i] == Position(l, OfExpr(es[i])) && OfExpr(es[i]) in l
  {
    assert ItemTyped(w, T, l[x]);
    var es := l[x].e.shares;
    hide WfWorld, ItemsApart, Ordered, Position;
    forall i | 0 <= i < |es|
      ensures Position(l, OfExpr(es[i])) < x && l[Position(l, OfExpr(es[i]))] == OfExpr(es[i]) && OfExpr(es[i]) in l
    {
      assert Parts(l[x])[i] == OfExpr(es[i]);
      PartBefore(l, x, OfExpr(es[i]));
    }
  }

  lemma IndexOfAt(es: seq<Expression>, i: nat)
    requires NoDup(es) && i < |es|
    ensures IndexOf(es, es[i]) == i
  {
    assert es[i] in es && es[IndexOf(es, es[i])] == es[i];
  }

  /** An operand of a reconstruction is the value of the polynomial at its party's point. */
  lemma OperandHolds(w: World, T: nat, l: Listing, s: L.State, g: Graph, x: nat, i: nat, n: NodeId, P: seq<int>)
    requires Executable(w, T, l, s, g) && x < |l| && l[x].OfExpr? && ProgramOf(l)[x].op.RECONSTRUCT?
    requires l[x].e.Reconstruct?
    requires var es := l[x].e.shares; |es| == |w.parties| && OnShares(w, T, es, P) && NoDup(es) && i < |es|
    requires i < |ProgramOf(l)[x].operands|
    requires var y := ProgramOf(l)[x].operands[i];
      && y < x && l[y] == OfExpr(l[x].e.shares[i]) && y == Position(l, l[y])
      && y in s.memo && s.memo[y] == L.NodeAt(n) && n < |s.owner| && s.owner[n] == y
    ensures n < |s.nodes|
    ensures Cong(w.p, Apply(B.RoleOf(ProgramOf(l), s, SettingOf(w, T, l), x, n), P), Execution(w, l, s)[n])
  {
    hide Position, Consistent, TypedListing, B.WellTyped, L.Wf, WfWorld, Eval, Cong, Value, B.GraphFrom, Execution;
    var es := l[x].e.shares;
    var z, v := w.point(w.parties[i]), Value(w, es[i]);
    IndexOfAt(es, i);
    ValueAt(w, T, l, s, g, es[i]);
    GraphSizes(w, T, l, s, g);
    assert Cong(w.p, v, Eval(P, z));
    CongMod(w.p, z);
    EvalCong(w.p, P, z % w.p, z);
    CongSym(w.p, v, Eval(P, z));
    CongTrans(w.p, Eval(P, z % w.p), Eval(P, z), v);
    CongSym(w.p, Execution(w, l, s)[n], v);
    CongTrans(w.p, Eval(P, z % w.p), v, Execution(w, l, s)[n]);
  }

  lemma ReconstructedHolds(w: World, T: nat, l: Listing, s: L.State, g: Graph, x: nat, n: NodeId, P: seq<int>)
    requires Executable(w, T, l, s, g) && x < |l| && l[x].OfExpr? && ProgramOf(l)[x].op.RECONSTRUCT?
    requires l[x].e.Reconstruct?
    requires |l[x].e.shares| == |w.parties| && OnShares(w, T, l[x].e.shares, P) && Position(l, l[x]) == x
    requires x in s.memo && s.memo[x] == L.NodeAt(n) && n < |s.owner| && s.owner[n] == x
    ensures n < |s.nodes|
    ensures Cong(w.p, Apply(B.RoleOf(ProgramOf(l), s, SettingOf(w, T, l), x, n), P), Execution(w, l, s)[n])
  {
    assert |w.parties| >= T + 1;
    hide Position, Consistent, TypedListing, B.WellTyped, L.Wf, WfWorld, Eval, Cong, Value, B.GraphFrom, Execution;
    hide OnShares;
    GraphSizes(w, T, l, s, g);
    ValueAt(w, T, l, s, g, l[x].e);
    SharesRecombine(w, T, l[x].e.shares, l[x].e.to, P);
    CongSym(w.p, Execution(w, l, s)[n], Value(w, l[x].e));
    CongTrans(w.p, P[0], Value(w, l[x].e), Execution(w, l, s)[n]);
  }

  lemma ReconstructionHolds(w: World, T: nat, l: Listing, s: L.State, g: Graph, e: Operation,
                            other: (Operator, nat, seq<int>) -> int)
    requires Executable(w, T, l, s, g) && Has(g, e) && e.op.RECONSTRUCT?
    ensures Semantics.Spans(e, Execution(w, l, s)) && Holds(EnvIn(w, T, l, s, other), e, Execution(w, l, s))
  {
    hide B.GraphFrom, Position, TypedListing, B.WellTyped, L.Wf, Value, WfWorld, Execution, Eval, Cong;
    hide B.Member, B.RoleOf, EnvIn, SettingOf, L.SourceNodes, L.Payload, L.Imported;
    var x := OwnerAt(w, T, l, s, g, e);
    var p, st, v, env := ProgramOf(l), SettingOf(w, T, l), Execution(w, l, s), EnvIn(w, T, l, s, other);
    ReconstructItem(w, T, l, x);
    GraphSizes(w, T, l, s, g);
    B.OperandNodes(p, s, st, x);
    B.NodeSources(p, s.memo, x, p[x].operands);
    B.ReconstructionMembers(p, s, st, x, e.output);
    var P :| OnShares(w, T, l[x].e.shares, P);
    assert |P| == T + 1;
    EnvParts(w, T, l, s, other);
    SharingRoles(w, T, l, s, x, Inputs(e) + {e.output}, other);
    forall n | n in Inputs(e) + {e.output} ensures n < |v| && Cong(w.p, Apply(env.roles[x][n], P), v[n]) {
      if n in Inputs(e) {
        var i :| 0 <= i < |e.inputs| && e.inputs[i] == n;
        OperandHolds(w, T, l, s, g, x, i, n, P);
      } else {
        ReconstructedHolds(w, T, l, s, g, x, n, P);
      }
    }
    assert Fits(env, x, Inputs(e) + {e.output}, v, P);
  }

  // ----- All edges hold

  lemma OperatorOf(w: World, T: nat, l: Listing, s: L.State, g: Graph, e: Operation)
    requires Executable(w, T, l, s, g) && Has(g, e)
    ensures e.op.TRANSIT? || e.op.ADD? || e.op.SUB? || e.op.MUL? || e.op.SCALARMUL? || e.op.EVAL? || e.op.RECONSTRUCT?
  {
    hide B.GraphFrom, Position, WfWorld, Consistent, L.SourceNodes, L.Imported, L.Payload;
    var x := OwnerAt(w, T, l, s, g, e);
    assert ItemTyped(w, T, l[x]);
  }

  /**
   * In every world the values of the expressions, at the nodes the builder made for them, and
   * the random coefficients, at the nodes it drew, satisfy every edge of the built graph.
   */
  lemma ExecutionsSatisfy(w: World, T: nat, l: Listing, s: L.State, g: Graph, other: (Operator, nat, seq<int>) -> int)
    requires Executable(w, T, l, s, g)
    ensures Shape(g) && Sat(EnvIn(w, T, l, s, other), g, Execution(w, l, s))
  {
    assert Shape(g);
    var env, v := EnvIn(w, T, l, s, other), Execution(w, l, s);
    GraphSizes(w, T, l, s, g);
    EnvParts(w, T, l, s, other);
    hide Executable, EnvIn, Execution, Holds;
    forall e | Has(g, e) ensures Semantics.Spans(e, v) && Holds(env, e, v) {
      OperatorOf(w, T, l, s, g, e);
      match e.op
      case TRANSIT => TransitHolds(w, T, l, s, g, e, env);
      case SCALARMUL => ScaledHolds(w, T, l, s, g, e, env);
      case EVAL => EvaluationHolds(w, T, l, s, g, e, other);
      case RECONSTRUCT => ReconstructionHolds(w, T, l, s, g, e, other);
      case _ => BinaryHolds(w, T, l, s, g, e, env);
    }
  }
}
