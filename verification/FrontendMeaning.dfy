// What the builder's graph computes for frontend expressions: for every world, the node of an
// expression gets the expression's value in that world.
module FrontendMeaning {
  import opened Arith
  import opened Polynomials
  import opened Lagrange
  import opened Graphs
  import opened Expressions
  import opened FrontendPrograms
  import L = Lowering
  import M = LoweredMeaning

  /** The value of an operation, from the values of its inputs. */
  ghost function Operate(w: World, e: Expression, xs: seq<int>): int
    requires WfWorld(w)
  {
    match e
    case Evaluation(_, q) => Eval(xs, w.point(q))
    case Transit(_, _) => if |xs| == 1 then xs[0] else 0
    case Binary(op, _, _) =>
      if |xs| != 2 then 0
      else if op == ADD then xs[0] + xs[1]
      else if op == SUB then xs[0] - xs[1]
      else if op == MUL then xs[0] * xs[1]
      else w.other(op, xs[0], xs[1])
    case Scaled(_, c) => if |xs| == 1 then xs[0] * ConstantValue(w, c) else 0
    case Reconstruct(_, _) => if |xs| <= |w.parties| then Recombine(w.p, PointsOf(w), xs, |xs|) else 0
    case _ => 0
  }

  /** The world as a reading of the program: secrets, given shares, coefficients and operations. */
  ghost function ReadingIn(w: World, l: Listing): M.Reading
    requires WfWorld(w)
  {
    M.Reading(
      (x: nat) => if x < |l| && l[x].OfExpr? then Value(w, l[x].e) else 0,
      (x: nat, i: nat) => if x < |l| && l[x].OfPoly? then w.random(l[x].f.id, i + 1) else 0,
      (x: nat, xs: seq<int>) => if x < |l| && l[x].OfExpr? then Operate(w, l[x].e, xs) else 0)
  }

  /** The values of the expressions among some items. */
  ghost function ValuesOf(w: World, items: seq<Item>): seq<int>
    requires WfWorld(w)
  {
    if items == [] then []
    else
      var k := |items| - 1;
      ValuesOf(w, items[..k]) + if items[k].OfExpr? then [Value(w, items[k].e)] else []
  }

  lemma OneValue(w: World, a: Expression)
    requires WfWorld(w)
    ensures ValuesOf(w, [OfExpr(a)]) == [Value(w, a)]
  {
    assert [OfExpr(a)][..0] == [];
  }

  lemma TwoValues(w: World, a: Expression, it: Item)
    requires WfWorld(w)
    ensures ValuesOf(w, [OfExpr(a), it]) == [Value(w, a)] + if it.OfExpr? then [Value(w, it.e)] else []
  {
    OneValue(w, a);
    assert [OfExpr(a), it][..1] == [OfExpr(a)];
  }

  lemma {:induction false} AllValues(w: World, es: seq<Expression>, k: nat)
    requires WfWorld(w) && k <= |es|
    ensures ValuesOf(w, Parts(OfExpr(Reconstruct(es, 0)))[..k]) == seq(k, i requires 0 <= i < k => Value(w, es[i]))
  {
    hide WfWorld, Value;
    if k > 0 {
      AllValues(w, es, k - 1);
      var parts := Parts(OfExpr(Reconstruct(es, 0)));
      assert parts[..k][..k - 1] == parts[..k - 1] && parts[..k][k - 1] == OfExpr(es[k - 1]);
    }
  }

  /** An operation applied to the values of its parts gives the value of the expression. */
  lemma OperateParts(w: World, e: Expression)
    requires WfWorld(w) && !e.Secret? && !e.Given? && !e.Evaluation?
    ensures Operate(w, e, ValuesOf(w, Parts(OfExpr(e)))) == Value(w, e)
  {
    hide WfWorld, ValuesOf, Prime, Distinct, Recombine;
    match e
    case Transit(a, _) => OneValue(w, a);
    case Binary(_, a, b) => TwoValues(w, a, OfExpr(b));
    case Scaled(a, c) => TwoValues(w, a, OfConst(c));
    case Reconstruct(es, q) =>
      AllValues(w, es, |es|);
      assert Parts(OfExpr(e)) == Parts(OfExpr(Reconstruct(es, 0)))[..|es|];
  }

  /** The operands of a listed operation are its parts, in order. */
  lemma OperandsAre(l: Listing, x: nat)
    requires Ordered(l) && x < |l| && l[x].OfExpr? && !l[x].e.Secret? && !l[x].e.Given?
    ensures |ProgramOf(l)[x].operands| == |Parts(l[x])|
    ensures forall k :: 0 <= k < |Parts(l[x])| ==>
      var y := ProgramOf(l)[x].operands[k]; y < x && l[y] == Parts(l[x])[k]
  {
    hide Ordered;
    forall k | 0 <= k < |Parts(l[x])|
      ensures k < |ProgramOf(l)[x].operands|
      ensures var y := ProgramOf(l)[x].operands[k]; y < x && l[y] == Parts(l[x])[k]
    {
      PartBefore(l, x, Parts(l[x])[k]);
    }
  }

  /** The meaning of a listed expression is its value. */
  lemma {:induction false} MeaningIs(w: World, l: Listing, x: nat)
    requires WfWorld(w) && Ordered(l) && (forall y :: 0 <= y < |l| ==> Importable(l[y])) && L.WfProgram(ProgramOf(l))
    requires x < |l| && l[x].OfExpr?
    ensures M.MeaningOf(ProgramOf(l), ReadingIn(w, l), x) == Value(w, l[x].e)
    decreases x, 1
  {
    hide Ordered, WfWorld, Value, Operate, ValuesOf, Parts, L.WfProgram;
    var p, e := ProgramOf(l), l[x].e;
    if e.Evaluation? {
      EvaluationIs(w, l, x);
    } else if !e.Secret? && !e.Given? {
      assert Importable(l[x]);
      OperandsAre(l, x);
      OperandsMean(w, l, x, |p[x].operands|);
      assert Parts(l[x])[..|p[x].operands|] == Parts(l[x]);
      OperateParts(w, e);
    }
  }

  lemma {:induction false} OperandsMean(w: World, l: Listing, x: nat, k: nat)
    requires WfWorld(w) && Ordered(l) && (forall y :: 0 <= y < |l| ==> Importable(l[y])) && L.WfProgram(ProgramOf(l))
    requires x < |l| && l[x].OfExpr? && !l[x].e.Secret? && !l[x].e.Given? && !l[x].e.Evaluation?
    requires L.Simple(ProgramOf(l)[x].op) && k <= |ProgramOf(l)[x].operands| == |Parts(l[x])|
    ensures M.MeaningsOf(ProgramOf(l), ReadingIn(w, l), x, k) == ValuesOf(w, Parts(l[x])[..k])
    decreases x, 0, k
  {
    hide Ordered, WfWorld, Value, Operate, Parts, L.WfProgram, L.WfExpr, ReadingIn;
    if k > 0 {
      OperandsMean(w, l, x, k - 1);
      OperandsAre(l, x);
      var y := ProgramOf(l)[x].operands[k - 1];
      assert Parts(l[x])[..k][..k - 1] == Parts(l[x])[..k - 1];
      assert l[y] == Parts(l[x])[k - 1];
      PartKind(l, x, k - 1);
      if l[y].OfExpr? { MeaningIs(w, l, y); }
    }
  }

  /** The parts of an operation are expressions, and constants. */
  lemma PartKind(l: Listing, x: nat, k: nat)
    requires x < |l| && l[x].OfExpr? && !l[x].e.Evaluation? && k < |Parts(l[x])| && Importable(l[x])
    requires forall y :: 0 <= y < |l| ==> Importable(l[y])
    ensures !Parts(l[x])[k].OfPoly?
    ensures ExprOf(l, Parts(l[x])[k]).kind.Constant? <==> Parts(l[x])[k].OfConst?
  {
  }

  lemma {:induction false} EvaluationIs(w: World, l: Listing, x: nat)
    requires WfWorld(w) && Ordered(l) && (forall y :: 0 <= y < |l| ==> Importable(l[y])) && L.WfProgram(ProgramOf(l))
    requires x < |l| && l[x].OfExpr? && l[x].e.Evaluation?
    ensures M.MeaningOf(ProgramOf(l), ReadingIn(w, l), x) == Value(w, l[x].e)
    decreases x, 0
  {
    hide Ordered, WfWorld, L.WfProgram;
    var p, f := ProgramOf(l), l[x].e.poly;
    assert Parts(l[x]) == [OfPoly(f)];
    PartBefore(l, x, OfPoly(f));
    var y := Position(l, OfPoly(f));
    assert Parts(l[y]) == [OfExpr(f.constTerm)];
    PartBefore(l, y, OfExpr(f.constTerm));
    MeaningIs(w, l, Position(l, OfExpr(f.constTerm)));
    assert Importable(l[Position(l, OfExpr(f.constTerm))]);
    ExprYields(l, f.constTerm);
    assert M.DealtValues(p, ReadingIn(w, l), y) == Coefficients(w, f.id, Value(w, f.constTerm), f.degree);
  }
}
