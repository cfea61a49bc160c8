// Frontend expressions as programs of the builder: the trees the frontend makes and the lists
// of positions the builder lowers are two views of the same expressions.
module FrontendPrograms {
  import opened Arith
  import opened Graphs
  import opened Counters
  import opened Patterns
  import opened Expressions
  import L = Lowering
  import B = BuiltProtocols

  // ----- Listing the parts of an expression

  /** What the builder is handed: expressions, the polynomials they evaluate, and constants. */
  datatype Item = OfExpr(e: Expression) | OfPoly(f: Poly) | OfConst(c: Constant)

  type Listing = seq<Item>

  /** The items an item refers to directly. */
  function Parts(it: Item): (r: seq<Item>) {
    match it
    case OfConst(_) => []
    case OfPoly(f) => [OfExpr(f.constTerm)]
    case OfExpr(Secret(_, _)) => []
    case OfExpr(Given(_, _)) => []
    case OfExpr(Evaluation(f, _)) => [OfPoly(f)]
    case OfExpr(Transit(a, _)) => [OfExpr(a)]
    case OfExpr(Binary(_, a, b)) => [OfExpr(a), OfExpr(b)]
    case OfExpr(Scaled(a, c)) => [OfExpr(a), OfConst(c)]
    case OfExpr(Reconstruct(es, _)) => seq(|es|, i requires 0 <= i < |es| => OfExpr(es[i]))
  }

  /** Every item is listed once, after its parts. */
  ghost predicate Ordered(l: Listing) {
    && NoDup(l)
    && forall x, it :: 0 <= x < |l| && it in Parts(l[x]) ==> it in l[..x]
  }

  function With(l: Listing, it: Item): (r: Listing)
    ensures l <= r && it in r && forall i :: i in r ==> i in l || i == it
  {
    if it in l then l else l + [it]
  }

  lemma WithOrdered(l: Listing, it: Item)
    requires Ordered(l) && forall i :: i in Parts(it) ==> i in l
    ensures Ordered(With(l, it))
  {
    hide Parts;
    if it !in l {
      var r := l + [it];
      forall x, i | 0 <= x < |r| && i in Parts(r[x]) ensures i in r[..x] {
        if x < |l| {
          assert r[x] == l[x] && r[..x] == l[..x];
        } else {
          assert r[..x] == l;
        }
      }
    }
  }

  /** The listing extended by an expression and all it is made of. */
  function List(l: Listing, e: Expression): (r: Listing)
    ensures l <= r && OfExpr(e) in r
    decreases e, 0
  {
    match e
    case Secret(_, _) => With(l, OfExpr(e))
    case Given(_, _) => With(l, OfExpr(e))
    case Evaluation(f, _) => With(With(List(l, f.constTerm), OfPoly(f)), OfExpr(e))
    case Transit(a, _) => With(List(l, a), OfExpr(e))
    case Binary(_, a, b) => With(List(List(l, a), b), OfExpr(e))
    case Scaled(a, c) => With(With(List(l, a), OfConst(c)), OfExpr(e))
    case Reconstruct(es, _) => With(ListAll(l, es, |es|), OfExpr(e))
  }

  function ListAll(l: Listing, es: seq<Expression>, k: nat): (r: Listing)
    requires k <= |es|
    ensures l <= r && forall i :: 0 <= i < k ==> OfExpr(es[i]) in r
    decreases es, k
  {
    if k == 0 then l else List(ListAll(l, es, k - 1), es[k - 1])
  }

  lemma {:induction false} ListOrdered(l: Listing, e: Expression)
    requires Ordered(l)
    ensures Ordered(List(l, e))
    decreases e, 0
  {
    hide Ordered;
    match e
    case Secret(_, _) => WithOrdered(l, OfExpr(e));
    case Given(_, _) => WithOrdered(l, OfExpr(e));
    case Evaluation(f, _) =>
      ListOrdered(l, f.constTerm);
      WithOrdered(List(l, f.constTerm), OfPoly(f));
      WithOrdered(With(List(l, f.constTerm), OfPoly(f)), OfExpr(e));
    case Transit(a, _) =>
      ListOrdered(l, a);
      WithOrdered(List(l, a), OfExpr(e));
    case Binary(_, a, b) =>
      ListOrdered(l, a);
      ListOrdered(List(l, a), b);
      WithOrdered(List(List(l, a), b), OfExpr(e));
    case Scaled(a, c) =>
      ListOrdered(l, a);
      WithOrdered(List(l, a), OfConst(c));
      WithOrdered(With(List(l, a), OfConst(c)), OfExpr(e));
    case Reconstruct(es, _) =>
      ListAllOrdered(l, es, |es|);
      WithOrdered(ListAll(l, es, |es|), OfExpr(e));
  }

  lemma {:induction false} ListAllOrdered(l: Listing, es: seq<Expression>, k: nat)
    requires Ordered(l) && k <= |es|
    ensures Ordered(ListAll(l, es, k))
    decreases es, k
  {
    if k > 0 {
      ListAllOrdered(l, es, k - 1);
      ListOrdered(ListAll(l, es, k - 1), es[k - 1]);
    }
  }

  // ----- The program of a listing

  /** Where an item is listed. */
  function Position(l: Listing, it: Item): (x: nat)
    ensures it in l ==> x < |l| && l[x] == it
  {
    if l == [] || l[0] == it then 0 else 1 + Position(l[1..], it)
  }

  lemma PositionAt(l: Listing, x: nat)
    requires Ordered(l) && x < |l|
    ensures Position(l, l[x]) == x
  {
  }

  function ExprOf(l: Listing, it: Item): L.Expr {
    match it
    case OfConst(_) => L.Expr(L.Constant, INPUT, [], 0)
    case OfPoly(Poly(_, a, d)) => L.Expr(L.Polynomial(Position(l, OfExpr(a)), d), POLILIZE, [], Holder(a))
    case OfExpr(Secret(_, q)) => L.Expr(L.Kind.Secret, INPUT, [], q)
    case OfExpr(Given(_, q)) => L.Expr(L.Kind.Share, INPUT, [], q)
    case OfExpr(Evaluation(f, _)) => L.Expr(L.Kind.Share, EVAL, [Position(l, OfPoly(f))], Holder(it.e))
    case OfExpr(Transit(a, q)) => L.Expr(L.Kind.Share, TRANSIT, [Position(l, OfExpr(a))], q)
    case OfExpr(Binary(op, a, b)) =>
      L.Expr(L.Kind.Share, op, [Position(l, OfExpr(a)), Position(l, OfExpr(b))], Holder(a))
    case OfExpr(Scaled(a, c)) =>
      L.Expr(L.Kind.Share, SCALARMUL, [Position(l, OfExpr(a)), Position(l, OfConst(c))], Holder(a))
    case OfExpr(Reconstruct(es, q)) =>
      L.Expr(L.Kind.Secret, RECONSTRUCT, seq(|es|, i requires 0 <= i < |es| => Position(l, OfExpr(es[i]))), q)
  }

  function ProgramOf(l: Listing): (p: L.Program)
    ensures |p| == |l| && forall x :: 0 <= x < |l| ==> p[x] == ExprOf(l, l[x])
  {
    seq(|l|, x requires 0 <= x < |l| => ExprOf(l, l[x]))
  }

  lemma PartBefore(l: Listing, x: nat, it: Item)
    requires Ordered(l) && x < |l| && it in Parts(l[x])
    ensures Position(l, it) < x && l[Position(l, it)] == it
  {
    hide Parts;
    var y :| 0 <= y < x && l[..x][y] == it;
    PositionAt(l, y);
  }

  /** Binary operations are the ones the importer knows. */
  predicate Importable(it: Item) {
    it.OfExpr? && it.e.Binary? ==> L.Simple(it.e.op)
  }

  lemma ExprYields(l: Listing, e: Expression)
    requires Importable(OfExpr(e))
    ensures L.Yields(ExprOf(l, OfExpr(e))) && !ExprOf(l, OfExpr(e)).kind.Constant?
  {
  }

  /** The program of a listing is one the builder accepts. */
  lemma ListingWf(l: Listing)
    requires Ordered(l) && forall x :: 0 <= x < |l| ==> Importable(l[x])
    ensures L.WfProgram(ProgramOf(l))
  {
    hide Ordered, Importable, ExprOf;
    forall x | 0 <= x < |l| ensures L.WfExpr(ProgramOf(l), x) {
      ItemWf(l, x);
    }
  }

  lemma PartYields(l: Listing, it: Item)
    requires Position(l, it) < |l| && l[Position(l, it)] == it && forall y :: 0 <= y < |l| ==> Importable(l[y])
    ensures it.OfExpr? ==> L.Yields(ExprOf(l, it)) && !ExprOf(l, it).kind.Constant?
  {
    hide Position, Importable;
    if it.OfExpr? { ExprYields(l, it.e); }
  }

  lemma ItemWf(l: Listing, x: nat)
    requires Ordered(l) && (forall y :: 0 <= y < |l| ==> Importable(l[y])) && x < |l|
    ensures L.WfExpr(ProgramOf(l), x)
  {
    hide Ordered, ProgramOf, Position;
    forall it | it in Parts(l[x])
      ensures Position(l, it) < x && l[Position(l, it)] == it
      ensures it.OfExpr? ==> L.Yields(ExprOf(l, it)) && !ExprOf(l, it).kind.Constant?
    {
      PartBefore(l, x, it);
      PartYields(l, it);
    }
    if l[x].OfExpr? && l[x].e.Reconstruct? {
      var es := l[x].e.shares;
      assert forall i :: 0 <= i < |es| ==> Parts(l[x])[i] == OfExpr(es[i]);
    }
  }

  // ----- The program is well typed

  /** Parties of the world, polynomials of degree T, share arithmetic, reconstructions from one share per party. */
  ghost predicate ItemTyped(w: World, T: nat, it: Item) {
    match it
    case OfConst(_) => true
    case OfPoly(f) => f.degree == T && Holder(f.constTerm) in w.parties
    case OfExpr(e) =>
      && Holder(e) in w.parties
      && (e.Evaluation? ==> e.at in w.parties)
      && (e.Binary? ==> e.op.ADD? || e.op.SUB? || e.op.MUL?)
      && (e.Reconstruct? ==>
           && |e.shares| == |w.parties| && NoDup(e.shares)
           && forall i, j :: 0 <= i < |e.shares| && 0 <= j < |e.shares| ==> Holder(e.shares[i]) == Holder(e.shares[j]))
  }

  /** The expression is the secret of the sharing, or a value of it at a point. */
  ghost predicate ItemTalks(it: Item, e: Expression) {
    match it
    case OfConst(_) => false
    case OfPoly(f) => e == f.constTerm || (e.Evaluation? && e.poly == f)
    case OfExpr(d) => d.Reconstruct? && (e == d || e in d.shares)
  }

  /** A reconstruction has at most one expression in common with any other sharing. */
  ghost predicate ItemsApart(l: Listing) {
    forall i, j, e, d ::
      (i in l && j in l && i != j && i.OfExpr? && e != d
       && ItemTalks(i, e) && ItemTalks(i, d) && ItemTalks(j, e)) ==> !ItemTalks(j, d)
  }

  function IndexOf(es: seq<Expression>, e: Expression): (i: nat)
    ensures e in es ==> i < |es| && es[i] == e
  {
    if es == [] || es[0] == e then 0 else 1 + IndexOf(es[1..], e)
  }

  /** The point at which expression e is a value of the sharing. */
  function PointOf(w: World, it: Item, e: Expression): int {
    if it.OfPoly? && e.Evaluation? then w.point(e.at)
    else if it.OfExpr? && it.e.Reconstruct? && IndexOf(it.e.shares, e) < |w.parties|
      then w.point(w.parties[IndexOf(it.e.shares, e)])
    else 0
  }

  ghost function SettingOf(w: World, T: nat, l: Listing): B.Setting
    requires w.p > 0
  {
    B.Setting(w.p, T, PartySet(w.parties),
      (a: nat, x: nat) => if a < |l| && x < |l| && l[x].OfExpr? then PointOf(w, l[a], l[x].e) % w.p else 0)
  }

  ghost predicate TypedListing(w: World, T: nat, l: Listing) {
    && WfWorld(w) && T >= 1 && |w.parties| >= 2 * T + 1
    && Ordered(l) && ItemsApart(l) && forall x :: 0 <= x < |l| ==> ItemTyped(w, T, l[x])
  }

  lemma PointsDiffer(w: World, i: nat, j: nat)
    requires WfWorld(w) && i < |w.parties| && j < |w.parties| && i != j
    ensures w.p > 0 && !Cong(w.p, w.point(w.parties[i]), w.point(w.parties[j]))
  {
    var x, y := w.point(w.parties[i]), w.point(w.parties[j]);
    assert w.p > 0 && PointsOf(w)[i] == x && PointsOf(w)[j] == y;
    hide Prime, Cong;
    if i > j && Cong(w.p, x, y) { CongSym(w.p, x, y); }
  }

  lemma WorldParties(w: World)
    requires WfWorld(w)
    ensures w.p > 0 && NoDup(w.parties) && |PartySet(w.parties)| == |w.parties|
  {
    assert w.p > 0;
    hide WfWorld, Cong, PartySet;
    forall i, j | 0 <= i < j < |w.parties| ensures w.parties[i] != w.parties[j] {
      PointsDiffer(w, i, j);
      CongRefl(w.p, w.point(w.parties[i]));
    }
    PartySetSize(w.parties);
  }

  lemma PartyPoints(w: World, i: nat, j: nat)
    requires WfWorld(w) && i < |w.parties| && j < |w.parties|
    ensures w.p > 0 && 0 < w.point(w.parties[i]) % w.p < w.p
    ensures i != j ==> w.point(w.parties[i]) % w.p != w.point(w.parties[j]) % w.p
  {
    var x, y := w.point(w.parties[i]), w.point(w.parties[j]);
    assert w.p > 0 && !Cong(w.p, 0, x);
    hide WfWorld, Cong;
    if x % w.p == 0 { EqualResidues(w.p, 0, x); }
    if i != j {
      PointsDiffer(w, i, j);
      if x % w.p == y % w.p { EqualResidues(w.p, x, y); }
    }
  }

  lemma EqualResidues(p: int, x: int, y: int)
    requires p > 0 && x % p == y % p
    ensures Cong(p, x, y)
  {
    CongMod(p, x);
    CongMod(p, y);
    hide Cong;
    CongSym(p, x % p, x);
    CongTrans(p, x, x % p, y);
  }

  // ----- What the positions of a program talk about

  lemma TakenItems(w: World, T: nat, l: Listing, a: nat, x: nat)
    requires TypedListing(w, T, l) && B.TakenAt(ProgramOf(l), a, x)
    ensures a < |l| && x < |l| && l[x].OfExpr?
    ensures if l[a].OfPoly? then l[x].e.Evaluation? && l[x].e.poly == l[a].f
            else l[a].OfExpr? && l[a].e.Reconstruct? && l[x].e in l[a].e.shares
  {
    hide Ordered, ItemsApart, WfWorld;
    assert ItemTyped(w, T, l[a]) && ItemTyped(w, T, l[x]);
    if l[a].OfPoly? {
      PartListed(l, x, OfPoly(l[x].e.poly));
    } else {
      var es := l[a].e.shares;
      var i :| 0 <= i < |es| && x == Position(l, OfExpr(es[i]));
      assert Parts(l[a])[i] == OfExpr(es[i]);
      PartListed(l, a, OfExpr(es[i]));
    }
  }

  lemma PartListed(l: Listing, x: nat, it: Item)
    requires Ordered(l) && x < |l| && it in Parts(l[x])
    ensures it in l && Position(l, it) < |l| && l[Position(l, it)] == it
  {
    hide Parts, Ordered;
    PartBefore(l, x, it);
  }

  lemma TalksItems(w: World, T: nat, l: Listing, a: nat, x: nat)
    requires TypedListing(w, T, l) && B.Talks(ProgramOf(l), a, x)
    ensures a < |l| && x < |l| && l[x].OfExpr? && ItemTalks(l[a], l[x].e)
  {
    hide Ordered, ItemsApart, WfWorld;
    if B.TakenAt(ProgramOf(l), a, x) {
      TakenItems(w, T, l, a, x);
    } else if l[a].OfPoly? {
      PartListed(l, a, OfExpr(l[a].f.constTerm));
    } else {
      assert ItemTyped(w, T, l[a]);
    }
  }

  // ----- The theorem

  lemma ListingPoints(w: World, T: nat, l: Listing)
    requires TypedListing(w, T, l) && w.p > 0
    ensures B.PointsApart(ProgramOf(l), SettingOf(w, T, l))
  {
    var p, s := ProgramOf(l), SettingOf(w, T, l);
    hide ProgramOf, TypedListing, Ordered, ItemsApart;
    forall a, x | B.TakenAt(p, a, x) ensures 0 < s.point(a, x) < s.q {
      var i := TakenPoint(w, T, l, a, x);
      PartyPoints(w, i, i);
    }
    forall a, x, y | B.TakenAt(p, a, x) && B.TakenAt(p, a, y) && x != y ensures s.point(a, x) != s.point(a, y) {
      var i := TakenPoint(w, T, l, a, x);
      var j := TakenPoint(w, T, l, a, y);
      DifferentPoints(w, T, l, a, x, y, i, j);
      PartyPoints(w, i, j);
    }
  }

  /** The party at whose point a value is taken. */
  lemma TakenPoint(w: World, T: nat, l: Listing, a: nat, x: nat) returns (i: nat)
    requires TypedListing(w, T, l) && B.TakenAt(ProgramOf(l), a, x)
    ensures WfWorld(w) && a < |l| && x < |l| && l[x].OfExpr? && i < |w.parties|
    ensures PointOf(w, l[a], l[x].e) == w.point(w.parties[i])
    ensures if l[a].OfPoly? then l[x].e == Evaluation(l[a].f, w.parties[i])
            else l[a].OfExpr? && l[a].e.Reconstruct? && i < |l[a].e.shares| && l[x].e == l[a].e.shares[i]
  {
    hide Ordered, ItemsApart, WfWorld, ProgramOf;
    TakenItems(w, T, l, a, x);
    assert ItemTyped(w, T, l[a]) && ItemTyped(w, T, l[x]);
    if l[a].OfPoly? {
      i :| 0 <= i < |w.parties| && w.parties[i] == l[x].e.at;
    } else {
      i := IndexOf(l[a].e.shares, l[x].e);
    }
  }

  lemma DifferentPoints(w: World, T: nat, l: Listing, a: nat, x: nat, y: nat, i: nat, j: nat)
    requires TypedListing(w, T, l) && a < |l| && x < |l| && y < |l| && x != y && l[x].OfExpr? && l[y].OfExpr?
    requires i < |w.parties| && j < |w.parties|
    requires if l[a].OfPoly? then l[x].e == Evaluation(l[a].f, w.parties[i])
             else l[a].OfExpr? && l[a].e.Reconstruct? && i < |l[a].e.shares| && l[x].e == l[a].e.shares[i]
    requires if l[a].OfPoly? then l[y].e == Evaluation(l[a].f, w.parties[j])
             else l[a].OfExpr? && l[a].e.Reconstruct? && j < |l[a].e.shares| && l[y].e == l[a].e.shares[j]
    ensures i != j
  {
    hide ItemsApart, WfWorld, Parts;
    assert l[x] != l[y];
    assert l[x] == OfExpr(l[x].e) && l[y] == OfExpr(l[y].e);
  }

  lemma ListingApart(w: World, T: nat, l: Listing)
    requires TypedListing(w, T, l)
    ensures B.ReconstructionsApart(ProgramOf(l))
  {
    var p := ProgramOf(l);
    forall a, b, x, y | B.Reconstructs(p, a) && a != b && x != y && B.Talks(p, a, x) && B.Talks(p, a, y)
        && B.Talks(p, b, x)
      ensures !B.Talks(p, b, y)
    {
      if B.Talks(p, b, y) { ApartItems(w, T, l, a, b, x, y); }
    }
  }

  lemma ApartItems(w: World, T: nat, l: Listing, a: nat, b: nat, x: nat, y: nat)
    requires TypedListing(w, T, l) && B.Reconstructs(ProgramOf(l), a) && a != b && x != y
    requires B.Talks(ProgramOf(l), a, x) && B.Talks(ProgramOf(l), a, y) && B.Talks(ProgramOf(l), b, x)
    ensures !B.Talks(ProgramOf(l), b, y)
  {
    hide WfWorld, B.Talks, Parts, ItemTalks;
    TalksItems(w, T, l, a, x);
    TalksItems(w, T, l, a, y);
    TalksItems(w, T, l, b, x);
    if B.Talks(ProgramOf(l), b, y) { TalksItems(w, T, l, b, y); }
    assert ItemTyped(w, T, l[a]);
    assert l[a] != l[b] && l[x] != l[y];
    assert l[x] == OfExpr(l[x].e) && l[y] == OfExpr(l[y].e) && l[a] in l && l[b] in l;
  }

  lemma ArityOfTwo(p: L.Program, x: nat, y: nat)
    requires B.IsNode(p, x)
    ensures B.Arity(p, [x]) == 1
    ensures B.Arity(p, [x, y]) == if B.IsNode(p, y) || y >= |p| then 2 else 1
  {
    assert [x, y][..1] == [x] && [x][..0] == [];
  }

  lemma ExprParty(l: Listing, e: Expression)
    ensures ExprOf(l, OfExpr(e)).party == Holder(e)
  {
  }

  /** The operands of a listed expression are nodes of the program, constants are none. */
  lemma PartNode(w: World, T: nat, l: Listing, x: nat, it: Item)
    requires TypedListing(w, T, l) && x < |l| && it in Parts(l[x])
    ensures it in l && Position(l, it) < |l| && l[Position(l, it)] == it
    ensures it.OfExpr? ==>
      B.IsNode(ProgramOf(l), Position(l, it)) && ProgramOf(l)[Position(l, it)].party == Holder(it.e)
    ensures it.OfConst? ==> !B.IsNode(ProgramOf(l), Position(l, it))
  {
    hide ItemsApart, WfWorld, Ordered, Parts;
    PartListed(l, x, it);
    if it.OfExpr? { ExprParty(l, it.e); }
  }

  lemma ReconstructTyped(w: World, T: nat, l: Listing, x: nat)
    requires TypedListing(w, T, l) && x < |l| && l[x].OfExpr? && l[x].e.Reconstruct?
    ensures var p, operands := ProgramOf(l), ProgramOf(l)[x].operands;
      && |operands| == |w.parties| && NoDup(operands)
      && (forall i :: 0 <= i < |operands| ==> B.IsNode(p, operands[i]))
      && (forall i, j :: 0 <= i < |operands| && 0 <= j < |operands| ==> p[operands[i]].party == p[operands[j]].party)
  {
    assert ItemTyped(w, T, l[x]);
    var es, p := l[x].e.shares, ProgramOf(l);
    hide TypedListing, B.IsNode;
    forall i | 0 <= i < |es|
      ensures var y := p[x].operands[i];
        y < |l| && l[y] == OfExpr(es[i]) && B.IsNode(p, y) && p[y].party == Holder(es[i])
    {
      assert Parts(l[x])[i] == OfExpr(es[i]);
      PartNode(w, T, l, x, OfExpr(es[i]));
    }
  }

  lemma ItemExprTyped(w: World, T: nat, l: Listing, x: nat)
    requires TypedListing(w, T, l) && w.p > 0 && x < |l| && |PartySet(w.parties)| == |w.parties|
    ensures B.ExprTyped(ProgramOf(l), SettingOf(w, T, l), x)
  {
    assert ItemTyped(w, T, l[x]);
    var p := ProgramOf(l);
    hide TypedListing, B.IsNode, B.Arity, Position, SettingOf;
    match l[x]
    case OfConst(_) =>
    case OfPoly(f) =>
      PartNode(w, T, l, x, OfExpr(f.constTerm));
      SettingParts(w, T, l);
    case OfExpr(e) =>
      SettingParts(w, T, l);
      OperandsTyped(w, T, l, x);
  }

  lemma SettingParts(w: World, T: nat, l: Listing)
    requires w.p > 0
    ensures SettingOf(w, T, l).T == T && SettingOf(w, T, l).parties == PartySet(w.parties)
  {
  }

  lemma OperandsTyped(w: World, T: nat, l: Listing, x: nat)
    requires TypedListing(w, T, l) && w.p > 0 && x < |l| && l[x].OfExpr? && |PartySet(w.parties)| == |w.parties|
    ensures B.ExprTyped(ProgramOf(l), SettingOf(w, T, l), x)
  {
    assert ItemTyped(w, T, l[x]);
    var e := l[x].e;
    SettingParts(w, T, l);
    ExprParty(l, e);
    hide TypedListing, B.IsNode, B.Arity, Position, SettingOf;
    OperandsArity(w, T, l, x);
    if e.Reconstruct? { ReconstructTyped(w, T, l, x); }
  }

  lemma OperandsArity(w: World, T: nat, l: Listing, x: nat)
    requires TypedListing(w, T, l) && x < |l| && l[x].OfExpr?
    ensures l[x].e.Transit? || l[x].e.Scaled? ==> B.Arity(ProgramOf(l), ProgramOf(l)[x].operands) == 1
    ensures l[x].e.Binary? ==> B.Arity(ProgramOf(l), ProgramOf(l)[x].operands) == 2
  {
    hide TypedListing, B.IsNode, B.Arity, Position, ProgramOf;
    var p, it := ProgramOf(l), l[x];
    if it.e.Transit? {
      NodePart(w, T, l, x, it.e.source);
      ArityOfTwo(p, Position(l, OfExpr(it.e.source)), 0);
    } else if it.e.Binary? {
      NodePart(w, T, l, x, it.e.a);
      NodePart(w, T, l, x, it.e.b);
      ArityOfTwo(p, Position(l, OfExpr(it.e.a)), Position(l, OfExpr(it.e.b)));
    } else if it.e.Scaled? {
      NodePart(w, T, l, x, it.e.e);
      PartNode(w, T, l, x, OfConst(it.e.c));
      ArityOfTwo(p, Position(l, OfExpr(it.e.e)), Position(l, OfConst(it.e.c)));
    }
  }

  lemma NodePart(w: World, T: nat, l: Listing, x: nat, e: Expression)
    requires TypedListing(w, T, l) && x < |l| && OfExpr(e) in Parts(l[x])
    ensures B.IsNode(ProgramOf(l), Position(l, OfExpr(e)))
  {
    hide TypedListing, B.IsNode, Position, ProgramOf, Parts;
    PartNode(w, T, l, x, OfExpr(e));
  }

  /** The program of a typed listing is well typed, over the field and the points of the world. */
  lemma ListingTyped(w: World, T: nat, l: Listing)
    requires TypedListing(w, T, l)
    ensures w.p > 0 && B.WellTyped(ProgramOf(l), SettingOf(w, T, l))
  {
    WorldParties(w);
    assert Prime(w.p);
    forall x | 0 <= x < |l| ensures Importable(l[x]) { assert ItemTyped(w, T, l[x]); }
    ListingWf(l);
    hide WfWorld, Ordered, ItemsApart, ItemTyped, B.ExprTyped, B.PointsApart, B.ReconstructionsApart, Importable;
    hide L.WfExpr;
    forall x | 0 <= x < |l| ensures B.ExprTyped(ProgramOf(l), SettingOf(w, T, l), x) { ItemExprTyped(w, T, l, x); }
    ListingPoints(w, T, l);
    ListingApart(w, T, l);
  }
}
