// What expressions are made of: their parts at any depth, the polynomials among them, and how
// deep they are nested.
module Subterms {
  import opened Graphs
  import opened Expressions
  import opened Bgw
  import opened BgwCorrectness
  import opened FrontendPrograms
  import opened CircuitPrograms

  /** The item is the expression or one of its parts, at any depth. */
  predicate Inside(it: Item, e: Expression)
    decreases e
  {
    it == OfExpr(e) ||
    match e
    case Secret(_, _) => false
    case Given(_, _) => false
    case Evaluation(f, _) => it == OfPoly(f) || Inside(it, f.constTerm)
    case Transit(a, _) => Inside(it, a)
    case Binary(_, a, b) => Inside(it, a) || Inside(it, b)
    case Scaled(a, c) => it == OfConst(c) || Inside(it, a)
    case Reconstruct(es, _) => exists i :: 0 <= i < |es| && Inside(it, es[i])
  }

  /** A listing adds only what is inside. */
  lemma {:induction false} ListInside(l: Listing, e: Expression, it: Item)
    requires it in List(l, e)
    ensures it in l || Inside(it, e)
    decreases e, 0
  {
    if it !in l && it != OfExpr(e) {
      match e
      case Secret(_, _) =>
      case Given(_, _) =>
      case Evaluation(f, _) => if it != OfPoly(f) { ListInside(l, f.constTerm, it); }
      case Transit(a, _) => ListInside(l, a, it);
      case Binary(_, a, b) =>
        ListInside(List(l, a), b, it);
        if it in List(l, a) { ListInside(l, a, it); }
      case Scaled(a, c) => if it != OfConst(c) { ListInside(l, a, it); }
      case Reconstruct(es, _) =>
        var i := ListAllInside(l, es, |es|, it);
    }
  }

  lemma {:induction false} ListAllInside(l: Listing, es: seq<Expression>, k: nat, it: Item) returns (i: nat)
    requires k <= |es| && it in ListAll(l, es, k) && it !in l
    ensures i < k && Inside(it, es[i])
    decreases es, k
  {
    if it in ListAll(l, es, k - 1) {
      i := ListAllInside(l, es, k - 1, it);
    } else {
      i := k - 1;
      ListInside(ListAll(l, es, k - 1), es[k - 1], it);
    }
  }

  /** The parts of what is inside are inside. */
  lemma {:induction false} PartInside(it: Item, d: Item, e: Expression)
    requires Inside(d, e) && it in Parts(d)
    ensures Inside(it, e)
    decreases e
  {
    if d == OfExpr(e) {
      match e
      case Reconstruct(es, _) =>
        var i :| 0 <= i < |es| && it == OfExpr(es[i]);
        assert Inside(it, es[i]);
      case _ =>
    } else {
      match e
      case Evaluation(f, _) => if d != OfPoly(f) { PartInside(it, d, f.constTerm); }
      case Transit(a, _) => PartInside(it, d, a);
      case Binary(_, a, b) => if Inside(d, a) { PartInside(it, d, a); } else { PartInside(it, d, b); }
      case Scaled(a, c) => if d != OfConst(c) { PartInside(it, d, a); }
      case Reconstruct(es, _) =>
        var i :| 0 <= i < |es| && Inside(d, es[i]);
        PartInside(it, d, es[i]);
    }
  }

  lemma {:induction false} InsideTransitive(it: Item, d: Expression, e: Expression)
    requires Inside(it, d) && Inside(OfExpr(d), e)
    ensures Inside(it, e)
    decreases e
  {
    if d != e {
      match e
      case Evaluation(f, _) => InsideTransitive(it, d, f.constTerm);
      case Transit(a, _) => InsideTransitive(it, d, a);
      case Binary(_, a, b) =>
        if Inside(OfExpr(d), a) { InsideTransitive(it, d, a); } else { InsideTransitive(it, d, b); }
      case Scaled(a, _) => InsideTransitive(it, d, a);
      case Reconstruct(es, _) =>
        var i :| 0 <= i < |es| && Inside(OfExpr(d), es[i]);
        InsideTransitive(it, d, es[i]);
    }
  }

  // ----- Polynomials

  /** The polynomials inside have numbers below k. */
  predicate PolysBelow(e: Expression, k: nat) {
    match e
    case Secret(_, _) => true
    case Given(_, _) => true
    case Evaluation(Poly(id, a, _), _) => id < k && PolysBelow(a, k)
    case Transit(a, _) => PolysBelow(a, k)
    case Binary(_, a, b) => PolysBelow(a, k) && PolysBelow(b, k)
    case Scaled(a, _) => PolysBelow(a, k)
    case Reconstruct(es, _) => forall i :: 0 <= i < |es| ==> PolysBelow(es[i], k)
  }

  lemma {:induction false} PolyInside(f: Poly, e: Expression, k: nat)
    requires Inside(OfPoly(f), e) && PolysBelow(e, k)
    ensures f.id < k
    decreases e
  {
    match e
    case Evaluation(h, _) => if f != h { PolyInside(f, h.constTerm, k); }
    case Transit(a, _) => PolyInside(f, a, k);
    case Binary(_, a, b) => if Inside(OfPoly(f), a) { PolyInside(f, a, k); } else { PolyInside(f, b, k); }
    case Scaled(a, _) => PolyInside(f, a, k);
    case Reconstruct(es, _) =>
      var i :| 0 <= i < |es| && Inside(OfPoly(f), es[i]);
      PolyInside(f, es[i], k);
  }

  lemma {:induction false} PolysMore(e: Expression, k: nat, m: nat)
    requires PolysBelow(e, k) && k <= m
    ensures PolysBelow(e, m)
    decreases e
  {
    match e
    case Secret(_, _) =>
    case Given(_, _) =>
    case Evaluation(h, _) => PolysMore(h.constTerm, k, m);
    case Transit(a, _) => PolysMore(a, k, m);
    case Binary(_, a, b) =>
      PolysMore(a, k, m);
      PolysMore(b, k, m);
    case Scaled(a, _) => PolysMore(a, k, m);
    case Reconstruct(es, _) =>
      forall i | 0 <= i < |es| ensures PolysBelow(es[i], m) { PolysMore(es[i], k, m); }
  }

  // ----- Nesting

  /** How deep operations are nested, sharing and sending aside. */
  function Level(e: Expression): nat {
    match e
    case Secret(_, _) => 0
    case Given(_, _) => 0
    case Evaluation(Poly(_, a, _), _) => Level(a)
    case Transit(a, _) => Level(a)
    case Binary(_, a, b) => 1 + if Level(a) > Level(b) then Level(a) else Level(b)
    case Scaled(a, _) => 1 + Level(a)
    case Reconstruct(_, _) => 0
  }

  lemma {:induction false} LevelInside(w: World, T: nat, d: Expression, e: Expression)
    requires Inside(OfExpr(d), e) && Sound(w, T, e)
    ensures Level(d) <= Level(e)
    decreases e
  {
    if d != e {
      match e
      case Evaluation(h, _) => LevelInside(w, T, d, h.constTerm);
      case Transit(a, _) => LevelInside(w, T, d, a);
      case Binary(_, a, b) =>
        if Inside(OfExpr(d), a) { LevelInside(w, T, d, a); } else { LevelInside(w, T, d, b); }
      case Scaled(a, _) => LevelInside(w, T, d, a);
    }
  }

  // ----- Shares

  /** All shares are nested alike, and their polynomials have numbers below k. */
  ghost predicate Alike(shares: seq<Expression>, level: nat, k: nat) {
    forall j :: 0 <= j < |shares| ==> Level(shares[j]) == level && PolysBelow(shares[j], k)
  }

  lemma DealtAlike(parties: seq<Party>, T: nat, id: nat, s: Expression, k: nat)
    requires PolysBelow(s, k) && id < k
    ensures Alike(SharingOf(parties, T, id, s), Level(s), k)
  {
  }

  lemma ScaledAlike(l: seq<Expression>, c: Constant, level: nat, k: nat)
    requires Alike(l, level, k)
    ensures Alike(ScaledShares(l, c), level + 1, k)
  {
  }

  lemma SumAlike(l: seq<Expression>, r: seq<Expression>, v: nat, u: nat, k: nat)
    requires |l| == |r| && Alike(l, v, k) && Alike(r, u, k)
    requires forall j :: 0 <= j < |l| ==> Holder(l[j]) == Holder(r[j])
    ensures SumUpTo(l, r, |l|).Ok? && Alike(SumUpTo(l, r, |l|).value, 1 + if v > u then v else u, k)
  {
    hide SumUpTo;
    SumSucceeds(l, r, |l|);
  }

  lemma AlikeMore(l: seq<Expression>, v: nat, k: nat, m: nat)
    requires Alike(l, v, k) && k <= m
    ensures Alike(l, v, m)
  {
    forall j | 0 <= j < |l| ensures PolysBelow(l[j], m) { PolysMore(l[j], k, m); }
  }
}
