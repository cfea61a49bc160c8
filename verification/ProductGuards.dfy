// The guard of the sharing rewriters on the graph built for a product: every local product is
// dealt to all parties, so it is accepted.
module ProductGuards {
  import opened Graphs
  import opened Counters
  import opened Patterns
  import opened SharingTransformers
  import opened Expressions
  import opened Results
  import opened Bgw
  import opened BgwCorrectness
  import opened FrontendPrograms
  import opened CircuitPrograms
  import opened Subterms
  import opened ProductMatches
  import I = ImportSteps
  import L = Lowering
  import B = BuiltProtocols
  import M = BuiltMatches

  // ----- What positions say about items

  lemma PositionOf(l: Listing, x: nat, it: Item)
    requires Ordered(l) && x < |l| && it in l && Position(l, it) == x
    ensures l[x] == it
  {
  }

  /** The operands of a listed item are its parts. */
  lemma OperandPart(w: World, T: nat, l: Listing, z: nat, it: Item)
    requires TypedListing(w, T, l) && it in l && z < |l| && M.OperandOf(ProgramOf(l), z, Position(l, it))
    ensures it in Parts(l[z])
  {
    hide ItemsApart, WfWorld, Ordered, Parts;
    assert ItemTyped(w, T, l[z]);
    var i :| 0 <= i < |ProgramOf(l)[z].operands| && ProgramOf(l)[z].operands[i] == Position(l, it);
    var part := OperandItem(w, T, l, z, i);
    PositionOf(l, Position(l, it), it);
  }

  lemma OperandItem(w: World, T: nat, l: Listing, z: nat, i: nat) returns (part: Item)
    requires TypedListing(w, T, l) && z < |l| && L.Simple(ProgramOf(l)[z].op) && i < |ProgramOf(l)[z].operands|
    ensures part in Parts(l[z]) && part in l && ProgramOf(l)[z].operands[i] == Position(l, part) < |l|
    ensures l[Position(l, part)] == part
  {
    hide ItemsApart, WfWorld, Ordered;
    assert ItemTyped(w, T, l[z]);
    part := Parts(l[z])[i];
    PartListed(l, z, part);
  }

  lemma EvaluatesItem(w: World, T: nat, l: Listing, z: nat, f: Poly)
    requires TypedListing(w, T, l) && OfPoly(f) in l && z < |l| && M.EvalOf(ProgramOf(l), z, Position(l, OfPoly(f)))
    ensures l[z].OfExpr? && l[z].e.Evaluation? && l[z].e.poly == f
  {
    hide ItemsApart, WfWorld, Ordered;
    assert ItemTyped(w, T, l[z]);
    PositionOf(l, Position(l, OfPoly(f)), OfPoly(f));
    PartListed(l, z, OfPoly(l[z].e.poly));
  }

  lemma TermItem(w: World, T: nat, l: Listing, h: nat, it: Item)
    requires TypedListing(w, T, l) && it in l && M.TermOf(ProgramOf(l), h, Position(l, it))
    ensures h < |l| && l[h].OfPoly? && it == OfExpr(l[h].f.constTerm) && it in Parts(l[h])
  {
    hide ItemsApart, WfWorld, Ordered;
    assert ItemTyped(w, T, l[h]);
    PositionOf(l, Position(l, it), it);
    PartListed(l, h, OfExpr(l[h].f.constTerm));
  }

  // ----- What is lowered

  /** With an item all its parts are lowered, constants excepted. */
  lemma PartReached(w: World, T: nat, l: Listing, s: L.State, x: nat, it: Item)
    requires TypedListing(w, T, l) && L.Wf(ProgramOf(l), s) && x < |l| && x in s.memo && it in Parts(l[x])
    requires !it.OfConst?
    ensures it in l && Position(l, it) in s.memo
  {
    hide ItemsApart, WfWorld, Ordered, L.ListsOk, L.Owned, L.Payload, L.SourceNodes;
    assert ItemTyped(w, T, l[x]) && L.Mirrored(ProgramOf(l), s, x);
    PartNode(w, T, l, x, it);
    var k :| 0 <= k < |Parts(l[x])| && Parts(l[x])[k] == it;
    OperandAt(w, T, l, x, k);
  }

  /** Part k of an operation is operand k, the part of an evaluation its polynomial, that of a polynomial its secret. */
  lemma OperandAt(w: World, T: nat, l: Listing, x: nat, k: nat)
    requires TypedListing(w, T, l) && x < |l| && k < |Parts(l[x])|
    ensures var e, y := ProgramOf(l)[x], Position(l, Parts(l[x])[k]);
      if e.op.POLILIZE? then e.kind.Polynomial? && e.kind.constTerm == y else k < |e.operands| && e.operands[k] == y
    ensures ProgramOf(l)[x].op.POLILIZE? <==> l[x].OfPoly?
    ensures ProgramOf(l)[x].op.EVAL? <==> l[x].OfExpr? && l[x].e.Evaluation?
  {
    assert ItemTyped(w, T, l[x]);
    hide TypedListing, Position;
  }

  /** Everything inside a lowered expression is lowered. */
  lemma {:induction false} InsideReached(w: World, T: nat, l: Listing, s: L.State, e: Expression, it: Item)
    requires TypedListing(w, T, l) && L.Wf(ProgramOf(l), s) && OfExpr(e) in l && Position(l, OfExpr(e)) in s.memo
    requires Inside(it, e) && !it.OfConst?
    ensures it in l && Position(l, it) in s.memo
    decreases e
  {
    hide TypedListing, L.Wf, Position;
    var x := Position(l, OfExpr(e));
    if it != OfExpr(e) {
      match e
      case Evaluation(f, _) =>
        StepReached(w, T, l, s, OfExpr(e), OfPoly(f));
        if it != OfPoly(f) {
          StepReached(w, T, l, s, OfPoly(f), OfExpr(f.constTerm));
          InsideReached(w, T, l, s, f.constTerm, it);
        }
      case Transit(a, _) =>
        StepReached(w, T, l, s, OfExpr(e), OfExpr(a));
        InsideReached(w, T, l, s, a, it);
      case Binary(_, a, b) =>
        StepReached(w, T, l, s, OfExpr(e), OfExpr(a));
        StepReached(w, T, l, s, OfExpr(e), OfExpr(b));
        InsideReached(w, T, l, s, if Inside(it, a) then a else b, it);
      case Scaled(a, _) =>
        StepReached(w, T, l, s, OfExpr(e), OfExpr(a));
        InsideReached(w, T, l, s, a, it);
      case Reconstruct(es, _) =>
        var i :| 0 <= i < |es| && Inside(it, es[i]);
        assert Parts(OfExpr(e))[i] == OfExpr(es[i]);
        StepReached(w, T, l, s, OfExpr(e), OfExpr(es[i]));
        InsideReached(w, T, l, s, es[i], it);
    }
  }

  lemma StepReached(w: World, T: nat, l: Listing, s: L.State, d: Item, it: Item)
    requires TypedListing(w, T, l) && L.Wf(ProgramOf(l), s) && d in l && Position(l, d) in s.memo
    requires it in Parts(d) && !it.OfConst?
    ensures it in l && Position(l, it) in s.memo
  {
    hide TypedListing, L.Wf, Parts;
    PartReached(w, T, l, s, Position(l, d), it);
  }

  // ----- The product

  ghost predicate ProductSetting(w: World, T: nat, id: nat, l: seq<Expression>, r: seq<Expression>, v: nat, u: nat,
                                 to: Party)
  {
    WfWorld(w) && T >= 1 && |w.parties| >= 2 * T + 1 && Factors(w, T, id, l, r, v, u) && to in w.parties
  }

  /** The shares of the product, and what they yield. */
  function ProductShares(w: World, T: nat, id: nat, m: nat, l: seq<Expression>, r: seq<Expression>): seq<Expression>
    requires |l| == |r| == |w.parties|
  {
    match ProductUpTo(w.parties, T, id, m, l, r, |l|)
    case Ok(shares) => shares
    case Err(_) => []
  }

  lemma ProductTyped(w: World, T: nat, id: nat, m: nat, l: seq<Expression>, r: seq<Expression>, v: nat, u: nat,
                     to: Party)
    requires ProductSetting(w, T, id, l, r, v, u, to)
    ensures |l| == |r| == |w.parties| > 0 && ProductUpTo(w.parties, T, id, m, l, r, |l|).Ok?
    ensures SoundShares(w, T, l) && SoundShares(w, T, r) && SoundShares(w, T, ProductShares(w, T, id, m, l, r))
    ensures TypedListing(w, T, YieldListing(ProductShares(w, T, id, m, l, r), to))
  {
    hide Sound, Alike, WfWorld, TypedListing, YieldListing, ProductUpTo;
    ProductSound(w, T, id, m, l, r, |l|);
    YieldTyped(w, T, ProductShares(w, T, id, m, l, r), to);
  }

  lemma {:induction false} TermInShare(w: World, T: nat, id: nat, m: nat, l: seq<Expression>, r: seq<Expression>,
                                       n: nat, i: nat, j: nat)
    requires SoundShares(w, T, l) && SoundShares(w, T, r) && i < n <= |l| == |r| && j < |w.parties|
    requires ProductUpTo(w.parties, T, id, m, l, r, n).Ok? && j < |ProductUpTo(w.parties, T, id, m, l, r, n).value|
    ensures Inside(OfExpr(Term(w, T, id, m, l, r, i, j)), ProductUpTo(w.parties, T, id, m, l, r, n).value[j])
  {
    hide SoundShares, ProductUpTo, Term;
    ProductShare(w, T, id, m, l, r, n, j);
    if i == n - 1 {
      assert Inside(OfExpr(Term(w, T, id, m, l, r, i, j)), Term(w, T, id, m, l, r, n - 1, j));
    } else {
      TermInShare(w, T, id, m, l, r, n - 1, i, j);
    }
  }

  /** The evaluations of the resharings are lowered, sent or not, and so are their polynomials and local products. */
  lemma ResharingReached(w: World, T: nat, id: nat, m: nat, l: seq<Expression>, r: seq<Expression>, v: nat, u: nat,
                         to: Party, s: L.State, i: nat, j: nat)
    requires ProductSetting(w, T, id, l, r, v, u, to) && i < |l| == |r| && j < |w.parties| && |w.parties| == |l|
    requires var li := YieldListing(ProductShares(w, T, id, m, l, r), to);
      && L.Wf(ProgramOf(li), s)
      && Position(li, OfExpr(Reconstruct(SentTo(ProductShares(w, T, id, m, l, r), to), to))) in s.memo
    ensures var li := YieldListing(ProductShares(w, T, id, m, l, r), to);
      var f, q := Resharing(T, id, l, r, i), w.parties[j];
      && (forall it :: it in {OfExpr(Evaluation(f, q)), OfPoly(f), OfExpr(Local(l, r, i))} ==>
           it in li && Position(li, it) in s.memo)
      && (Holder(Local(l, r, i)) != q ==>
           OfExpr(Transit(Evaluation(f, q), q)) in li && Position(li, OfExpr(Transit(Evaluation(f, q), q))) in s.memo)
  {
    hide ProductSetting, TypedListing, YieldListing, Position, L.Wf, SoundShares, ProductUpTo;
    ProductTyped(w, T, id, m, l, r, v, u, to);
    var shares := ProductShares(w, T, id, m, l, r);
    var li, top := YieldListing(shares, to), Reconstruct(SentTo(shares, to), to);
    var f, q := Resharing(T, id, l, r, i), w.parties[j];
    var term := Term(w, T, id, m, l, r, i, j);
    assert |shares| == |w.parties| by { SharesSize(w, T, shares); }
    TermInShare(w, T, id, m, l, r, |l|, i, j);
    ShareInTop(shares, to, j);
    InsideTransitive(OfExpr(term), shares[j], top);
    assert OfExpr(top) in li by { TopListed(shares, to); }
    InTerm(w, T, id, m, l, r, i, j);
    forall it | it in {OfExpr(Evaluation(f, q)), OfPoly(f), OfExpr(Local(l, r, i))} ||
      (Holder(Local(l, r, i)) != q && it == OfExpr(Transit(Evaluation(f, q), q)))
      ensures it in li && Position(li, it) in s.memo
    {
      InsideTransitive(it, term, top);
      InsideReached(w, T, li, s, top, it);
    }
  }

  lemma TopListed(shares: seq<Expression>, to: Party)
    ensures OfExpr(Reconstruct(SentTo(shares, to), to)) in YieldListing(shares, to)
  {
  }

  lemma ShareInTop(shares: seq<Expression>, to: Party, j: nat)
    requires j < |shares|
    ensures Inside(OfExpr(shares[j]), Reconstruct(SentTo(shares, to), to))
  {
    var es := SentTo(shares, to);
    assert Inside(OfExpr(shares[j]), shares[j]);
    assert Inside(OfExpr(shares[j]), es[j]);
  }

  lemma InTerm(w: World, T: nat, id: nat, m: nat, l: seq<Expression>, r: seq<Expression>, i: nat, j: nat)
    requires i < |l| && i < |r| && j < |w.parties|
    ensures var f, q, term := Resharing(T, id, l, r, i), w.parties[j], Term(w, T, id, m, l, r, i, j);
      && Inside(OfExpr(Evaluation(f, q)), term) && Inside(OfPoly(f), term) && Inside(OfExpr(Local(l, r, i)), term)
      && (Holder(Local(l, r, i)) != q ==> Inside(OfExpr(Transit(Evaluation(f, q), q)), term))
  {
    var f, q := Resharing(T, id, l, r, i), w.parties[j];
    var d := Evaluation(f, q);
    assert Inside(OfExpr(d), d) && Inside(OfPoly(f), d);
    assert Inside(OfExpr(Local(l, r, i)), Local(l, r, i)) && Inside(OfExpr(Local(l, r, i)), d);
    assert forall it :: Inside(it, d) ==> Inside(it, Transfer(d, q));
  }

  // ----- The local products are dealt to all parties

  /** The evaluations of the i-th resharing, by party. */
  function EvaluationsOf(w: World, T: nat, id: nat, l: seq<Expression>, r: seq<Expression>, li: Listing, i: nat)
    : (xs: seq<nat>)
    requires i < |l| && i < |r|
    ensures |xs| == |w.parties|
  {
    seq(|w.parties|, j requires 0 <= j < |w.parties| =>
      Position(li, OfExpr(Evaluation(Resharing(T, id, l, r, i), w.parties[j]))))
  }

  /** A lowered product: everything it is made of is in the listing and in the memo. */
  ghost predicate ProductLowered(w: World, T: nat, id: nat, m: nat, l: seq<Expression>, r: seq<Expression>, v: nat,
                                 u: nat, to: Party, s: L.State)
  {
    && ProductSetting(w, T, id, l, r, v, u, to) && |l| == |r| == |w.parties|
    && var li := YieldListing(ProductShares(w, T, id, m, l, r), to);
       && L.Wf(ProgramOf(li), s)
       && Position(li, OfExpr(Reconstruct(SentTo(ProductShares(w, T, id, m, l, r), to), to))) in s.memo
  }

  /** Who uses a new item of the product. */
  lemma NewUser(w: World, T: nat, id: nat, m: nat, l: seq<Expression>, r: seq<Expression>, v: nat, u: nat, to: Party,
                x: Item, it: Item) returns (i: nat, j: nat)
    requires ProductSetting(w, T, id, l, r, v, u, to) && |l| == |r| == |w.parties| && Fresh(l, r, x)
    requires x.OfExpr? ==> !x.e.Transit?
    requires it in YieldListing(ProductShares(w, T, id, m, l, r), to) && x in Parts(it)
    ensures i < |l| && j < |w.parties| && UsedIn(w, T, id, m, l, r, i, j, x, it)
  {
    hide ProductSetting, Fresh, ProductUpTo, UsedIn, YieldListing, Parts;
    ProductTyped(w, T, id, m, l, r, v, u, to);
    i, j := ListingUser(w, T, id, m, l, r, to, x, it);
  }

  /** The local product is used by its resharing only. */
  lemma LocalUser(w: World, T: nat, id: nat, m: nat, l: seq<Expression>, r: seq<Expression>, v: nat, u: nat, to: Party,
                  i: nat, it: Item)
    requires ProductSetting(w, T, id, l, r, v, u, to) && i < |l| == |r| == |w.parties|
    requires it in YieldListing(ProductShares(w, T, id, m, l, r), to) && OfExpr(Local(l, r, i)) in Parts(it)
    ensures it == OfPoly(Resharing(T, id, l, r, i))
  {
    LocalIsFresh(w, T, id, l, r, v, u, i);
    hide ProductSetting, YieldListing, Fresh, Parts;
    var k, j := NewUser(w, T, id, m, l, r, v, u, to, OfExpr(Local(l, r, i)), it);
    ResharingsApart(w, T, id, l, r, v, u, i, k) by { SettingFactors(w, T, id, l, r, v, u, to); }
  }

  lemma SettingFactors(w: World, T: nat, id: nat, l: seq<Expression>, r: seq<Expression>, v: nat, u: nat, to: Party)
    requires ProductSetting(w, T, id, l, r, v, u, to)
    ensures Factors(w, T, id, l, r, v, u) && NoDup(w.parties) && WfWorld(w) && to in w.parties
  {
    hide WfWorld, SoundShares, Alike;
  }

  /** The polynomial of a resharing is evaluated for the parties. */
  lemma PolyUser(w: World, T: nat, id: nat, m: nat, l: seq<Expression>, r: seq<Expression>, v: nat, u: nat, to: Party,
                 i: nat, it: Item) returns (j: nat)
    requires ProductSetting(w, T, id, l, r, v, u, to) && i < |l| == |r| == |w.parties|
    requires it in YieldListing(ProductShares(w, T, id, m, l, r), to) && OfPoly(Resharing(T, id, l, r, i)) in Parts(it)
    ensures j < |w.parties| && it == OfExpr(Evaluation(Resharing(T, id, l, r, i), w.parties[j]))
  {
    PolyIsFresh(w, T, id, l, r, v, u, i);
    hide ProductSetting, YieldListing, Fresh, Parts;
    var k;
    k, j := NewUser(w, T, id, m, l, r, v, u, to, OfPoly(Resharing(T, id, l, r, i)), it);
    ResharingsApart(w, T, id, l, r, v, u, i, k) by { SettingFactors(w, T, id, l, r, v, u, to); }
  }

  /** An evaluation of a resharing is sent to its party, and used for nothing else unless it is the dealer's own. */
  lemma EvaluationUser(w: World, T: nat, id: nat, m: nat, l: seq<Expression>, r: seq<Expression>, v: nat, u: nat,
                       to: Party,
                       i: nat, q: Party, it: Item)
    requires ProductSetting(w, T, id, l, r, v, u, to) && i < |l| == |r| == |w.parties|
    requires it in YieldListing(ProductShares(w, T, id, m, l, r), to)
    requires OfExpr(Evaluation(Resharing(T, id, l, r, i), q)) in Parts(it)
    ensures Holder(Local(l, r, i)) != q ==> it == OfExpr(Transit(Evaluation(Resharing(T, id, l, r, i), q), q))
    ensures Holder(Local(l, r, i)) == q ==> it.OfExpr? && !it.e.Transit?
  {
    EvaluationIsFresh(w, T, id, l, r, v, u, i, q);
    hide ProductSetting, YieldListing, Fresh, Parts;
    var k, j := NewUser(w, T, id, m, l, r, v, u, to, OfExpr(Evaluation(Resharing(T, id, l, r, i), q)), it);
    ResharingsApart(w, T, id, l, r, v, u, i, k) by { SettingFactors(w, T, id, l, r, v, u, to); }
  }

  lemma ResharingEnds(w: World, T: nat, id: nat, m: nat, l: seq<Expression>, r: seq<Expression>, v: nat, u: nat,
                      to: Party, s: L.State, i: nat, j: nat)
    requires ProductLowered(w, T, id, m, l, r, v, u, to, s) && i < |l| && j < |w.parties|
    ensures var li := YieldListing(ProductShares(w, T, id, m, l, r), to);
      M.EndsAt(ProgramOf(li), s, EvaluationsOf(w, T, id, l, r, li, i)[j], w.parties[j])
  {
    hide ProductSetting, TypedListing, YieldListing, L.Wf, SoundShares, ProductUpTo, Position;
    ProductTyped(w, T, id, m, l, r, v, u, to);
    var li := YieldListing(ProductShares(w, T, id, m, l, r), to);
    var p, f, q := ProgramOf(li), Resharing(T, id, l, r, i), w.parties[j];
    var d := Evaluation(f, q);
    ResharingReached(w, T, id, m, l, r, v, u, to, s, i, j);
    var x := Position(li, OfExpr(d));
    MemoListed(w, T, li, s);
    if Holder(d) != q {
      var y := Position(li, OfExpr(Transit(d, q)));
      forall z | z in s.memo && M.OperandOf(p, z, x) ensures z == y {
        OperandPart(w, T, li, z, OfExpr(d));
        EvaluationUser(w, T, id, m, l, r, v, u, to, i, q, li[z]);
        PositionBack(w, T, li, z);
      }
      assert M.UsedOnlyBy(p, s, x, y) by { NoTerm(w, T, id, m, l, r, v, u, to, s, i, q); }
      assert p[y].op.TRANSIT? && p[y].operands == [x];
    } else {
      forall y | y in s.memo && M.OperandOf(p, y, x) ensures !p[y].op.TRANSIT? {
        OperandPart(w, T, li, y, OfExpr(d));
        EvaluationUser(w, T, id, m, l, r, v, u, to, i, q, li[y]);
        OnlyTransits(w, T, li, y);
      }
    }
  }

  lemma OnlyTransits(w: World, T: nat, l: Listing, y: nat)
    requires TypedListing(w, T, l) && y < |l|
    ensures ProgramOf(l)[y].op.TRANSIT? <==> l[y].OfExpr? && l[y].e.Transit?
  {
    assert ItemTyped(w, T, l[y]);
    hide TypedListing;
  }

  lemma PositionBack(w: World, T: nat, l: Listing, z: nat)
    requires TypedListing(w, T, l) && z < |l|
    ensures Position(l, l[z]) == z
  {
    hide WfWorld, ItemsApart;
    PositionAt(l, z);
  }

  lemma MemoListed(w: World, T: nat, l: Listing, s: L.State)
    requires L.Wf(ProgramOf(l), s)
    ensures forall z :: z in s.memo ==> z < |l|
  {
    hide L.ListsOk, L.Owned;
    forall z | z in s.memo ensures z < |l| { assert L.Mirrored(ProgramOf(l), s, z); }
  }

  /** An evaluation is no constant term of another polynomial. */
  lemma NoTerm(w: World, T: nat, id: nat, m: nat, l: seq<Expression>, r: seq<Expression>, v: nat, u: nat,
               to: Party, s: L.State, i: nat, q: Party)
    requires ProductLowered(w, T, id, m, l, r, v, u, to, s) && i < |l|
    requires var li := YieldListing(ProductShares(w, T, id, m, l, r), to);
      OfExpr(Evaluation(Resharing(T, id, l, r, i), q)) in li
    ensures var li := YieldListing(ProductShares(w, T, id, m, l, r), to);
      forall z, f :: z in s.memo && M.EvalOf(ProgramOf(li), z, f) ==>
        !M.TermOf(ProgramOf(li), f, Position(li, OfExpr(Evaluation(Resharing(T, id, l, r, i), q))))
  {
    hide ProductSetting, TypedListing, YieldListing, L.Wf, SoundShares, ProductUpTo, Position, M.EvalOf, M.TermOf;
    ProductTyped(w, T, id, m, l, r, v, u, to);
    var li := YieldListing(ProductShares(w, T, id, m, l, r), to);
    var it := OfExpr(Evaluation(Resharing(T, id, l, r, i), q));
    forall f: nat ensures !M.TermOf(ProgramOf(li), f, Position(li, it)) {
      if M.TermOf(ProgramOf(li), f, Position(li, it)) {
        TermItem(w, T, li, f, it);
        EvaluationUser(w, T, id, m, l, r, v, u, to, i, q, li[f]);
      }
    }
  }

  /** The local product of party i is dealt to all parties and used for nothing else. */
  lemma ResharingDealt(w: World, T: nat, id: nat, m: nat, l: seq<Expression>, r: seq<Expression>, v: nat, u: nat,
                       to: Party, s: L.State, i: nat)
    requires ProductLowered(w, T, id, m, l, r, v, u, to, s) && i < |l|
    ensures var li := YieldListing(ProductShares(w, T, id, m, l, r), to);
      && w.p > 0 && M.DealtToAll(ProgramOf(li), s, SettingOf(w, T, li), Position(li, OfPoly(Resharing(T, id, l, r, i))),
                                 EvaluationsOf(w, T, id, l, r, li, i), w.parties)
  {
    hide TypedListing, YieldListing, L.Wf, SoundShares, ProductUpTo, Position, EvaluationsOf, M.EndsAt, M.TermOf;
    hide M.EvalOf, M.OperandOf, B.WellTyped, WfWorld, Alike;
    ProductTyped(w, T, id, m, l, r, v, u, to);
    var li := YieldListing(ProductShares(w, T, id, m, l, r), to);
    var p, f, xs := ProgramOf(li), Resharing(T, id, l, r, i), EvaluationsOf(w, T, id, l, r, li, i);
    SettingFactors(w, T, id, l, r, v, u, to);
    WorldParties(w);
    MemoListed(w, T, li, s);
    EvaluationPositions(w, T, id, m, l, r, v, u, to, s, i);
    ResharingReached(w, T, id, m, l, r, v, u, to, s, i, 0);
    I.PolyLowered(p, s, Position(li, OfPoly(f)));
    forall x | x in s.memo && M.EvalOf(p, x, Position(li, OfPoly(f))) ensures x in xs {
      EvaluationListed(w, T, id, m, l, r, v, u, to, s, i, x);
    }
    forall j | 0 <= j < |xs| ensures M.EndsAt(p, s, xs[j], w.parties[j]) {
      ResharingEnds(w, T, id, m, l, r, v, u, to, s, i, j);
    }
    forall c | M.TermOf(p, Position(li, OfPoly(f)), c)
      ensures forall z :: z in s.memo ==> !M.OperandOf(p, z, c)
      ensures forall z, h :: z in s.memo && M.EvalOf(p, z, h) && M.TermOf(p, h, c) ==> h == Position(li, OfPoly(f))
    {
      TermIsLocal(w, T, id, m, l, r, v, u, to, s, i, c);
    }
  }

  lemma EvaluationPositions(w: World, T: nat, id: nat, m: nat, l: seq<Expression>, r: seq<Expression>, v: nat, u: nat,
                            to: Party, s: L.State, i: nat)
    requires ProductLowered(w, T, id, m, l, r, v, u, to, s) && i < |l| && NoDup(w.parties)
    ensures var li := YieldListing(ProductShares(w, T, id, m, l, r), to);
      var xs := EvaluationsOf(w, T, id, l, r, li, i);
      && NoDup(xs) && forall x :: x in xs ==>
           x in s.memo && M.EvalOf(ProgramOf(li), x, Position(li, OfPoly(Resharing(T, id, l, r, i))))
  {
    hide ProductSetting, TypedListing, YieldListing, L.Wf, SoundShares, ProductUpTo, Position;
    var li := YieldListing(ProductShares(w, T, id, m, l, r), to);
    var f, xs := Resharing(T, id, l, r, i), EvaluationsOf(w, T, id, l, r, li, i);
    forall j | 0 <= j < |xs|
      ensures xs[j] in s.memo && xs[j] < |li| && li[xs[j]] == OfExpr(Evaluation(f, w.parties[j]))
      ensures M.EvalOf(ProgramOf(li), xs[j], Position(li, OfPoly(f)))
    {
      ResharingReached(w, T, id, m, l, r, v, u, to, s, i, j);
    }
    forall j, k | 0 <= j < k < |xs| ensures xs[j] != xs[k] {
      assert w.parties[j] != w.parties[k];
    }
  }

  lemma EvaluationListed(w: World, T: nat, id: nat, m: nat, l: seq<Expression>, r: seq<Expression>, v: nat, u: nat,
                         to: Party, s: L.State, i: nat, x: nat)
    requires ProductLowered(w, T, id, m, l, r, v, u, to, s) && i < |l|
    requires var li := YieldListing(ProductShares(w, T, id, m, l, r), to);
      && x in s.memo && x < |li| && OfPoly(Resharing(T, id, l, r, i)) in li
      && M.EvalOf(ProgramOf(li), x, Position(li, OfPoly(Resharing(T, id, l, r, i))))
    ensures var li := YieldListing(ProductShares(w, T, id, m, l, r), to); x in EvaluationsOf(w, T, id, l, r, li, i)
  {
    hide ProductSetting, TypedListing, YieldListing, L.Wf, SoundShares, ProductUpTo, Position, M.EvalOf;
    ProductTyped(w, T, id, m, l, r, v, u, to);
    var li := YieldListing(ProductShares(w, T, id, m, l, r), to);
    var f := Resharing(T, id, l, r, i);
    EvaluatesItem(w, T, li, x, f);
    assert Parts(li[x]) == [OfPoly(f)];
    var j := PolyUser(w, T, id, m, l, r, v, u, to, i, li[x]);
    PositionBack(w, T, li, x);
    assert EvaluationsOf(w, T, id, l, r, li, i)[j] == x;
  }

  lemma TermIsLocal(w: World, T: nat, id: nat, m: nat, l: seq<Expression>, r: seq<Expression>, v: nat, u: nat,
                    to: Party, s: L.State, i: nat, c: nat)
    requires ProductLowered(w, T, id, m, l, r, v, u, to, s) && i < |l|
    requires var li := YieldListing(ProductShares(w, T, id, m, l, r), to);
      && OfPoly(Resharing(T, id, l, r, i)) in li && OfExpr(Local(l, r, i)) in li
      && M.TermOf(ProgramOf(li), Position(li, OfPoly(Resharing(T, id, l, r, i))), c)
    ensures var li := YieldListing(ProductShares(w, T, id, m, l, r), to);
      var p := ProgramOf(li);
      && (forall z :: z in s.memo ==> !M.OperandOf(p, z, c))
      && forall z, h :: z in s.memo && M.EvalOf(p, z, h) && M.TermOf(p, h, c) ==>
           h == Position(li, OfPoly(Resharing(T, id, l, r, i)))
  {
    hide ProductSetting, TypedListing, YieldListing, L.Wf, SoundShares, ProductUpTo, M.EvalOf, M.OperandOf;
    ProductTyped(w, T, id, m, l, r, v, u, to);
    var li := YieldListing(ProductShares(w, T, id, m, l, r), to);
    var p, f, it := ProgramOf(li), Resharing(T, id, l, r, i), OfExpr(Local(l, r, i));
    assert c == Position(li, it);
    hide Position;
    MemoListed(w, T, li, s);
    forall z | z in s.memo ensures !M.OperandOf(p, z, c) {
      if M.OperandOf(p, z, c) {
        OperandPart(w, T, li, z, it);
        LocalUser(w, T, id, m, l, r, v, u, to, i, li[z]);
        PolyNoOperand(li, z, c);
      }
    }
    forall z, h: nat | z in s.memo && M.EvalOf(p, z, h) && M.TermOf(p, h, c) ensures h == Position(li, OfPoly(f)) {
      TermItem(w, T, li, h, it);
      LocalUser(w, T, id, m, l, r, v, u, to, i, li[h]);
      PositionBack(w, T, li, h);
    }
  }

  lemma PolyNoOperand(l: Listing, z: nat, c: nat)
    requires z < |l| && l[z].OfPoly?
    ensures !M.OperandOf(ProgramOf(l), z, c)
  {
    hide Position;
  }

  /**
   * The resharing step of a product: on the graph built for it the guard accepts the local
   * product of every party, for every set of source parties.
   */
  lemma ProductAccepted(w: World, T: nat, id: nat, m: nat, l: seq<Expression>, r: seq<Expression>, v: nat, u: nat,
                        to: Party, s: L.State, g: Graph, i: nat, src: set<Party>)
    requires ProductLowered(w, T, id, m, l, r, v, u, to, s) && i < |l| && w.p > 0
    requires var li := YieldListing(ProductShares(w, T, id, m, l, r), to);
      B.GraphFrom(ProgramOf(li), s, SettingOf(w, T, li), g)
    ensures var x := Position(YieldListing(ProductShares(w, T, id, m, l, r), to), OfExpr(Local(l, r, i)));
      && x in s.memo && s.memo[x].NodeAt? && s.memo[x].n < |g.nodes| && Sync(g)
      && RewritableSecret(g, s.memo[x].n, src) && SharingMatch(g, s.memo[x].n, src)
  {
    hide TypedListing, YieldListing, L.Wf, SoundShares, ProductUpTo, Position, EvaluationsOf, M.DealtToAll;
    hide ProductSetting, RewritableSecret, SharingMatch, Sync, B.GraphFrom;
    var li := YieldListing(ProductShares(w, T, id, m, l, r), to);
    ResharingDealt(w, T, id, m, l, r, v, u, to, s, i);
    ProductTyped(w, T, id, m, l, r, v, u, to);
    ResharingReached(w, T, id, m, l, r, v, u, to, s, i, 0);
    var f := Position(li, OfPoly(Resharing(T, id, l, r, i)));
    M.TermAccepted(ProgramOf(li), s, SettingOf(w, T, li), g, f, EvaluationsOf(w, T, id, l, r, li, i), w.parties, src);
    TermPosition(w, T, li, Resharing(T, id, l, r, i));
  }

  lemma TermPosition(w: World, T: nat, l: Listing, f: Poly)
    requires TypedListing(w, T, l) && OfPoly(f) in l
    ensures forall c :: M.TermOf(ProgramOf(l), Position(l, OfPoly(f)), c) ==> c == Position(l, OfExpr(f.constTerm))
  {
    hide TypedListing;
  }

  /** The factors of a circuit that ends in a product. */
  ghost predicate EndsInProduct(w: World, T: nat, a: Circuit, b: Circuit, l: Build, r: Build) {
    && Built(w.parties, T, a, 0, 0) == Ok(l) && Built(w.parties, T, b, l.polys, l.muls) == Ok(r)
  }

  /** What is lowered for such a circuit. */
  lemma ProductListing(w: World, T: nat, a: Circuit, b: Circuit, l: Build, r: Build, to: Party)
    requires EndsInProduct(w, T, a, b, l, r) && |l.shares| == |r.shares| == |w.parties|
    requires ProductUpTo(w.parties, T, r.polys, r.muls, l.shares, r.shares, |w.parties|).Ok?
    ensures var shares, c := ProductShares(w, T, r.polys, r.muls, l.shares, r.shares), Product(a, b);
      && CircuitListing(w.parties, T, c, to) == YieldListing(shares, to)
      && OutputOf(w.parties, T, c, to)
           == Position(YieldListing(shares, to), OfExpr(Reconstruct(SentTo(shares, to), to)))
  {
    hide ProductUpTo, YieldListing, Position;
  }

  /**
   * For every circuit that ends in a product: in the graph built for it, whoever is corrupted,
   * the guard accepts the node of every party's local product for every set of source parties.
   */
  lemma CircuitProductAccepted(w: World, T: nat, a: Circuit, b: Circuit, to: Party, s: L.State, g: Graph, i: nat,
                               src: set<Party>) returns (l: Build, r: Build)
    requires WfWorld(w) && w.p > 0 && T >= 1 && |w.parties| >= 2 * T + 1 && to in w.parties
    requires FromSecrets(w, Product(a, b)) && i < |w.parties|
    requires var li := CircuitListing(w.parties, T, Product(a, b), to);
      && L.Wf(ProgramOf(li), s) && OutputOf(w.parties, T, Product(a, b), to) in s.memo
      && B.GraphFrom(ProgramOf(li), s, SettingOf(w, T, li), g)
    ensures EndsInProduct(w, T, a, b, l, r) && |l.shares| == |r.shares| == |w.parties|
    ensures var x := Position(CircuitListing(w.parties, T, Product(a, b), to), OfExpr(Local(l.shares, r.shares, i)));
      && x in s.memo && s.memo[x].NodeAt? && s.memo[x].n < |g.nodes| && Sync(g)
      && RewritableSecret(g, s.memo[x].n, src) && MatchFor(g, s.memo[x].n, src, true)
  {
    hide RewritableSecret, SharingMatch, Sync, SumUpTo, OutputOf, CircuitListing, ProductShares;
    hide SoundShares, Alike, L.Wf, B.GraphFrom, ProductUpTo, YieldListing, Position, WfWorld;
    var v := BuiltAlike(w, T, a, 0, 0);
    l := Built(w.parties, T, a, 0, 0).value;
    var u := BuiltAlike(w, T, b, l.polys, l.muls);
    r := Built(w.parties, T, b, l.polys, l.muls).value;
    BuiltSound(w, T, a, 0, 0);
    BuiltSound(w, T, b, l.polys, l.muls);
    AlikeMore(l.shares, v, l.polys, r.polys);
    WorldParties(w);
    ProductTyped(w, T, r.polys, r.muls, l.shares, r.shares, v, u, to);
    ProductListing(w, T, a, b, l, r, to);
    hide Built;
    ProductAccepted(w, T, r.polys, r.muls, l.shares, r.shares, v, u, to, s, g, i, src);
  }
}
