// The resharings of a product: in the graph built for a circuit that ends in a product, the
// guard of the sharing rewriters accepts the local product of every party.
module ProductMatches {
  import opened Graphs
  import opened Counters
  import opened Expressions
  import opened Bgw
  import opened BgwCorrectness
  import opened FrontendPrograms
  import opened CircuitPrograms
  import opened Subterms

  // ----- The shares a circuit is built into

  /** The product of its shares that party i shares again. */
  function Local(l: seq<Expression>, r: seq<Expression>, i: nat): Expression
    requires i < |l| && i < |r|
  {
    Binary(MUL, l[i], r[i])
  }

  function Resharing(T: nat, id: nat, l: seq<Expression>, r: seq<Expression>, i: nat): Poly
    requires i < |l| && i < |r|
  {
    Poly(id + i, Local(l, r, i), T)
  }

  lemma LocalAlike(l: seq<Expression>, r: seq<Expression>, i: nat, v: nat, u: nat, k: nat)
    requires i < |l| && i < |r| && Alike(l, v, k) && Alike(r, u, k)
    ensures PolysBelow(Local(l, r, i), k) && Level(Local(l, r, i)) == 1 + if v > u then v else u
  {
  }

  lemma {:induction false} ProductAlike(w: World, T: nat, id: nat, m: nat, l: seq<Expression>, r: seq<Expression>,
                                        v: nat, u: nat, n: nat) returns (level: nat)
    requires SoundShares(w, T, l) && SoundShares(w, T, r) && n <= |l| && Alike(l, v, id) && Alike(r, u, id)
    ensures ProductUpTo(w.parties, T, id, m, l, r, n).Ok?
    ensures Alike(ProductUpTo(w.parties, T, id, m, l, r, n).value, level, id + n)
  {
    hide SharingOf, ScaledShares, SumUpTo, Alike, SoundShares;
    ProductSound(w, T, id, m, l, r, n);
    level := 0;
    if n == 0 {
      assert Alike([], 0, id) by { NothingAlike(id); }
    } else {
      var front := ProductAlike(w, T, id, m, l, r, v, u, n - 1);
      SharesThere(w, T, l, r, n - 1);
      var local := Local(l, r, n - 1);
      LocalAlike(l, r, n - 1, v, u, id);
      PolysMore(local, id, id + n);
      var k := id + n - 1;
      var term := ScaledShares(SharingOf(w.parties, T, k, local), Coefficient(m, n - 1));
      DealtAlike(w.parties, T, k, local, id + n);
      ScaledAlike(SharingOf(w.parties, T, k, local), Coefficient(m, n - 1), Level(local), id + n);
      level := Level(local) + 1;
      if n > 1 {
        var sum := ProductUpTo(w.parties, T, id, m, l, r, n - 1).value;
        ProductSound(w, T, id, m, l, r, n - 1);
        TermSound(w, T, l, r, k, m, n - 1);
        AlikeMore(sum, front, k, id + n);
        HoldersAgree(w, T, sum, term);
        SumAlike(sum, term, front, level, id + n);
        level := 1 + if front > level then front else level;
      }
    }
  }

  lemma NothingAlike(k: nat)
    ensures Alike([], 0, k)
  {
  }

  lemma SharesThere(w: World, T: nat, l: seq<Expression>, r: seq<Expression>, i: nat)
    requires SoundShares(w, T, l) && SoundShares(w, T, r) && i < |l|
    ensures |l| == |r| == |w.parties| && Holder(l[i]) == Holder(r[i]) == w.parties[i]
    ensures Sound(w, T, Local(l, r, i))
  {
  }

  lemma TermSound(w: World, T: nat, l: seq<Expression>, r: seq<Expression>, id: nat, m: nat, i: nat)
    requires SoundShares(w, T, l) && SoundShares(w, T, r) && i < |l| == |r|
    ensures SoundShares(w, T, ScaledShares(SharingOf(w.parties, T, id, Local(l, r, i)), Coefficient(m, i)))
  {
    hide SoundShares, Sound, ScaledShares, SharingOf;
    SharesThere(w, T, l, r, i);
    DealtSound(w, T, id, Local(l, r, i));
    ScaledSound(w, T, SharingOf(w.parties, T, id, Local(l, r, i)), Coefficient(m, i));
  }

  lemma HoldersAgree(w: World, T: nat, l: seq<Expression>, r: seq<Expression>)
    requires SoundShares(w, T, l) && SoundShares(w, T, r)
    ensures |l| == |r| && forall j :: 0 <= j < |l| ==> Holder(l[j]) == Holder(r[j])
  {
  }

  /** The shares of a circuit are nested alike, and it uses polynomials from its number on. */
  lemma {:induction false} BuiltAlike(w: World, T: nat, c: Circuit, polys: nat, muls: nat) returns (level: nat)
    requires |w.parties| > 0 && FromSecrets(w, c)
    ensures Built(w.parties, T, c, polys, muls).Ok? && polys <= Built(w.parties, T, c, polys, muls).value.polys
    ensures var b := Built(w.parties, T, c, polys, muls).value; Alike(b.shares, level, b.polys)
    decreases c
  {
    hide Alike, SumUpTo, ProductUpTo, SharingOf, ScaledShares, SoundShares, GivenShares;
    match c
    case Shared(s) =>
      DealtAlike(w.parties, T, polys, s, polys + 1);
      level := Level(s);
    case FromInput(k) =>
      GivenAlike(w.parties, k, polys);
      level := 0;
    case Scale(a, k) =>
      var v := BuiltAlike(w, T, a, polys, muls);
      var l := Built(w.parties, T, a, polys, muls).value;
      ScaledAlike(l.shares, Public(k), v, l.polys);
      level := v + 1;
    case Sum(a, b) =>
      var v := BuiltAlike(w, T, a, polys, muls);
      var l := Built(w.parties, T, a, polys, muls).value;
      var u := BuiltAlike(w, T, b, l.polys, l.muls);
      var r := Built(w.parties, T, b, l.polys, l.muls).value;
      BuiltSound(w, T, a, polys, muls);
      BuiltSound(w, T, b, l.polys, l.muls);
      AlikeMore(l.shares, v, l.polys, r.polys);
      HoldersAgree(w, T, l.shares, r.shares);
      SumAlike(l.shares, r.shares, v, u, r.polys);
      level := 1 + if v > u then v else u;
    case Product(a, b) =>
      var v := BuiltAlike(w, T, a, polys, muls);
      var l := Built(w.parties, T, a, polys, muls).value;
      var u := BuiltAlike(w, T, b, l.polys, l.muls);
      var r := Built(w.parties, T, b, l.polys, l.muls).value;
      BuiltSound(w, T, a, polys, muls);
      BuiltSound(w, T, b, l.polys, l.muls);
      AlikeMore(l.shares, v, l.polys, r.polys);
      level := ProductAlike(w, T, r.polys, r.muls, l.shares, r.shares, v, u, |w.parties|);
  }

  lemma GivenAlike(parties: seq<Party>, k: nat, polys: nat)
    ensures Alike(GivenShares(parties, k), 0, polys)
  {
  }

  // ----- Who uses what in the shares of a product

  /** The factors of a product: sound shares with polynomials below id, nested alike. */
  ghost predicate Factors(w: World, T: nat, id: nat, l: seq<Expression>, r: seq<Expression>, v: nat, u: nat) {
    NoDup(w.parties) && SoundShares(w, T, l) && SoundShares(w, T, r) && Alike(l, v, id) && Alike(r, u, id)
  }

  /** Share i of the resharings at party j, as the product adds it up. */
  function Term(w: World, T: nat, id: nat, m: nat, l: seq<Expression>, r: seq<Expression>, i: nat, j: nat): Expression
    requires i < |l| && i < |r| && j < |w.parties|
  {
    var q := w.parties[j];
    Scaled(Transfer(Evaluation(Resharing(T, id, l, r, i), q), q), Coefficient(m, i))
  }

  /** The new item is no constant and no sum, and the factors do not contain it. */
  ghost predicate Fresh(l: seq<Expression>, r: seq<Expression>, x: Item) {
    && !x.OfConst? && (x.OfExpr? ==> !x.e.Scaled? && !(x.e.Binary? && x.e.op.ADD?))
    && (forall k :: 0 <= k < |l| ==> !Inside(x, l[k])) && forall k :: 0 <= k < |r| ==> !Inside(x, r[k])
  }

  /** Item x is used by the item in the i-th resharing, at party j. */
  ghost predicate UsedIn(w: World, T: nat, id: nat, m: nat, l: seq<Expression>, r: seq<Expression>, i: nat, j: nat,
                         x: Item, it: Item)
    requires i < |l| && i < |r| && j < |w.parties|
  {
    var f, q := Resharing(T, id, l, r, i), w.parties[j];
    var d := Evaluation(f, q);
    || (it == OfExpr(Term(w, T, id, m, l, r, i, j)) && x == OfExpr(Transfer(d, q)))
    || (it == OfExpr(Transit(d, q)) && Holder(d) != q && x == OfExpr(d))
    || (it == OfExpr(d) && x == OfPoly(f))
    || (it == OfPoly(f) && x == OfExpr(Local(l, r, i)))
  }

  lemma TermUser(w: World, T: nat, id: nat, m: nat, l: seq<Expression>, r: seq<Expression>, i: nat, j: nat, x: Item,
                 it: Item)
    requires i < |l| && i < |r| && j < |w.parties| && Fresh(l, r, x)
    requires Inside(it, Term(w, T, id, m, l, r, i, j)) && x in Parts(it)
    ensures UsedIn(w, T, id, m, l, r, i, j, x, it)
  {
    var f, q := Resharing(T, id, l, r, i), w.parties[j];
    var d, local := Evaluation(f, q), Local(l, r, i);
    if Inside(it, local) { LocalFresh(l, r, i, x, it); }
    assert Inside(it, d) ==> it == OfExpr(d) || it == OfPoly(f) || Inside(it, local);
    assert Inside(it, Transfer(d, q)) ==> it == OfExpr(Transit(d, q)) || Inside(it, d);
    if it == OfExpr(Transfer(d, q)) && Holder(d) != q { assert Parts(it) == [OfExpr(d)]; }
  }

  lemma PartOfLocal(l: seq<Expression>, r: seq<Expression>, i: nat, x: Item, it: Item)
    requires i < |l| && i < |r| && Inside(it, Local(l, r, i)) && x in Parts(it)
    ensures Inside(x, l[i]) || Inside(x, r[i])
  {
    if it == OfExpr(Local(l, r, i)) {
      assert Inside(OfExpr(l[i]), l[i]) && Inside(OfExpr(r[i]), r[i]);
    } else if Inside(it, l[i]) {
      PartInside(x, it, l[i]);
    } else {
      PartInside(x, it, r[i]);
    }
  }

  lemma LocalFresh(l: seq<Expression>, r: seq<Expression>, i: nat, x: Item, it: Item)
    requires i < |l| && i < |r| && Fresh(l, r, x) && Inside(it, Local(l, r, i))
    ensures x !in Parts(it)
  {
    if x in Parts(it) { PartOfLocal(l, r, i, x, it); }
  }

  /** Share j of the product of the first n resharings. */
  lemma ProductShare(w: World, T: nat, id: nat, m: nat, l: seq<Expression>, r: seq<Expression>, n: nat, j: nat)
    requires SoundShares(w, T, l) && SoundShares(w, T, r) && 0 < n <= |l| && j < |w.parties|
    ensures |l| == |r| == |w.parties| && ProductUpTo(w.parties, T, id, m, l, r, n).Ok?
    ensures ProductUpTo(w.parties, T, id, m, l, r, n - 1).Ok?
    ensures |ProductUpTo(w.parties, T, id, m, l, r, n).value| == |w.parties|
    ensures n == 1 ==> ProductUpTo(w.parties, T, id, m, l, r, n).value[j] == Term(w, T, id, m, l, r, n - 1, j)
    ensures n > 1 ==>
      && |ProductUpTo(w.parties, T, id, m, l, r, n - 1).value| == |w.parties|
      && ProductUpTo(w.parties, T, id, m, l, r, n).value[j] ==
           Binary(ADD, ProductUpTo(w.parties, T, id, m, l, r, n - 1).value[j], Term(w, T, id, m, l, r, n - 1, j))
  {
    hide SoundShares, Sound, SumUpTo, Term, SharingOf, ScaledShares;
    ProductSound(w, T, id, m, l, r, n);
    ProductSound(w, T, id, m, l, r, n - 1);
    SharesThere(w, T, l, r, n - 1);
    TermSound(w, T, l, r, id + n - 1, m, n - 1);
    TermShare(w, T, id, m, l, r, n - 1, j);
    var term := ScaledShares(SharingOf(w.parties, T, id + n - 1, Local(l, r, n - 1)), Coefficient(m, n - 1));
    if n > 1 {
      var sum := ProductUpTo(w.parties, T, id, m, l, r, n - 1).value;
      HoldersAgree(w, T, sum, term);
      SumSucceeds(sum, term, |sum|);
    }
  }

  lemma TermShare(w: World, T: nat, id: nat, m: nat, l: seq<Expression>, r: seq<Expression>, i: nat, j: nat)
    requires i < |l| && i < |r| && j < |w.parties|
    ensures ScaledShares(SharingOf(w.parties, T, id + i, Local(l, r, i)), Coefficient(m, i))[j]
         == Term(w, T, id, m, l, r, i, j)
  {
  }

  /** A new item that is used in a share of the product is used in one of its terms. */
  lemma {:induction false} ProductUser(w: World, T: nat, id: nat, m: nat, l: seq<Expression>, r: seq<Expression>,
                                       n: nat, j: nat, x: Item, it: Item) returns (i: nat)
    requires SoundShares(w, T, l) && SoundShares(w, T, r) && 0 < n <= |l| == |r| && j < |w.parties| && Fresh(l, r, x)
    requires ProductUpTo(w.parties, T, id, m, l, r, n).Ok? && j < |ProductUpTo(w.parties, T, id, m, l, r, n).value|
    requires Inside(it, ProductUpTo(w.parties, T, id, m, l, r, n).value[j]) && x in Parts(it)
    ensures i < n && UsedIn(w, T, id, m, l, r, i, j, x, it)
  {
    hide SoundShares, ProductUpTo, UsedIn, Fresh;
    ProductShare(w, T, id, m, l, r, n, j);
    if Inside(it, Term(w, T, id, m, l, r, n - 1, j)) {
      TermUser(w, T, id, m, l, r, n - 1, j, x, it);
      i := n - 1;
    } else {
      ShareIsSum(w, T, id, m, l, r, n - 1, j);
      FreshIsNoSum(l, r, x);
      i := ProductUser(w, T, id, m, l, r, n - 1, j, x, it);
    }
  }

  lemma FreshIsNoSum(l: seq<Expression>, r: seq<Expression>, x: Item)
    requires Fresh(l, r, x)
    ensures !x.OfConst? && (x.OfExpr? ==> !x.e.Scaled? && !(x.e.Binary? && x.e.op.ADD?))
  {
  }

  /** Shares of a product are sums, or a scaled resharing. */
  lemma ShareIsSum(w: World, T: nat, id: nat, m: nat, l: seq<Expression>, r: seq<Expression>, n: nat, j: nat)
    requires SoundShares(w, T, l) && SoundShares(w, T, r) && 0 < n <= |l| && j < |w.parties|
    ensures ProductUpTo(w.parties, T, id, m, l, r, n).Ok?
    ensures |ProductUpTo(w.parties, T, id, m, l, r, n).value| == |w.parties|
    ensures var e := ProductUpTo(w.parties, T, id, m, l, r, n).value[j]; e.Scaled? || (e.Binary? && e.op.ADD?)
  {
    hide SoundShares, ProductUpTo;
    ProductShare(w, T, id, m, l, r, n, j);
  }

  // ----- The new items of a product

  lemma LocalIsFresh(w: World, T: nat, id: nat, l: seq<Expression>, r: seq<Expression>, v: nat, u: nat, i: nat)
    requires Factors(w, T, id, l, r, v, u) && i < |l|
    ensures |l| == |r| && Fresh(l, r, OfExpr(Local(l, r, i)))
  {
    hide NoDup;
    LocalAlike(l, r, i, v, u, id);
    forall k | 0 <= k < |l| ensures !Inside(OfExpr(Local(l, r, i)), l[k]) && !Inside(OfExpr(Local(l, r, i)), r[k]) {
      if Inside(OfExpr(Local(l, r, i)), l[k]) { LevelInside(w, T, Local(l, r, i), l[k]); }
      if Inside(OfExpr(Local(l, r, i)), r[k]) { LevelInside(w, T, Local(l, r, i), r[k]); }
    }
  }

  lemma PolyIsFresh(w: World, T: nat, id: nat, l: seq<Expression>, r: seq<Expression>, v: nat, u: nat, i: nat)
    requires Factors(w, T, id, l, r, v, u) && i < |l|
    ensures |l| == |r| && Fresh(l, r, OfPoly(Resharing(T, id, l, r, i)))
  {
    hide NoDup;
    var f := Resharing(T, id, l, r, i);
    forall k | 0 <= k < |l| ensures !Inside(OfPoly(f), l[k]) && !Inside(OfPoly(f), r[k]) {
      if Inside(OfPoly(f), l[k]) { PolyInside(f, l[k], id); }
      if Inside(OfPoly(f), r[k]) { PolyInside(f, r[k], id); }
    }
  }

  lemma EvaluationIsFresh(w: World, T: nat, id: nat, l: seq<Expression>, r: seq<Expression>, v: nat, u: nat, i: nat,
                          q: Party)
    requires Factors(w, T, id, l, r, v, u) && i < |l|
    ensures |l| == |r| && Fresh(l, r, OfExpr(Evaluation(Resharing(T, id, l, r, i), q)))
  {
    hide Factors;
    PolyIsFresh(w, T, id, l, r, v, u, i);
    var f := Resharing(T, id, l, r, i);
    var x := OfExpr(Evaluation(f, q));
    forall k | 0 <= k < |l| ensures !Inside(x, l[k]) && !Inside(x, r[k]) {
      if Inside(x, l[k]) { PartInside(OfPoly(f), x, l[k]); }
      if Inside(x, r[k]) { PartInside(OfPoly(f), x, r[k]); }
    }
  }

  lemma ResharingsApart(w: World, T: nat, id: nat, l: seq<Expression>, r: seq<Expression>, v: nat, u: nat, i: nat,
                        k: nat)
    requires Factors(w, T, id, l, r, v, u) && i < |l| && k < |l|
    ensures |l| == |r| == |w.parties| && Holder(Local(l, r, i)) == w.parties[i]
    ensures Local(l, r, i) == Local(l, r, k) <==> i == k
    ensures Resharing(T, id, l, r, i) == Resharing(T, id, l, r, k) <==> i == k
  {
    hide Alike;
  }

  // ----- The listing of a product that is yielded

  /** A new item is used in a term of the product only. */
  lemma ListingUser(w: World, T: nat, id: nat, m: nat, l: seq<Expression>, r: seq<Expression>, to: Party, x: Item,
                    it: Item)
    returns (i: nat, j: nat)
    requires SoundShares(w, T, l) && SoundShares(w, T, r) && Fresh(l, r, x) && |w.parties| > 0
    requires x.OfExpr? ==> !x.e.Transit?
    requires ProductUpTo(w.parties, T, id, m, l, r, |w.parties|).Ok?
    requires it in YieldListing(ProductUpTo(w.parties, T, id, m, l, r, |w.parties|).value, to) && x in Parts(it)
    ensures i < |l| == |r| == |w.parties| && j < |w.parties| && UsedIn(w, T, id, m, l, r, i, j, x, it)
  {
    hide SoundShares, ProductUpTo, UsedIn, Fresh;
    SharesThere(w, T, l, r, 0) by { SharesSize(w, T, l); }
    FreshIsNoSum(l, r, x);
    var shares := ProductUpTo(w.parties, T, id, m, l, r, |w.parties|).value;
    ShareIsSum(w, T, id, m, l, r, |w.parties|, 0);
    j := YieldedInside(shares, to, it, x) by {
      forall k | 0 <= k < |shares| ensures shares[k].Scaled? || (shares[k].Binary? && shares[k].op.ADD?) {
        ShareIsSum(w, T, id, m, l, r, |w.parties|, k);
      }
    }
    i := ProductUser(w, T, id, m, l, r, |w.parties|, j, x, it);
  }

  lemma SharesSize(w: World, T: nat, l: seq<Expression>)
    requires SoundShares(w, T, l)
    ensures |l| == |w.parties|
  {
  }

  lemma SentParts(shares: seq<Expression>, to: Party, x: Item)
    requires forall k :: 0 <= k < |shares| ==> shares[k].Scaled? || (shares[k].Binary? && shares[k].op.ADD?)
    ensures x in Parts(OfExpr(Reconstruct(SentTo(shares, to), to))) ==>
      x.OfExpr? && (x.e.Scaled? || x.e.Transit? || (x.e.Binary? && x.e.op.ADD?))
  {
  }

  lemma TransferInside(e: Expression, to: Party, it: Item, x: Item)
    requires e.Scaled? || (e.Binary? && e.op.ADD?)
    requires Inside(it, Transfer(e, to)) && x in Parts(it)
    requires !x.OfConst? && (x.OfExpr? ==> !x.e.Scaled? && !x.e.Transit? && !(x.e.Binary? && x.e.op.ADD?))
    ensures Inside(it, e)
  {
  }

  lemma YieldedInside(shares: seq<Expression>, to: Party, it: Item, x: Item) returns (j: nat)
    requires it in YieldListing(shares, to) && x in Parts(it)
    requires forall k :: 0 <= k < |shares| ==> shares[k].Scaled? || (shares[k].Binary? && shares[k].op.ADD?)
    requires !x.OfConst? && (x.OfExpr? ==> !x.e.Scaled? && !x.e.Transit? && !(x.e.Binary? && x.e.op.ADD?))
    ensures j < |shares| && Inside(it, shares[j])
  {
    var es := SentTo(shares, to);
    ListInside([], Reconstruct(es, to), it);
    SentParts(shares, to, x);
    j :| 0 <= j < |es| && Inside(it, es[j]);
    hide *;
    TransferInside(shares[j], to, it, x);
  }
}
