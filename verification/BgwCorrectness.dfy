// BGW correctness: whatever circuit a variable was built by, its shares lie on a polynomial
// of degree at most T whose constant term is the clear-text value, one share per party.
module BgwCorrectness {
  import opened Arith
  import opened Polynomials
  import opened Lagrange
  import opened Graphs
  import opened Expressions
  import opened Results
  import opened Bgw

  /** Share j is held by party j and is the value at its point of P, whose constant term is x. */
  ghost predicate LieOn(w: World, T: nat, shares: seq<Expression>, P: seq<int>, x: int)
    requires WfWorld(w)
  {
    && |P| == T + 1 && Cong(w.p, P[0], x) && |shares| == |w.parties|
    && forall j :: 0 <= j < |shares| ==>
         Holder(shares[j]) == w.parties[j] && Cong(w.p, Value(w, shares[j]), Eval(P, w.point(w.parties[j])))
  }

  ghost predicate IsSharing(w: World, T: nat, shares: seq<Expression>, x: int)
    requires WfWorld(w)
  {
    exists P :: LieOn(w, T, shares, P, x)
  }

  lemma DealShares(w: World, T: nat, id: nat, s: Expression)
    requires WfWorld(w)
    ensures LieOn(w, T, SharingOf(w.parties, T, id, s), Coefficients(w, id, Value(w, s), T), Value(w, s))
  {
    hide Cong, Eval, Coefficients;
    var P := Coefficients(w, id, Value(w, s), T);
    CongRefl(w.p, P[0]);
    forall j | 0 <= j < |w.parties|
      ensures Cong(w.p, Value(w, SharingOf(w.parties, T, id, s)[j]), Eval(P, w.point(w.parties[j])))
    {
      CongRefl(w.p, Eval(P, w.point(w.parties[j])));
    }
  }

  lemma InputShares(w: World, T: nat, sharing: nat)
    requires WfWorld(w) && |w.given(sharing)| == T + 1
    ensures LieOn(w, T, GivenShares(w.parties, sharing), w.given(sharing), w.given(sharing)[0])
  {
    hide Cong, Eval;
    var P := w.given(sharing);
    CongRefl(w.p, P[0]);
    forall j | 0 <= j < |w.parties|
      ensures Cong(w.p, Value(w, GivenShares(w.parties, sharing)[j]), Eval(P, w.point(w.parties[j])))
    {
      CongRefl(w.p, Eval(P, w.point(w.parties[j])));
    }
  }

  lemma {:induction false} SumSucceeds(l: seq<Expression>, r: seq<Expression>, n: nat)
    requires n <= |l| == |r| && forall j :: 0 <= j < n ==> Holder(l[j]) == Holder(r[j])
    ensures SumUpTo(l, r, n).Ok?
    ensures forall j :: 0 <= j < n ==> SumUpTo(l, r, n).value[j] == Binary(ADD, l[j], r[j])
  {
    if n > 0 { SumSucceeds(l, r, n - 1); }
  }

  lemma SumShareAt(w: World, a: int, e: Expression, P: seq<int>, d: Expression, Q: seq<int>)
    requires WfWorld(w) && |P| == |Q| && Cong(w.p, Value(w, e), Eval(P, a)) && Cong(w.p, Value(w, d), Eval(Q, a))
    ensures Cong(w.p, Value(w, Binary(ADD, e, d)), Eval(Plus(P, 1, Q), a))
  {
    hide Cong, Eval;
    EvalPlus(P, 1, Q, a);
    CongAdd(w.p, Value(w, e), Eval(P, a), Value(w, d), Eval(Q, a));
  }

  lemma SumSecret(p: int, P: seq<int>, x: int, Q: seq<int>, y: int)
    requires p > 0 && |P| == |Q| > 0 && Cong(p, P[0], x) && Cong(p, Q[0], y)
    ensures Cong(p, Plus(P, 1, Q)[0], x + y)
  {
    CongAdd(p, P[0], x, Q[0], y);
  }

  /** Sharings of x and y at the same parties add up to a sharing of x + y, without an error. */
  lemma SumShares(w: World, T: nat, l: seq<Expression>, P: seq<int>, x: int, r: seq<Expression>, Q: seq<int>, y: int)
    requires WfWorld(w) && LieOn(w, T, l, P, x) && LieOn(w, T, r, Q, y)
    ensures SumUpTo(l, r, |l|).Ok? && LieOn(w, T, SumUpTo(l, r, |l|).value, Plus(P, 1, Q), x + y)
  {
    assert w.p > 0;
    hide Cong, Eval, SumUpTo, Plus, WfWorld, Value;
    SumSucceeds(l, r, |l|);
    SumSecret(w.p, P, x, Q, y);
    forall j | 0 <= j < |l|
      ensures Cong(w.p, Value(w, SumUpTo(l, r, |l|).value[j]), Eval(Plus(P, 1, Q), w.point(w.parties[j])))
    {
      SumShareAt(w, w.point(w.parties[j]), l[j], P, r[j], Q);
    }
  }

  function Multiple(P: seq<int>, c: int): (R: seq<int>)
    ensures |R| == |P|
  {
    Plus(Zeros(|P|), c, P)
  }

  lemma ScaleShares(w: World, T: nat, l: seq<Expression>, P: seq<int>, x: int, c: Constant)
    requires WfWorld(w) && LieOn(w, T, l, P, x)
    ensures LieOn(w, T, ScaledShares(l, c), Multiple(P, ConstantValue(w, c)), x * ConstantValue(w, c))
  {
    hide Cong, Eval, ConstantValue;
    var k := ConstantValue(w, c);
    CongRefl(w.p, k);
    CongMul(w.p, P[0], x, k, k);
    assert Multiple(P, k)[0] == 0 + k * P[0] == P[0] * k;
    forall j | 0 <= j < |l|
      ensures Cong(w.p, Value(w, ScaledShares(l, c)[j]), Eval(Multiple(P, k), w.point(w.parties[j])))
    {
      var a := w.point(w.parties[j]);
      EvalPlus(Zeros(|P|), k, P, a);
      EvalZeros(|P|, a);
      CongMul(w.p, Value(w, l[j]), Eval(P, a), k, k);
    }
  }

  // ----- Multiplication

  /** The products of the shares, as each party computes them for itself. */
  ghost function LocalProducts(w: World, l: seq<Expression>, r: seq<Expression>): (ys: seq<int>)
    requires WfWorld(w) && |l| == |r|
    ensures |ys| == |l|
  {
    seq(|l|, i requires 0 <= i < |l| => Value(w, l[i]) * Value(w, r[i]))
  }

  lemma LocalTerm(w: World, T: nat, id: nat, m: nat, l: seq<Expression>, r: seq<Expression>, i: nat)
    requires WfWorld(w) && i < |l| == |r| == |w.parties| && Holder(l[i]) == Holder(r[i])
    ensures BinaryOp(l[i], r[i], MUL).Ok?
    ensures var term := ScaledShares(SharingOf(w.parties, T, id, BinaryOp(l[i], r[i], MUL).value), Coefficient(m, i));
            IsSharing(w, T, term, LocalProducts(w, l, r)[i] * Lambda(w.p, PointsOf(w), i))
  {
    hide LieOn, SharingOf, ScaledShares, Lambda, WfWorld, Coefficients;
    var local := BinaryOp(l[i], r[i], MUL).value;
    DealShares(w, T, id, local);
    ScaleShares(w, T, SharingOf(w.parties, T, id, local), Coefficients(w, id, Value(w, local), T),
                Value(w, local), Coefficient(m, i));
  }

  /** The partial sums of the multiplication share the partial recombinations. */
  lemma {:induction false} PartialProducts(w: World, T: nat, id: nat, m: nat, l: seq<Expression>, r: seq<Expression>,
                                           n: nat)
    requires WfWorld(w) && 0 < n <= |l| == |r| == |w.parties|
    requires forall j :: 0 <= j < n ==> Holder(l[j]) == Holder(r[j])
    ensures ProductUpTo(w.parties, T, id, m, l, r, n).Ok?
    ensures IsSharing(w, T, ProductUpTo(w.parties, T, id, m, l, r, n).value,
                      Recombine(w.p, PointsOf(w), LocalProducts(w, l, r), n))
  {
    hide LieOn, SharingOf, ScaledShares, Lambda, Prime, Distinct, LocalProducts, SumUpTo;
    LocalTerm(w, T, id + n - 1, m, l, r, n - 1);
    if n > 1 {
      PartialProducts(w, T, id, m, l, r, n - 1);
      AddSharings(w, T, ProductUpTo(w.parties, T, id, m, l, r, n - 1).value,
        Recombine(w.p, PointsOf(w), LocalProducts(w, l, r), n - 1),
        ScaledShares(SharingOf(w.parties, T, id + n - 1, BinaryOp(l[n - 1], r[n - 1], MUL).value),
                     Coefficient(m, n - 1)),
        LocalProducts(w, l, r)[n - 1] * Lambda(w.p, PointsOf(w), n - 1));
    }
  }

  lemma AddSharings(w: World, T: nat, l: seq<Expression>, x: int, r: seq<Expression>, y: int)
    requires WfWorld(w) && IsSharing(w, T, l, x) && IsSharing(w, T, r, y)
    ensures |l| == |r| && SumUpTo(l, r, |l|).Ok? && IsSharing(w, T, SumUpTo(l, r, |l|).value, x + y)
  {
    hide WfWorld, SumUpTo;
    var P :| LieOn(w, T, l, P, x);
    var Q :| LieOn(w, T, r, Q, y);
    SumShares(w, T, l, P, x, r, Q, y);
  }

  lemma SharingCong(w: World, T: nat, l: seq<Expression>, x: int, y: int)
    requires WfWorld(w) && IsSharing(w, T, l, x) && Cong(w.p, x, y)
    ensures IsSharing(w, T, l, y)
  {
    hide Distinct, Cong;
    var P :| LieOn(w, T, l, P, x);
    CongTrans(w.p, P[0], x, y);
    assert LieOn(w, T, l, P, y);
  }

  /** Sharings of x and y, N >= 2T + 1 parties: the product is a sharing of x * y of degree T again. */
  lemma MultiplySharings(w: World, T: nat, id: nat, m: nat, l: seq<Expression>, x: int, r: seq<Expression>, y: int)
    requires WfWorld(w) && |w.parties| >= 2 * T + 1
    requires IsSharing(w, T, l, x) && IsSharing(w, T, r, y)
    ensures |l| == |r| == |w.parties| && ProductUpTo(w.parties, T, id, m, l, r, |l|).Ok?
    ensures IsSharing(w, T, ProductUpTo(w.parties, T, id, m, l, r, |l|).value, x * y)
  {
    hide Cong, ProductUpTo;
    var P :| LieOn(w, T, l, P, x);
    var Q :| LieOn(w, T, r, Q, y);
    PartialProducts(w, T, id, m, l, r, |l|);
    ProductsOnProduct(w, T, l, P, x, r, Q, y);
    SharingCong(w, T, ProductUpTo(w.parties, T, id, m, l, r, |l|).value,
                Recombine(w.p, PointsOf(w), LocalProducts(w, l, r), |l|), x * y);
  }

  lemma ProductsOnProduct(w: World, T: nat, l: seq<Expression>, P: seq<int>, x: int, r: seq<Expression>, Q: seq<int>,
                          y: int)
    requires WfWorld(w) && |w.parties| >= 2 * T + 1
    requires LieOn(w, T, l, P, x) && LieOn(w, T, r, Q, y)
    ensures Cong(w.p, Recombine(w.p, PointsOf(w), LocalProducts(w, l, r), |l|), x * y)
  {
    hide Cong, Eval, Recombine, Times, Distinct;
    var xs, ys := PointsOf(w), LocalProducts(w, l, r);
    var zs := Values(Times(P, Q), xs);
    forall i | 0 <= i < |l| ensures Cong(w.p, ys[i], zs[i]) {
      CongMul(w.p, Value(w, l[i]), Eval(P, xs[i]), Value(w, r[i]), Eval(Q, xs[i]));
      EvalTimes(P, Q, xs[i]);
    }
    RecombineCong(w.p, xs, ys, zs, |l|);
    ProductAtZero(w.p, xs, P, Q, T);
    CongMul(w.p, P[0], x, Q[0], y);
    CongTrans(w.p, Recombine(w.p, xs, ys, |l|), Recombine(w.p, xs, zs, |l|), P[0] * Q[0]);
    CongTrans(w.p, Recombine(w.p, xs, ys, |l|), P[0] * Q[0], x * y);
  }

  // ----- Reconstruction

  /** Yielding a variable reconstructs its value, and no other value fits its shares. */
  lemma YieldReconstructs(w: World, T: nat, shares: seq<Expression>, x: int, to: Party)
    requires WfWorld(w) && |w.parties| >= T + 1 && IsSharing(w, T, shares, x)
    ensures Cong(w.p, Value(w, Reconstruct(SentTo(shares, to), to)), x)
    ensures forall y :: IsSharing(w, T, shares, y) ==> Cong(w.p, y, x)
  {
    hide Cong, Recombine;
    forall y | IsSharing(w, T, shares, y)
      ensures Cong(w.p, Value(w, Reconstruct(SentTo(shares, to), to)), y)
    {
      var P :| LieOn(w, T, shares, P, y);
      YieldValue(w, T, shares, P, y, to);
    }
    forall y | IsSharing(w, T, shares, y) ensures Cong(w.p, y, x) {
      var v := Value(w, Reconstruct(SentTo(shares, to), to));
      CongSym(w.p, v, y);
      CongTrans(w.p, y, v, x);
    }
  }

  /** The expressions are the values of a polynomial of degree at most T at the points of the parties, in order. */
  ghost predicate OnShares(w: World, T: nat, es: seq<Expression>, P: seq<int>)
    requires WfWorld(w) && |es| == |w.parties|
  {
    |P| == T + 1 && forall i :: 0 <= i < |es| ==> Cong(w.p, Value(w, es[i]), Eval(P, w.point(w.parties[i])))
  }

  /** Recombining shares of a polynomial gives its constant term. */
  lemma SharesRecombine(w: World, T: nat, es: seq<Expression>, to: Party, P: seq<int>)
    requires WfWorld(w) && |es| == |w.parties| >= T + 1 && OnShares(w, T, es, P)
    ensures Cong(w.p, P[0], Value(w, Reconstruct(es, to)))
  {
    hide Cong, Recombine, Distinct, Eval;
    var xs, n := PointsOf(w), |es|;
    var ys := seq(|es|, i requires 0 <= i < |es| => Value(w, es[i]));
    forall i | 0 <= i < n ensures Cong(w.p, ys[i], Values(P, xs)[i]) {
      assert ys[i] == Value(w, es[i]);
    }
    RecombineCong(w.p, xs, ys, Values(P, xs), n);
    LagrangeAtZero(w.p, xs, P);
    EvalAtZero(P);
    CongTrans(w.p, Recombine(w.p, xs, ys, n), Recombine(w.p, xs, Values(P, xs), n), P[0]);
    CongSym(w.p, Recombine(w.p, xs, ys, n), P[0]);
  }

  lemma YieldValue(w: World, T: nat, shares: seq<Expression>, P: seq<int>, x: int, to: Party)
    requires WfWorld(w) && |w.parties| >= T + 1 && LieOn(w, T, shares, P, x)
    ensures Cong(w.p, Value(w, Reconstruct(SentTo(shares, to), to)), x)
  {
    var es := SentTo(shares, to);
    var v := Value(w, Reconstruct(es, to));
    hide Cong, Eval;
    forall i | 0 <= i < |es| ensures Cong(w.p, Value(w, es[i]), Eval(P, w.point(w.parties[i]))) {
      assert Value(w, es[i]) == Value(w, shares[i]);
    }
    hide Value;
    SharesRecombine(w, T, es, to, P);
    CongSym(w.p, P[0], v);
    CongTrans(w.p, v, P[0], x);
  }

  // ----- Circuits

  datatype Circuit =
    | Shared(secret: Expression)
    | FromInput(sharing: nat)
    | Sum(left: Circuit, right: Circuit)
    | Scale(circuit: Circuit, c: int)
    | Product(left: Circuit, right: Circuit)

  datatype Build = Build(shares: seq<Expression>, polys: nat, muls: nat)

  /** What the operations build for a circuit, from the numbers of polynomials and products so far. */
  function Built(parties: seq<Party>, T: nat, c: Circuit, polys: nat, muls: nat): (r: Result<Build, Error>)
    ensures r.Ok? ==> |r.value.shares| == |parties|
  {
    match c
    case Shared(s) => Ok(Build(SharingOf(parties, T, polys, s), polys + 1, muls))
    case FromInput(k) => Ok(Build(GivenShares(parties, k), polys, muls))
    case Scale(a, k) =>
      (match Built(parties, T, a, polys, muls)
       case Err(e) => Err(e)
       case Ok(l) => Ok(l.(shares := ScaledShares(l.shares, Public(k)))))
    case Sum(a, b) =>
      (match Built(parties, T, a, polys, muls)
       case Err(e) => Err(e)
       case Ok(l) =>
         match Built(parties, T, b, l.polys, l.muls)
         case Err(e) => Err(e)
         case Ok(r) =>
           match SumUpTo(l.shares, r.shares, |parties|)
           case Err(e) => Err(e)
           case Ok(s) => Ok(r.(shares := s)))
    case Product(a, b) =>
      (match Built(parties, T, a, polys, muls)
       case Err(e) => Err(e)
       case Ok(l) =>
         match Built(parties, T, b, l.polys, l.muls)
         case Err(e) => Err(e)
         case Ok(r) =>
           match ProductUpTo(parties, T, r.polys, r.muls, l.shares, r.shares, |parties|)
           case Err(e) => Err(e)
           case Ok(s) => Ok(Build(s, r.polys + |parties|, r.muls + 1)))
  }

  /** The clear-text value of a circuit. */
  ghost function ClearText(w: World, c: Circuit): int
    requires WfWorld(w)
  {
    match c
    case Shared(s) => Value(w, s)
    case FromInput(k) => if w.given(k) == [] then 0 else w.given(k)[0]
    case Sum(a, b) => ClearText(w, a) + ClearText(w, b)
    case Scale(a, k) => ClearText(w, a) * k
    case Product(a, b) => ClearText(w, a) * ClearText(w, b)
  }

  /** The sharings given as inputs have degree at most T. */
  ghost predicate InputsOk(w: World, T: nat) {
    forall k :: |w.given(k)| == T + 1
  }

  /** Every circuit builds without an error and leaves a sharing of its clear-text value. */
  lemma {:induction false} CircuitCorrect(w: World, T: nat, c: Circuit, polys: nat, muls: nat)
    requires WfWorld(w) && |w.parties| >= 2 * T + 1 && InputsOk(w, T)
    ensures Built(w.parties, T, c, polys, muls).Ok?
    ensures IsSharing(w, T, Built(w.parties, T, c, polys, muls).value.shares, ClearText(w, c))
    decreases c
  {
    hide WfWorld, LieOn, SumUpTo, ProductUpTo, SharingOf, ScaledShares, Coefficients, IsSharing;
    match c
    case Shared(s) =>
      DealSharing(w, T, polys, s);
    case FromInput(k) =>
      InputSharing(w, T, k);
    case Scale(a, k) =>
      CircuitCorrect(w, T, a, polys, muls);
      ScaleSharing(w, T, Built(w.parties, T, a, polys, muls).value.shares, ClearText(w, a), k);
    case Sum(a, b) =>
      CircuitCorrect(w, T, a, polys, muls);
      var l := Built(w.parties, T, a, polys, muls).value;
      CircuitCorrect(w, T, b, l.polys, l.muls);
      AddSharings(w, T, l.shares, ClearText(w, a), Built(w.parties, T, b, l.polys, l.muls).value.shares,
                  ClearText(w, b));
    case Product(a, b) =>
      CircuitCorrect(w, T, a, polys, muls);
      var l := Built(w.parties, T, a, polys, muls).value;
      CircuitCorrect(w, T, b, l.polys, l.muls);
      var r := Built(w.parties, T, b, l.polys, l.muls).value;
      MultiplySharings(w, T, r.polys, r.muls, l.shares, ClearText(w, a), r.shares, ClearText(w, b));
  }

  lemma DealSharing(w: World, T: nat, id: nat, s: Expression)
    requires WfWorld(w)
    ensures IsSharing(w, T, SharingOf(w.parties, T, id, s), Value(w, s))
  {
    hide LieOn, WfWorld;
    DealShares(w, T, id, s);
  }

  lemma InputSharing(w: World, T: nat, k: nat)
    requires WfWorld(w) && InputsOk(w, T)
    ensures IsSharing(w, T, GivenShares(w.parties, k), w.given(k)[0])
  {
    hide LieOn, WfWorld;
    InputShares(w, T, k);
  }

  lemma ScaleSharing(w: World, T: nat, l: seq<Expression>, x: int, k: int)
    requires WfWorld(w) && IsSharing(w, T, l, x)
    ensures IsSharing(w, T, ScaledShares(l, Public(k)), x * k)
  {
    hide LieOn, WfWorld;
    var P :| LieOn(w, T, l, P, x);
    ScaleShares(w, T, l, P, x, Public(k));
  }

  /** End to end: any party to which the output is yielded learns the clear-text value. */
  lemma CircuitYields(w: World, T: nat, c: Circuit, to: Party)
    requires WfWorld(w) && |w.parties| >= 2 * T + 1 && InputsOk(w, T)
    ensures Built(w.parties, T, c, 0, 0).Ok?
    ensures var shares := Built(w.parties, T, c, 0, 0).value.shares;
            Cong(w.p, Value(w, Reconstruct(SentTo(shares, to), to)), ClearText(w, c))
  {
    hide WfWorld, Value, Cong, IsSharing, InputsOk, Built;
    CircuitCorrect(w, T, c, 0, 0);
    YieldReconstructs(w, T, Built(w.parties, T, c, 0, 0).value.shares, ClearText(w, c), to);
  }

  // ----- Products need 2T + 1 parties

  /** What a party learns to which the product of the first two given sharings is yielded. */
  ghost function YieldedProduct(w: World, T: nat, to: Party): Result<int, Error>
    requires WfWorld(w)
  {
    match Built(w.parties, T, Product(FromInput(0), FromInput(1)), 0, 0)
    case Err(e) => Err(e)
    case Ok(b) => Ok(Value(w, Reconstruct(SentTo(b.shares, to), to)))
  }

  /** The product of the first two given sharings comes out right. */
  ghost predicate ProductRight(w: World, T: nat, to: Party)
    requires WfWorld(w)
  {
    && YieldedProduct(w, T, to).Ok?
    && Cong(w.p, YieldedProduct(w, T, to).value, ClearText(w, Product(FromInput(0), FromInput(1))))
  }

  /** The same field, parties and points, and other inputs. */
  function WithInputs(w: World, P: seq<int>, Q: seq<int>): World {
    w.(given := (k: nat) => if k == 1 then Q else P)
  }

  lemma InputProducts(w: World, P: seq<int>, Q: seq<int>)
    requires WfWorld(w) && P != [] && Q != []
    ensures WfWorld(WithInputs(w, P, Q))
    ensures LocalProducts(WithInputs(w, P, Q), GivenShares(w.parties, 0), GivenShares(w.parties, 1))
         == Values(Times(P, Q), PointsOf(w))
  {
    hide Distinct, Prime, Times, Eval;
    var w', xs := WithInputs(w, P, Q), PointsOf(w);
    assert PointsOf(w') == xs;
    forall i | 0 <= i < |xs|
      ensures Value(w', Given(0, w.parties[i])) * Value(w', Given(1, w.parties[i])) == Eval(Times(P, Q), xs[i])
    {
      EvalTimes(P, Q, xs[i]);
    }
  }

  lemma InputsBuilt(parties: seq<Party>, T: nat)
    ensures Built(parties, T, FromInput(0), 0, 0) == Ok(Build(GivenShares(parties, 0), 0, 0))
    ensures Built(parties, T, FromInput(1), 0, 0) == Ok(Build(GivenShares(parties, 1), 0, 0))
    ensures ProductUpTo(parties, T, 0, 0, GivenShares(parties, 0), GivenShares(parties, 1), |parties|).Ok? ==>
      Built(parties, T, Product(FromInput(0), FromInput(1)), 0, 0) ==
      Ok(Build(ProductUpTo(parties, T, 0, 0, GivenShares(parties, 0), GivenShares(parties, 1), |parties|).value,
        |parties|, 1))
  {
    hide ProductUpTo;
  }

  /** Whatever the inputs, the yielded product is the recombination of the products of the shares. */
  lemma ProductYields(w: World, T: nat, to: Party)
    requires WfWorld(w) && |w.parties| >= T + 1
    ensures YieldedProduct(w, T, to).Ok?
    ensures Cong(w.p, YieldedProduct(w, T, to).value,
      Recombine(w.p, PointsOf(w), LocalProducts(w, GivenShares(w.parties, 0), GivenShares(w.parties, 1)), |w.parties|))
  {
    hide Prime, Distinct, LocalProducts, Recombine, IsSharing, ProductUpTo, Cong, Value, Built;
    var l, r, N := GivenShares(w.parties, 0), GivenShares(w.parties, 1), |w.parties|;
    PartialProducts(w, T, 0, 0, l, r, N);
    InputsBuilt(w.parties, T);
    YieldReconstructs(w, T, ProductUpTo(w.parties, T, 0, 0, l, r, N).value,
                      Recombine(w.p, PointsOf(w), LocalProducts(w, l, r), N), to);
  }

  /** With T + 1 to 2T parties a product of two nonzero values comes out as zero, without an error. */
  lemma ProductVanishes(w: World, T: nat, to: Party) returns (P: seq<int>, Q: seq<int>)
    requires WfWorld(w) && T + 1 <= |w.parties| <= 2 * T
    ensures |P| == |Q| == T + 1 && WfWorld(WithInputs(w, P, Q)) && YieldedProduct(WithInputs(w, P, Q), T, to).Ok?
    ensures Cong(w.p, YieldedProduct(WithInputs(w, P, Q), T, to).value, 0)
    ensures !Cong(w.p, ClearText(WithInputs(w, P, Q), Product(FromInput(0), FromInput(1))), 0)
  {
    hide Cong, Distinct, Times, Recombine, LocalProducts, YieldedProduct;
    P, Q := TooFewPoints(w.p, PointsOf(w), T);
    InputProducts(w, P, Q);
    var w' := WithInputs(w, P, Q);
    assert PointsOf(w') == PointsOf(w);
    ProductYields(w', T, to);
  }

  /** With T + 1 parties or more, products come out right for all inputs exactly from 2T + 1 parties on. */
  lemma ProductsNeedParties(w: World, T: nat, to: Party)
    requires WfWorld(w) && |w.parties| >= T + 1
    ensures |w.parties| >= 2 * T + 1 <==>
      forall P, Q :: |P| == |Q| == T + 1 ==> WfWorld(WithInputs(w, P, Q)) && ProductRight(WithInputs(w, P, Q), T, to)
  {
    assert w.p > 0;
    hide WfWorld, Cong, Value, ClearText;
    if |w.parties| >= 2 * T + 1 {
      forall P: seq<int>, Q: seq<int> | |P| == |Q| == T + 1
        ensures WfWorld(WithInputs(w, P, Q)) && ProductRight(WithInputs(w, P, Q), T, to)
      {
        InputProducts(w, P, Q);
        CircuitYields(WithInputs(w, P, Q), T, Product(FromInput(0), FromInput(1)), to);
      }
    } else {
      var P, Q := ProductVanishes(w, T, to);
      var w' := WithInputs(w, P, Q);
      if ProductRight(w', T, to) {
        WrongProduct(w', YieldedProduct(w', T, to).value, ClearText(w', Product(FromInput(0), FromInput(1))));
      }
    }
  }

  lemma WrongProduct(w: World, got: int, want: int)
    requires w.p > 0 && Cong(w.p, got, want) && Cong(w.p, got, 0)
    ensures Cong(w.p, want, 0)
  {
    CongSym(w.p, got, want);
    CongTrans(w.p, want, got, 0);
  }
}
