// Recombination at zero: the Lagrange coefficients of N points turn the values of any
// polynomial with at most N coefficients into its constant term, and of no larger family.
module Lagrange {
  import opened Arith
  import opened Polynomials

  // ----- Products of polynomials

  function Zeros(n: nat): (z: seq<int>)
    ensures |z| == n
  {
    seq(n, _ => 0)
  }

  function Times(P: seq<int>, Q: seq<int>): (R: seq<int>)
    requires P != [] && Q != []
    ensures |R| == |P| + |Q| - 1
  {
    if |P| == 1 then Plus(Zeros(|Q|), P[0], Q)
    else Plus([0] + Times(P[1..], Q), P[0], Q + Zeros(|P| - 1))
  }

  lemma EvalZeros(n: nat, x: int)
    ensures Eval(Zeros(n), x) == 0
  {
    EvalPadded([], n, x);
    assert [] + Zeros(n) == Zeros(n);
  }

  lemma EvalShifted(P: seq<int>, x: int)
    ensures Eval([0] + P, x) == x * Eval(P, x)
  {
    assert ([0] + P)[1..] == P;
  }

  lemma TimesStep(x: int, a: int, r: int, q: int)
    ensures x * (r * q) + a * q == (a + x * r) * q
  {
  }

  lemma {:induction false} EvalTimes(P: seq<int>, Q: seq<int>, x: int)
    requires P != [] && Q != []
    ensures Eval(Times(P, Q), x) == Eval(P, x) * Eval(Q, x)
  {
    hide Plus, Zeros;
    if |P| == 1 {
      EvalPlus(Zeros(|Q|), P[0], Q, x);
      EvalZeros(|Q|, x);
      assert Eval(P[1..], x) == 0;
    } else {
      EvalTimes(P[1..], Q, x);
      EvalProduct(P, Q, Times(P[1..], Q), x);
      EvalShifted(Times(P[1..], Q), x);
      TimesStep(x, P[0], Eval(P[1..], x), Eval(Q, x));
    }
  }

  lemma EvalProduct(P: seq<int>, Q: seq<int>, R: seq<int>, x: int)
    requires |P| > 1 && |R| + 1 == |Q| + |P| - 1
    ensures Eval(Plus([0] + R, P[0], Q + Zeros(|P| - 1)), x) == Eval([0] + R, x) + P[0] * Eval(Q, x)
  {
    hide Plus, Eval;
    EvalPlus([0] + R, P[0], Q + Zeros(|P| - 1), x);
    EvalPadded(Q, |P| - 1, x);
  }

  lemma EvalAtZero(P: seq<int>)
    requires P != []
    ensures Eval(P, 0) == P[0]
  {
  }

  // ----- Lagrange coefficients at zero

  function Without(xs: seq<int>, i: nat): (r: seq<int>)
    requires i < |xs|
    ensures |r| == |xs| - 1
  {
    xs[..i] + xs[i + 1..]
  }

  /** The inverse of the product of x_i - x_j over the other points. */
  ghost function Norm(p: int, xs: seq<int>, i: nat): (y: int)
    requires Prime(p) && Distinct(p, xs) && i < |xs|
    ensures Cong(p, Eval(Monic(Without(xs, i)), xs[i]) * y, 1)
  {
    OwnPoint(p, xs, i);
    var m := Eval(Monic(Without(xs, i)), xs[i]);
    CongMod(p, m);
    var y := Inverse(p, m % p);
    CongSym(p, m % p, m);
    CongMul(p, m, m % p, y, y);
    CongTrans(p, m * y, (m % p) * y, 1);
    y
  }

  lemma OwnPoint(p: int, xs: seq<int>, i: nat)
    requires Prime(p) && Distinct(p, xs) && i < |xs|
    ensures !Cong(p, Eval(Monic(Without(xs, i)), xs[i]), 0)
    ensures Eval(Monic(Without(xs, i)), xs[i]) % p != 0
  {
    var ys := Without(xs, i);
    forall j | 0 <= j < |ys| ensures !Cong(p, xs[i], ys[j]) {
      var k := if j < i then j else j + 1;
      assert ys[j] == xs[k];
      if Cong(p, xs[i], xs[k]) { CongSym(p, xs[i], xs[k]); }
    }
    MonicNonRoot(p, ys, xs[i]);
  }

  lemma OtherPoint(xs: seq<int>, i: nat, j: nat)
    requires i < |xs| && j < |xs| && i != j
    ensures Eval(Monic(Without(xs, i)), xs[j]) == 0
  {
    var k := if j < i then j else j - 1;
    assert Without(xs, i)[k] == xs[j];
    MonicRoot(Without(xs, i), k);
  }

  ghost function Lambda(p: int, xs: seq<int>, i: nat): int
    requires Prime(p) && Distinct(p, xs) && i < |xs|
  {
    Norm(p, xs, i) * Eval(Monic(Without(xs, i)), 0)
  }

  /** The sum of the first n values, each times its Lagrange coefficient. */
  ghost function Recombine(p: int, xs: seq<int>, ys: seq<int>, n: nat): int
    requires Prime(p) && Distinct(p, xs) && n <= |ys| <= |xs|
  {
    if n == 0 then 0 else Recombine(p, xs, ys, n - 1) + ys[n - 1] * Lambda(p, xs, n - 1)
  }

  /** The polynomial through the first n values, zero at the other points. */
  ghost function Interpolated(p: int, xs: seq<int>, ys: seq<int>, n: nat): (P: seq<int>)
    requires Prime(p) && Distinct(p, xs) && n <= |ys| <= |xs|
    ensures |P| == |xs|
  {
    if n == 0 then Zeros(|xs|)
    else Plus(Interpolated(p, xs, ys, n - 1), ys[n - 1] * Norm(p, xs, n - 1), Monic(Without(xs, n - 1)))
  }

  lemma {:induction false} InterpolatedAtZero(p: int, xs: seq<int>, ys: seq<int>, n: nat)
    requires Prime(p) && Distinct(p, xs) && n <= |ys| <= |xs|
    ensures Eval(Interpolated(p, xs, ys, n), 0) == Recombine(p, xs, ys, n)
  {
    hide Cong, Distinct, Monic, Norm;
    if n == 0 {
      EvalZeros(|xs|, 0);
    } else {
      InterpolatedAtZero(p, xs, ys, n - 1);
      var y, c, M := ys[n - 1], Norm(p, xs, n - 1), Monic(Without(xs, n - 1));
      EvalPlus(Interpolated(p, xs, ys, n - 1), y * c, M, 0);
      assert y * c * Eval(M, 0) == y * (c * Eval(M, 0));
    }
  }

  lemma Normalised(p: int, y: int, c: int, m: int)
    requires p > 0 && Cong(p, m * c, 1)
    ensures Cong(p, y * c * m, y)
  {
    hide Cong;
    CongRefl(p, y);
    CongMul(p, y, y, m * c, 1);
    assert y * c * m == y * (m * c);
  }

  lemma {:induction false} InterpolatedAt(p: int, xs: seq<int>, ys: seq<int>, n: nat, j: nat)
    requires Prime(p) && Distinct(p, xs) && n <= |ys| <= |xs| && j < |xs|
    ensures Cong(p, Eval(Interpolated(p, xs, ys, n), xs[j]), if j < n then ys[j] else 0)
  {
    hide Cong, Distinct, Monic, Norm, Eval, Plus, Zeros;
    CongRefl(p, 0);
    if n == 0 {
      EvalZeros(|xs|, xs[j]);
    } else {
      InterpolatedAt(p, xs, ys, n - 1, j);
      var y, c, M := ys[n - 1], Norm(p, xs, n - 1), Monic(Without(xs, n - 1));
      var L := Interpolated(p, xs, ys, n - 1);
      EvalPlus(L, y * c, M, xs[j]);
      if j == n - 1 {
        Normalised(p, y, c, Eval(M, xs[j]));
        CongAdd(p, Eval(L, xs[j]), 0, y * c * Eval(M, xs[j]), y);
      } else {
        OtherPoint(xs, n - 1, j);
      }
    }
  }

  ghost function Values(P: seq<int>, xs: seq<int>): (ys: seq<int>)
    ensures |ys| == |xs|
  {
    seq(|xs|, i requires 0 <= i < |xs| => Eval(P, xs[i]))
  }

  lemma AgreeAt(p: int, xs: seq<int>, P: seq<int>, n: nat, j: nat)
    requires Prime(p) && Distinct(p, xs) && |P| <= |xs| == n && j < n
    ensures var L, R := Interpolated(p, xs, Values(P, xs), n), P + Zeros(n - |P|);
            Cong(p, Eval(Plus(L, -1, R), xs[j]), 0)
  {
    hide Cong, Distinct, Interpolated, Eval, Plus;
    var ys, R := Values(P, xs), P + Zeros(n - |P|);
    var L := Interpolated(p, xs, ys, n);
    InterpolatedAt(p, xs, ys, n, j);
    EvalPlus(L, -1, R, xs[j]);
    EvalPadded(P, n - |P|, xs[j]);
    CongDifference(p, Eval(L, xs[j]), ys[j]);
  }

  /** Recombination recovers the value at zero of every polynomial with at most N coefficients. */
  lemma LagrangeAtZero(p: int, xs: seq<int>, P: seq<int>)
    requires Prime(p) && Distinct(p, xs) && |P| <= |xs|
    ensures Cong(p, Recombine(p, xs, Values(P, xs), |xs|), Eval(P, 0))
  {
    hide Cong, Distinct, Recombine, Interpolated, Eval, Plus;
    var n := |xs|;
    var ys, R := Values(P, xs), P + Zeros(n - |P|);
    var L := Interpolated(p, xs, ys, n);
    var D := Plus(L, -1, R);
    forall j | 0 <= j < n ensures Cong(p, Eval(D, xs[j]), 0) {
      AgreeAt(p, xs, P, n, j);
    }
    RootsDetermine(p, D, xs);
    EvalVanishing(p, D, 0);
    EvalPlus(L, -1, R, 0);
    EvalPadded(P, n - |P|, 0);
    InterpolatedAtZero(p, xs, ys, n);
    CongDifference(p, Eval(L, 0), Eval(P, 0));
  }

  lemma CongDifference(p: int, a: int, b: int)
    requires p > 0
    ensures Cong(p, a, b) <==> Cong(p, a + (-1) * b, 0)
  {
  }

  lemma {:induction false} RecombineCong(p: int, xs: seq<int>, ys: seq<int>, zs: seq<int>, n: nat)
    requires Prime(p) && Distinct(p, xs) && n <= |ys| == |zs| <= |xs|
    requires forall i :: 0 <= i < n ==> Cong(p, ys[i], zs[i])
    ensures Cong(p, Recombine(p, xs, ys, n), Recombine(p, xs, zs, n))
  {
    hide Cong, Distinct, Lambda;
    CongRefl(p, 0);
    if n > 0 {
      RecombineCong(p, xs, ys, zs, n - 1);
      var l := Lambda(p, xs, n - 1);
      CongRefl(p, l);
      CongMul(p, ys[n - 1], zs[n - 1], l, l);
      CongAdd(p, Recombine(p, xs, ys, n - 1), Recombine(p, xs, zs, n - 1), ys[n - 1] * l, zs[n - 1] * l);
    }
  }

  /** The constant term of a product, from the products of the values at 2T + 1 points or more. */
  lemma ProductAtZero(p: int, xs: seq<int>, P: seq<int>, Q: seq<int>, T: nat)
    requires Prime(p) && Distinct(p, xs) && |P| == |Q| == T + 1 && |xs| >= 2 * T + 1
    ensures Cong(p, Recombine(p, xs, Values(Times(P, Q), xs), |xs|), P[0] * Q[0])
  {
    LagrangeAtZero(p, xs, Times(P, Q));
    EvalTimes(P, Q, 0);
    EvalAtZero(P);
    EvalAtZero(Q);
  }

  // ----- 2T + 1 points are needed

  lemma ZeroValues(p: int, xs: seq<int>, ys: seq<int>, n: nat)
    requires Prime(p) && Distinct(p, xs) && n <= |ys| <= |xs| && forall i :: 0 <= i < n ==> ys[i] == 0
    ensures Recombine(p, xs, ys, n) == 0
  {
    if n > 0 { ZeroValues(p, xs, ys, n - 1); }
  }

  /**
   * With at most 2T points the products of the shares do not fix the product of the secrets:
   * two polynomials of degree at most T have nonzero constant terms although the product of
   * their values is zero at every point.
   */
  lemma TooFewPoints(p: int, xs: seq<int>, T: nat) returns (P: seq<int>, Q: seq<int>)
    requires Prime(p) && Distinct(p, xs) && (forall i :: 0 <= i < |xs| ==> !Cong(p, 0, xs[i])) && |xs| <= 2 * T
    ensures |P| == |Q| == T + 1
    ensures Recombine(p, xs, Values(Times(P, Q), xs), |xs|) == 0 && !Cong(p, P[0] * Q[0], 0)
  {
    hide Cong, Distinct, Recombine, Roots, Times, Prime;
    var k := if |xs| <= T then |xs| else T;
    var left, right := xs[..k], xs[k..];
    assert p > 0 by { PrimePositive(p); }
    SublistDistinct(p, xs, k);
    P := Roots(left, T);
    Q := Roots(right, T);
    forall i | 0 <= i < |xs| ensures Values(Times(P, Q), xs)[i] == 0 {
      EvalTimes(P, Q, xs[i]);
      if i < k { RootsVanish(left, T, i); } else { RootsVanish(right, T, i - k); }
    }
    ZeroValues(p, xs, Values(Times(P, Q), xs), |xs|);
    RootsSecret(p, left, T);
    RootsSecret(p, right, T);
    if Cong(p, P[0] * Q[0], 0) { NoZeroDivisors(p, P[0], Q[0]); }
  }

  /** A polynomial of degree at most T with these roots. */
  function Roots(xs: seq<int>, T: nat): (P: seq<int>)
    requires |xs| <= T
    ensures |P| == T + 1
  {
    Monic(xs) + Zeros(T - |xs|)
  }

  lemma RootsVanish(xs: seq<int>, T: nat, i: nat)
    requires i < |xs| <= T
    ensures Eval(Roots(xs, T), xs[i]) == 0
  {
    hide Monic;
    EvalPadded(Monic(xs), T - |xs|, xs[i]);
    MonicRoot(xs, i);
  }

  lemma RootsSecret(p: int, xs: seq<int>, T: nat)
    requires Prime(p) && Distinct(p, xs) && (forall i :: 0 <= i < |xs| ==> !Cong(p, 0, xs[i])) && |xs| <= T
    ensures !Cong(p, Roots(xs, T)[0], 0)
  {
    hide Cong, Distinct, Monic;
    MonicNonRoot(p, xs, 0);
    EvalAtZero(Roots(xs, T));
    EvalPadded(Monic(xs), T - |xs|, 0);
  }

  lemma SublistDistinct(p: int, xs: seq<int>, k: nat)
    requires p > 0 && Distinct(p, xs) && k <= |xs|
    ensures Distinct(p, xs[..k]) && Distinct(p, xs[k..])
  {
  }
}
