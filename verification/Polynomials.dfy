// Polynomials as coefficient sequences (constant term first) modulo a prime: root counting,
// and the functionals (a coefficient, or the value at a point) that a sharing's nodes hold.
module Polynomials {
  import opened Arith

  function Eval(P: seq<int>, x: int): int {
    if P == [] then 0 else P[0] + x * Eval(P[1..], x)
  }

  ghost predicate Vanishes(p: int, P: seq<int>)
    requires p > 0
  {
    forall i :: 0 <= i < |P| ==> Cong(p, P[i], 0)
  }

  ghost predicate Distinct(p: int, xs: seq<int>)
    requires p > 0
  {
    forall i, j :: 0 <= i < j < |xs| ==> !Cong(p, xs[i], xs[j])
  }

  /** P + c * Q, coefficient by coefficient. */
  function Plus(P: seq<int>, c: int, Q: seq<int>): (R: seq<int>)
    requires |P| == |Q|
    ensures |R| == |P|
  {
    seq(|P|, i requires 0 <= i < |P| => P[i] + c * Q[i])
  }

  lemma Distribute(x: int, a: int, c: int, b: int)
    ensures x * (a + c * b) == x * a + c * (x * b)
  {
  }

  lemma {:induction false} EvalPlus(P: seq<int>, c: int, Q: seq<int>, x: int)
    requires |P| == |Q|
    ensures Eval(Plus(P, c, Q), x) == Eval(P, x) + c * Eval(Q, x)
  {
    if P != [] {
      EvalPlus(P[1..], c, Q[1..], x);
      assert Plus(P, c, Q)[1..] == Plus(P[1..], c, Q[1..]);
      Distribute(x, Eval(P[1..], x), c, Eval(Q[1..], x));
      Distribute(c, Q[0], 1, x * Eval(Q[1..], x));
    }
  }

  lemma {:induction false} EvalVanishing(p: int, P: seq<int>, x: int)
    requires p > 0 && Vanishes(p, P)
    ensures Cong(p, Eval(P, x), 0)
  {
    if P != [] {
      EvalVanishing(p, P[1..], x);
      CongRefl(p, x);
      CongMul(p, x, x, Eval(P[1..], x), 0);
      CongAdd(p, P[0], 0, x * Eval(P[1..], x), 0);
    }
  }

  // ----- Root counting

  /** The quotient of P - P(a) by x - a. */
  function Quotient(P: seq<int>, a: int): (Q: seq<int>)
    ensures |P| > 0 ==> |Q| == |P| - 1
  {
    if |P| <= 1 then [] else [Eval(P[1..], a)] + Quotient(P[1..], a)
  }

  lemma DivisionStep(x: int, a: int, rx: int, ra: int, q: int)
    requires rx - ra == (x - a) * q
    ensures x * rx - a * ra == (x - a) * (ra + x * q)
  {
    assert (x - a) * (ra + x * q) == (x - a) * ra + x * ((x - a) * q);
  }

  lemma {:induction false} Division(P: seq<int>, a: int, x: int)
    ensures Eval(P, x) - Eval(P, a) == (x - a) * Eval(Quotient(P, a), x)
  {
    if |P| <= 1 {
      if |P| == 1 {
        assert Eval(P[1..], x) == 0 == Eval(P[1..], a);
      }
    } else {
      var R := P[1..];
      Division(R, a, x);
      assert Quotient(P, a)[1..] == Quotient(R, a);
      DivisionStep(x, a, Eval(R, x), Eval(R, a), Eval(Quotient(R, a), x));
    }
  }

  /** A zero quotient and a zero value at a leave the zero polynomial. */
  lemma {:induction false} QuotientVanishes(p: int, P: seq<int>, a: int)
    requires p > 0 && Vanishes(p, Quotient(P, a)) && Cong(p, Eval(P, a), 0)
    ensures Vanishes(p, P)
  {
    if |P| == 1 {
      assert Eval(P[1..], a) == 0;
    } else if |P| > 1 {
      var R, Q := P[1..], Quotient(P, a);
      assert Q[0] == Eval(R, a) && Q[1..] == Quotient(R, a);
      assert Vanishes(p, Quotient(R, a)) by {
        forall i | 0 <= i < |Quotient(R, a)| ensures Cong(p, Quotient(R, a)[i], 0) {
          assert Quotient(R, a)[i] == Q[i + 1];
        }
      }
      QuotientVanishes(p, R, a);
      CongRefl(p, a);
      CongMul(p, a, a, Eval(R, a), 0);
      CongAdd(p, Eval(P, a), 0, a * Eval(R, a), 0);
      forall i | 0 <= i < |P| ensures Cong(p, P[i], 0) {
        if i > 0 { assert P[i] == R[i - 1]; }
      }
    }
  }

  /** Root counting: n coefficients and n distinct roots only for the zero polynomial. */
  lemma {:induction false} RootsDetermine(p: int, P: seq<int>, xs: seq<int>)
    requires Prime(p) && Distinct(p, xs) && |xs| >= |P|
    requires forall i :: 0 <= i < |xs| ==> Cong(p, Eval(P, xs[i]), 0)
    ensures Vanishes(p, P)
    decreases |P|
  {
    if P != [] {
      var a, Q, rest := xs[0], Quotient(P, xs[0]), xs[1..];
      assert Cong(p, Eval(P, a), 0);
      forall i | 0 <= i < |rest| ensures Cong(p, Eval(Q, rest[i]), 0) {
        assert rest[i] == xs[i + 1];
        RootOfQuotient(p, P, a, rest[i]);
      }
      assert Distinct(p, rest) by {
        forall i, j | 0 <= i < j < |rest| ensures !Cong(p, rest[i], rest[j]) {
          assert rest[i] == xs[i + 1] && rest[j] == xs[j + 1];
        }
      }
      RootsDetermine(p, Q, rest);
      QuotientVanishes(p, P, a);
    }
  }

  lemma RootOfQuotient(p: int, P: seq<int>, a: int, b: int)
    requires Prime(p) && !Cong(p, a, b)
    requires Cong(p, Eval(P, a), 0) && Cong(p, Eval(P, b), 0)
    ensures Cong(p, Eval(Quotient(P, a), b), 0)
  {
    Division(P, a, b);
    CongAdd(p, Eval(P, b), 0, Eval(P, a), 0);
    NoZeroDivisors(p, b - a, Eval(Quotient(P, a), b));
    if Cong(p, b - a, 0) {
      CongSym(p, b, a);
    }
  }

  // ----- The monic polynomial with given roots

  function Monic(xs: seq<int>): (M: seq<int>)
    ensures |M| == |xs| + 1 && M[|xs|] == 1
  {
    if xs == [] then [1]
    else var M := Monic(xs[1..]); Plus([0] + M, -xs[0], M + [0])
  }

  lemma {:induction false} EvalPadded(P: seq<int>, n: nat, x: int)
    ensures Eval(P + seq(n, _ => 0), x) == Eval(P, x)
    decreases |P| + n
  {
    if P == [] {
      if n > 0 {
        var Z := seq(n, _ => 0);
        assert Z[1..] == seq(n - 1, _ => 0);
        EvalPadded([], n - 1, x);
        assert [] + seq(n - 1, _ => 0) == Z[1..];
        assert [] + Z == Z;
      }
    } else {
      assert (P + seq(n, _ => 0))[1..] == P[1..] + seq(n, _ => 0);
      EvalPadded(P[1..], n, x);
    }
  }

  lemma EvalMonicStep(xs: seq<int>, x: int)
    requires xs != []
    ensures Eval(Monic(xs), x) == (x - xs[0]) * Eval(Monic(xs[1..]), x)
  {
    var M := Monic(xs[1..]);
    EvalPlus([0] + M, -xs[0], M + [0], x);
    assert ([0] + M)[1..] == M;
    EvalPadded(M, 1, x);
    assert [0] == seq(1, _ => 0);
    assert Eval([0] + M, x) == x * Eval(M, x);
    assert (x - xs[0]) * Eval(M, x) == x * Eval(M, x) + (-xs[0]) * Eval(M, x);
  }

  lemma {:induction false} MonicRoot(xs: seq<int>, i: nat)
    requires i < |xs|
    ensures Eval(Monic(xs), xs[i]) == 0
  {
    EvalMonicStep(xs, xs[i]);
    if i > 0 {
      assert xs[i] == xs[1..][i - 1];
      MonicRoot(xs[1..], i - 1);
    }
  }

  /** Away from its roots the monic polynomial is nonzero. */
  lemma {:induction false} MonicNonRoot(p: int, xs: seq<int>, x: int)
    requires Prime(p) && forall i :: 0 <= i < |xs| ==> !Cong(p, x, xs[i])
    ensures !Cong(p, Eval(Monic(xs), x), 0)
  {
    if xs == [] {
      assert Eval([1], x) == 1 + x * Eval([], x);
    } else {
      assert forall i :: 0 <= i < |xs[1..]| ==> xs[1..][i] == xs[i + 1];
      MonicNonRoot(p, xs[1..], x);
      EvalMonicStep(xs, x);
      assert !Cong(p, x, xs[0]);
      if Cong(p, Eval(Monic(xs), x), 0) {
        NoZeroDivisors(p, x - xs[0], Eval(Monic(xs[1..]), x));
      }
    }
  }

  // ----- Functionals of a polynomial, and sets of them that determine it

  datatype Role = Coef(k: nat) | At(x: int)

  function Apply(r: Role, P: seq<int>): int {
    match r
    case Coef(k) => if k < |P| then P[k] else 0
    case At(x) => Eval(P, x)
  }

  lemma ApplyPlus(r: Role, P: seq<int>, c: int, Q: seq<int>)
    requires |P| == |Q|
    ensures Apply(r, Plus(P, c, Q)) == Apply(r, P) + c * Apply(r, Q)
  {
    if r.At? { EvalPlus(P, c, Q, r.x); }
  }

  ghost predicate Kills(p: int, R: set<Role>, P: seq<int>)
    requires p > 0
  {
    forall r :: r in R ==> Cong(p, Apply(r, P), 0)
  }

  /** Only the zero polynomial of degree at most T is zero under every functional of R. */
  ghost predicate Determines(p: int, T: nat, R: set<Role>)
    requires p > 0
  {
    forall P: seq<int> :: |P| == T + 1 && Kills(p, R, P) ==> Vanishes(p, P)
  }

  lemma DeterminesMonotone(p: int, T: nat, R: set<Role>, R': set<Role>)
    requires p > 0 && R <= R' && Determines(p, T, R)
    ensures Determines(p, T, R')
  {
    forall P: seq<int> | |P| == T + 1 && Kills(p, R', P) ensures Vanishes(p, P) {
      assert Kills(p, R, P);
    }
  }

  lemma ApplyVanishing(p: int, r: Role, P: seq<int>)
    requires p > 0 && Vanishes(p, P)
    ensures Cong(p, Apply(r, P), 0)
  {
    if r.At? { EvalVanishing(p, P, r.x); }
  }

  /** Two polynomials that agree on a determining set agree under every functional. */
  lemma AgreeEverywhere(p: int, T: nat, R: set<Role>, P: seq<int>, Q: seq<int>, r: Role)
    requires p > 0 && Determines(p, T, R) && |P| == |Q| == T + 1
    requires forall s :: s in R ==> Cong(p, Apply(s, P), Apply(s, Q))
    ensures Cong(p, Apply(r, P), Apply(r, Q))
  {
    var D := Plus(P, -1, Q);
    forall s | s in R ensures Cong(p, Apply(s, D), 0) {
      ApplyPlus(s, P, -1, Q);
    }
    assert Kills(p, R, D);
    ApplyVanishing(p, r, D);
    ApplyPlus(r, P, -1, Q);
  }

  ghost function Points(xs: seq<int>): set<Role> {
    set i | 0 <= i < |xs| :: At(xs[i])
  }

  /** T + 1 distinct points determine a polynomial of degree at most T. */
  lemma PointsDetermine(p: int, T: nat, xs: seq<int>)
    requires Prime(p) && Distinct(p, xs) && |xs| == T + 1
    ensures Determines(p, T, Points(xs))
  {
    forall P: seq<int> | |P| == T + 1 && Kills(p, Points(xs), P) ensures Vanishes(p, P) {
      forall i | 0 <= i < |xs| ensures Cong(p, Eval(P, xs[i]), 0) {
        assert At(xs[i]) in Points(xs);
        assert Cong(p, Apply(At(xs[i]), P), 0);
      }
      RootsDetermine(p, P, xs);
    }
  }

  /** The secret and T distinct nonzero points determine it too: the secret is the value at 0. */
  lemma SecretAndPointsDetermine(p: int, T: nat, xs: seq<int>)
    requires Prime(p) && Distinct(p, [0] + xs) && |xs| == T
    ensures Determines(p, T, {Coef(0)} + Points(xs))
  {
    forall P: seq<int> | |P| == T + 1 && Kills(p, {Coef(0)} + Points(xs), P) ensures Vanishes(p, P) {
      var ys := [0] + xs;
      forall i | 0 <= i < |ys| ensures Cong(p, Eval(P, ys[i]), 0) {
        if i == 0 {
          assert Cong(p, Apply(Coef(0), P), 0);
        } else {
          assert ys[i] == xs[i - 1] && At(xs[i - 1]) in Points(xs);
          assert Cong(p, Apply(At(xs[i - 1]), P), 0);
        }
      }
      RootsDetermine(p, P, ys);
    }
  }

  /** All T + 1 coefficients determine it. */
  lemma CoefficientsDetermine(p: int, T: nat, R: set<Role>)
    requires p > 0 && forall k :: 0 <= k <= T ==> Coef(k) in R
    ensures Determines(p, T, R)
  {
    forall P: seq<int> | |P| == T + 1 && Kills(p, R, P) ensures Vanishes(p, P) {
      forall i | 0 <= i < |P| ensures Cong(p, P[i], 0) {
        assert Cong(p, Apply(Coef(i), P), 0);
      }
    }
  }

  /** A polynomial of degree at most |xs| with roots xs is its leading coefficient times Monic(xs). */
  lemma MultipleOfMonic(p: int, P: seq<int>, xs: seq<int>, c: int)
    requires Prime(p) && Distinct(p, xs) && |P| == |xs| + 1 && c == P[|xs|]
    requires Kills(p, Points(xs), P)
    ensures Vanishes(p, Plus(P, -c, Monic(xs)))
  {
    hide Cong, Monic, Eval;
    var D := Plus(P, -c, Monic(xs));
    var D' := D[..|xs|];
    assert D == D' + [0] && seq(1, _ => 0) == [0];
    forall i | 0 <= i < |xs| ensures Cong(p, Eval(D', xs[i]), 0) {
      EvalPadded(D', 1, xs[i]);
      EvalPlus(P, -c, Monic(xs), xs[i]);
      MonicRoot(xs, i);
      assert At(xs[i]) in Points(xs);
      assert Cong(p, Apply(At(xs[i]), P), 0);
    }
    RootsDetermine(p, D', xs);
    assert D[|xs|] == P[|xs|] + (-c) * 1 == 0;
    CongRefl(p, 0);
    forall i | 0 <= i < |D| ensures Cong(p, D[i], 0) {
      assert i < |xs| ==> D[i] == D'[i];
    }
  }

  lemma MonicAtRoot(xs: seq<int>, r: Role)
    requires r in Points(xs)
    ensures Apply(r, Monic(xs)) == 0
  {
    var i :| 0 <= i < |xs| && r == At(xs[i]);
    MonicRoot(xs, i);
  }

  lemma MonicKilled(p: int, k: nat, xs: seq<int>)
    requires p > 1 && k <= |xs| && Cong(p, Monic(xs)[k], 0)
    ensures Kills(p, {Coef(k)} + Points(xs), Monic(xs)) && !Vanishes(p, Monic(xs))
  {
    hide Cong, Monic;
    var M := Monic(xs);
    CongRefl(p, 0);
    forall r | r in {Coef(k)} + Points(xs) ensures Cong(p, Apply(r, M), 0) {
      if r in Points(xs) { MonicAtRoot(xs, r); }
    }
    OneIsNotZero(p);
    assert M[|xs|] == 1;
  }

  lemma ScaledBack(p: int, a: int, c: int, m: int)
    requires Prime(p) && Cong(p, a - c * m, 0)
    ensures Cong(p, a, 0) && !Cong(p, m, 0) ==> Cong(p, c, 0)
    ensures Cong(p, c, 0) ==> Cong(p, a, 0)
  {
    if Cong(p, a, 0) && !Cong(p, m, 0) {
      CongAdd(p, a, 0, a - c * m, 0);
      NoZeroDivisors(p, c, m);
    }
    if Cong(p, c, 0) {
      CongMul(p, c, 0, m, m);
      CongAdd(p, a - c * m, 0, c * m, 0);
    }
  }

  lemma KilledMultiple(p: int, P: seq<int>, k: nat, xs: seq<int>, c: int)
    requires Prime(p) && Distinct(p, xs) && |P| == |xs| + 1 && k <= |xs| && c == P[|xs|]
    requires Kills(p, Points(xs), P)
    requires Cong(p, P[k], 0) && !Cong(p, Monic(xs)[k], 0)
    ensures Vanishes(p, P)
  {
    hide Cong, Monic, Eval;
    var M := Monic(xs);
    MultipleOfMonic(p, P, xs, c);
    var D := Plus(P, -c, M);
    assert D[k] == P[k] + (-c) * M[k] == P[k] - c * M[k];
    ScaledBack(p, P[k], c, M[k]);
    forall i | 0 <= i < |P| ensures Cong(p, P[i], 0) {
      assert D[i] == P[i] + (-c) * M[i] == P[i] - c * M[i];
      ScaledBack(p, P[i], c, M[i]);
    }
  }

  /**
   * One coefficient and T distinct points: they determine the polynomial exactly when the
   * same coefficient of the monic polynomial with those points as roots is nonzero.
   */
  lemma CoefficientAndPointsDetermine(p: int, k: nat, xs: seq<int>)
    requires Prime(p) && Distinct(p, xs) && k <= |xs|
    ensures Determines(p, |xs|, {Coef(k)} + Points(xs)) <==> !Cong(p, Monic(xs)[k], 0)
  {
    var M, R := Monic(xs), {Coef(k)} + Points(xs);
    if Cong(p, M[k], 0) {
      MonicKilled(p, k, xs);
    } else {
      forall P: seq<int> | |P| == |xs| + 1 && Kills(p, R, P) ensures Vanishes(p, P) {
        assert Cong(p, Apply(Coef(k), P), 0);
        assert Kills(p, Points(xs), P);
        KilledMultiple(p, P, k, xs, P[|xs|]);
      }
    }
  }

  /**
   * The determination really can fail: modulo 7, with T = 2, the linear coefficient and the
   * values at 2 and 5 do not determine a polynomial, since (x - 2)(x - 5) has no linear term.
   */
  lemma LinearCoefficientCounterexample()
    ensures Prime(7) && Distinct(7, [2, 5])
    ensures !Determines(7, 2, {Coef(1)} + Points([2, 5]))
  {
    var xs := [2, 5];
    assert xs[1..] == [5] && [5][1..] == [];
    assert Monic([5]) == [-5, 1] by { assert Monic([]) == [1]; }
    assert Monic(xs) == [10, -7, 1];
    CoefficientAndPointsDetermine(7, 1, xs);
  }
}
