// A check that decides whether values determine a polynomial: Gaussian elimination on the
// rows of the functionals, modulo a prime. It makes general position a condition that can
// be computed from the points.
module Elimination {
  import opened Arith
  import opened Polynomials

  // ----- Rows

  function Dot(r: seq<int>, c: seq<int>): int
    requires |r| == |c|
  {
    if c == [] then 0 else r[0] * c[0] + Dot(r[1..], c[1..])
  }

  /** f, f * x, f * x^2 and so on. */
  function Powers(x: int, w: nat, f: int): (r: seq<int>)
    ensures |r| == w
  {
    if w == 0 then [] else [f] + Powers(x, w - 1, f * x)
  }

  /** The row of a functional: its value on each coefficient. */
  function RowOf(r: Role, w: nat): (row: seq<int>)
    ensures |row| == w
  {
    match r
    case Coef(k) => seq(w, i => if i == k then 1 else 0)
    case At(x) => Powers(x, w, 1)
  }

  lemma PowerStep(f: int, a: int, x: int, e: int)
    ensures f * a + (f * x) * e == f * (a + x * e)
  {
  }

  lemma {:induction false} DotPowers(x: int, P: seq<int>, f: int)
    ensures Dot(Powers(x, |P|, f), P) == f * Eval(P, x)
  {
    if P != [] {
      DotPowers(x, P[1..], f * x);
      assert Powers(x, |P|, f)[1..] == Powers(x, |P| - 1, f * x);
      PowerStep(f, P[0], x, Eval(P[1..], x));
    }
  }

  lemma {:induction false} DotUnit(k: int, P: seq<int>)
    ensures Dot(seq(|P|, i => if i == k then 1 else 0), P) == if 0 <= k < |P| then P[k] else 0
    decreases |P|
  {
    if P != [] {
      DotUnit(k - 1, P[1..]);
      var r := seq(|P|, i => if i == k then 1 else 0);
      assert r[1..] == seq(|P| - 1, i => if i == k - 1 then 1 else 0);
    }
  }

  lemma ApplyDot(r: Role, P: seq<int>)
    ensures Apply(r, P) == Dot(RowOf(r, |P|), P)
  {
    match r
    case Coef(k) => DotUnit(k, P);
    case At(x) => DotPowers(x, P, 1);
  }

  // ----- Elimination

  predicate Wide(rows: seq<seq<int>>, w: nat) {
    forall j :: 0 <= j < |rows| ==> |rows[j]| == w
  }

  /** b with its first column cleared by a. */
  function Cleared(a: seq<int>, b: seq<int>): (r: seq<int>)
    requires |a| == |b| > 0
    ensures |r| == |a| - 1
  {
    seq(|a| - 1, c requires 0 <= c < |a| - 1 => a[0] * b[c + 1] - b[0] * a[c + 1])
  }

  function Reduced(rows: seq<seq<int>>, i: nat, w: nat): (r: seq<seq<int>>)
    requires Wide(rows, w) && w > 0 && i < |rows|
    ensures |r| == |rows| && Wide(r, w - 1)
  {
    seq(|rows|, j requires 0 <= j < |rows| => Cleared(rows[i], rows[j]))
  }

  /** The first row with a nonzero first entry, or the number of rows. */
  function Pivot(p: int, rows: seq<seq<int>>, w: nat): (i: nat)
    requires p > 0 && Wide(rows, w) && w > 0
    ensures i <= |rows| && (i < |rows| ==> rows[i][0] % p != 0)
    ensures forall j :: 0 <= j < i ==> rows[j][0] % p == 0
  {
    if rows == [] || rows[0][0] % p != 0 then 0 else 1 + Pivot(p, rows[1..], w)
  }

  /** Every column gets a pivot. */
  predicate Independent(p: int, rows: seq<seq<int>>, w: nat)
    requires p > 0 && Wide(rows, w)
    decreases w
  {
    w == 0 || (Pivot(p, rows, w) < |rows| && Independent(p, Reduced(rows, Pivot(p, rows, w), w), w - 1))
  }

  ghost predicate InKernel(p: int, rows: seq<seq<int>>, c: seq<int>)
    requires p > 0 && Wide(rows, |c|)
  {
    forall j :: 0 <= j < |rows| ==> Cong(p, Dot(rows[j], c), 0)
  }

  lemma {:induction false} DotCombination(a: seq<int>, b: seq<int>, s: int, t: int, c: seq<int>)
    requires |a| == |b| == |c|
    ensures Dot(seq(|a|, i requires 0 <= i < |a| => s * b[i] - t * a[i]), c) == s * Dot(b, c) - t * Dot(a, c)
  {
    if c != [] {
      var r := seq(|a|, i requires 0 <= i < |a| => s * b[i] - t * a[i]);
      DotCombination(a[1..], b[1..], s, t, c[1..]);
      assert r[1..] == seq(|a| - 1, i requires 0 <= i < |a| - 1 => s * b[1..][i] - t * a[1..][i]);
      var x, y := Dot(b[1..], c[1..]), Dot(a[1..], c[1..]);
      assert (s * b[0] - t * a[0]) * c[0] + (s * x - t * y) == s * (b[0] * c[0] + x) - t * (a[0] * c[0] + y) by {
        Regroup(s, t, b[0], a[0], c[0], x, y);
      }
    }
  }

  lemma Regroup(s: int, t: int, b: int, a: int, c: int, x: int, y: int)
    ensures (s * b - t * a) * c + (s * x - t * y) == s * (b * c + x) - t * (a * c + y)
  {
    assert (s * b - t * a) * c == s * (b * c) - t * (a * c);
  }

  lemma ClearedTail(a: seq<int>, b: seq<int>)
    requires |a| == |b| > 0
    ensures Cleared(a, b) == seq(|a| - 1, i requires 0 <= i < |a| - 1 => a[0] * b[1..][i] - b[0] * a[1..][i])
  {
  }

  lemma DotCons(r: seq<int>, c: seq<int>)
    requires |r| == |c| > 0
    ensures Dot(r, c) == r[0] * c[0] + Dot(r[1..], c[1..])
  {
  }

  lemma DotCleared(a: seq<int>, b: seq<int>, c: seq<int>)
    requires |a| == |b| == |c| > 0
    ensures Dot(Cleared(a, b), c[1..]) == a[0] * Dot(b, c) - b[0] * Dot(a, c)
  {
    hide Dot, Cleared;
    ClearedTail(a, b);
    DotCombination(a[1..], b[1..], a[0], b[0], c[1..]);
    DotCons(a, c);
    DotCons(b, c);
    Cancel(a[0], b[0], c[0], Dot(b[1..], c[1..]), Dot(a[1..], c[1..]), Dot(a, c), Dot(b, c));
  }

  lemma LongerNonzero(p: int, x: int, d: seq<int>)
    requires p > 0 && !Vanishes(p, d)
    ensures !Vanishes(p, [x] + d)
  {
    var k :| 0 <= k < |d| && !Cong(p, d[k], 0);
    assert ([x] + d)[k + 1] == d[k];
  }

  lemma Cancel(a: int, b: int, c: int, x: int, y: int, A: int, B: int)
    requires A == a * c + y && B == b * c + x
    ensures a * B - b * A == a * x - b * y
  {
    assert a * (b * c) == b * (a * c);
  }

  lemma CongScaled(p: int, s: int, x: int)
    requires p > 0 && Cong(p, x, 0)
    ensures Cong(p, s * x, 0)
  {
    CongRefl(p, s);
    CongMul(p, s, s, x, 0);
  }

  lemma {:induction false} DotVanishing(p: int, r: seq<int>, c: seq<int>)
    requires p > 0 && |r| == |c| && Vanishes(p, c)
    ensures Cong(p, Dot(r, c), 0)
  {
    if c != [] {
      assert forall i :: 0 <= i < |c| - 1 ==> c[1..][i] == c[i + 1];
      DotVanishing(p, r[1..], c[1..]);
      assert Cong(p, c[0], 0);
      CongScaled(p, r[0], c[0]);
      CongAdd(p, r[0] * c[0], 0, Dot(r[1..], c[1..]), 0);
    }
  }

  /** A pivot in every column leaves only the zero vector in the kernel. */
  lemma {:induction false} IndependentKernel(p: int, rows: seq<seq<int>>, c: seq<int>)
    requires Prime(p) && Wide(rows, |c|) && Independent(p, rows, |c|) && InKernel(p, rows, c)
    ensures Vanishes(p, c)
    decreases |c|
  {
    hide Cong;
    if c != [] {
      var i := Pivot(p, rows, |c|);
      var a := rows[i];
      forall j | 0 <= j < |rows| ensures Cong(p, Dot(Reduced(rows, i, |c|)[j], c[1..]), 0) {
        DotCleared(a, rows[j], c);
        CongScaled(p, a[0], Dot(rows[j], c));
        CongScaled(p, rows[j][0], Dot(a, c));
        CongAdd(p, a[0] * Dot(rows[j], c), 0, rows[j][0] * Dot(a, c), 0);
      }
      IndependentKernel(p, Reduced(rows, i, |c|), c[1..]);
      DotVanishing(p, a[1..], c[1..]);
      CongAdd(p, Dot(a, c), 0, Dot(a[1..], c[1..]), 0);
      PivotCancels(p, a[0], c[0]);
      forall k | 0 <= k < |c| ensures Cong(p, c[k], 0) {
        if k > 0 { assert c[k] == c[1..][k - 1]; }
      }
    }
  }

  lemma PivotCancels(p: int, a: int, x: int)
    requires Prime(p) && a % p != 0 && Cong(p, a * x, 0)
    ensures Cong(p, x, 0)
  {
    NoZeroDivisors(p, a, x);
  }

  /** A column without a pivot leaves more. */
  lemma {:induction false} DependentKernel(p: int, rows: seq<seq<int>>, w: nat) returns (c: seq<int>)
    requires Prime(p) && Wide(rows, w) && !Independent(p, rows, w)
    ensures |c| == w && InKernel(p, rows, c) && !Vanishes(p, c)
    decreases w
  {
    hide Cong;
    var i := Pivot(p, rows, w);
    if i == |rows| {
      c := FirstUnit(p, w);
      forall j | 0 <= j < |rows| ensures Cong(p, Dot(rows[j], c), 0) {
        DotFirst(rows[j]);
        ZeroMod(p, rows[j][0]);
      }
    } else {
      var d := DependentKernel(p, Reduced(rows, i, w), w - 1);
      var a := rows[i];
      var s := Dot(a[1..], d);
      var x := Solve(p, a[0], s);
      c := [x] + d;
      assert c[1..] == d;
      assert Dot(a, c) == a[0] * x + s;
      forall j | 0 <= j < |rows| ensures Cong(p, Dot(rows[j], c), 0) {
        DotCleared(a, rows[j], c);
        assert Cong(p, Dot(Reduced(rows, i, w)[j], d), 0);
        CongScaled(p, rows[j][0], Dot(a, c));
        CongAdd(p, Dot(Cleared(a, rows[j]), d), 0, rows[j][0] * Dot(a, c), 0);
        PivotCancels(p, a[0], Dot(rows[j], c));
      }
      LongerNonzero(p, x, d);
    }
  }

  lemma ZeroMod(p: int, a: int)
    requires p > 0 && a % p == 0
    ensures Cong(p, a, 0)
  {
  }

  lemma FirstUnit(p: int, w: nat) returns (c: seq<int>)
    requires p > 1 && w > 0
    ensures c == [1] + seq(w - 1, _ => 0) && !Vanishes(p, c)
  {
    c := [1] + seq(w - 1, _ => 0);
    OneIsNotZero(p);
    assert c[0] == 1;
  }

  lemma {:induction false} DotZeros(r: seq<int>)
    ensures Dot(r, seq(|r|, _ => 0)) == 0
  {
    if r != [] {
      DotZeros(r[1..]);
      assert seq(|r|, _ => 0)[1..] == seq(|r| - 1, _ => 0);
    }
  }

  lemma DotFirst(r: seq<int>)
    requires r != []
    ensures Dot(r, [1] + seq(|r| - 1, _ => 0)) == r[0]
  {
    DotZeros(r[1..]);
    assert ([1] + seq(|r| - 1, _ => 0))[1..] == seq(|r| - 1, _ => 0);
  }

  /** A solution of a * x + s = 0. */
  lemma Solve(p: int, a: int, s: int) returns (x: int)
    requires Prime(p) && a % p != 0
    ensures Cong(p, a * x + s, 0)
  {
    hide Cong;
    CongMod(p, a);
    var y := Inverse(p, a % p);
    x := -y * s;
    CongRefl(p, y);
    CongSym(p, a % p, a);
    CongMul(p, a, a % p, y, y);
    CongTrans(p, a * y, (a % p) * y, 1);
    CongRefl(p, s);
    CongMul(p, a * y, 1, s, s);
    CongAdd(p, s, s, (a * y) * s, 1 * s);
    assert a * x + s == s - (a * y) * s;
  }

  // ----- What the check decides

  function Rows(rs: seq<Role>, w: nat): (rows: seq<seq<int>>)
    ensures |rows| == |rs| && Wide(rows, w)
  {
    seq(|rs|, i requires 0 <= i < |rs| => RowOf(rs[i], w))
  }

  ghost function RoleSet(rs: seq<Role>): set<Role> {
    set r | r in rs
  }

  /** The values determine a polynomial of degree at most T if and only if elimination says so. */
  lemma EliminationDecides(p: int, T: nat, rs: seq<Role>)
    requires Prime(p)
    ensures Determines(p, T, RoleSet(rs)) <==> Independent(p, Rows(rs, T + 1), T + 1)
  {
    hide Cong, Independent, Apply, RowOf;
    var rows := Rows(rs, T + 1);
    if Independent(p, rows, T + 1) {
      forall P: seq<int> | |P| == T + 1 && Kills(p, RoleSet(rs), P) ensures Vanishes(p, P) {
        forall j | 0 <= j < |rows| ensures Cong(p, Dot(rows[j], P), 0) {
          assert rs[j] in RoleSet(rs);
          ApplyDot(rs[j], P);
        }
        IndependentKernel(p, rows, P);
      }
    } else {
      var K := DependentKernel(p, rows, T + 1);
      forall r | r in RoleSet(rs) ensures Cong(p, Apply(r, K), 0) {
        var j :| 0 <= j < |rs| && rs[j] == r;
        ApplyDot(r, K);
        assert Cong(p, Dot(rows[j], K), 0);
      }
    }
  }
}
