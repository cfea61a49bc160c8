// Arithmetic modulo a prime, on integers: congruence, Euclid's lemma, inverses.
module Arith {

  ghost predicate Prime(p: int) {
    p >= 2 && forall d :: 1 < d < p ==> p % d != 0
  }

  lemma PrimePositive(p: int)
    requires Prime(p)
    ensures p > 0
  {
  }

  /** a and b are the same element of the field of integers modulo p. */
  ghost predicate Cong(p: int, a: int, b: int)
    requires p > 0
  {
    (a - b) % p == 0
  }

  lemma MultipleMod(p: int, k: int)
    requires p > 0
    ensures (k * p) % p == 0
  {
    var q, r := (k * p) / p, (k * p) % p;
    assert (k - q) * p == r;
    assert k - q >= 1 ==> (k - q - 1) * p >= 0;
    assert k - q <= -1 ==> (k - q + 1) * p <= 0;
  }

  lemma CongBy(p: int, a: int, b: int, k: int)
    requires p > 0 && a - b == k * p
    ensures Cong(p, a, b)
  {
    MultipleMod(p, k);
  }

  /** The multiple of p by which congruent a and b differ. */
  ghost function Factor(p: int, a: int, b: int): (k: int)
    requires p > 0 && Cong(p, a, b)
    ensures a - b == k * p
  {
    (a - b) / p
  }

  lemma CongRefl(p: int, a: int)
    requires p > 0
    ensures Cong(p, a, a)
  {
  }

  lemma OneIsNotZero(p: int)
    requires p > 1
    ensures !Cong(p, 1, 0)
  {
  }

  lemma CongSym(p: int, a: int, b: int)
    requires p > 0 && Cong(p, a, b)
    ensures Cong(p, b, a)
  {
    var k := Factor(p, a, b);
    CongBy(p, b, a, -k);
  }

  lemma CongTrans(p: int, a: int, b: int, c: int)
    requires p > 0 && Cong(p, a, b) && Cong(p, b, c)
    ensures Cong(p, a, c)
  {
    var k, l := Factor(p, a, b), Factor(p, b, c);
    CongBy(p, a, c, k + l);
  }

  lemma CongAdd(p: int, a: int, b: int, c: int, d: int)
    requires p > 0 && Cong(p, a, b) && Cong(p, c, d)
    ensures Cong(p, a + c, b + d)
    ensures Cong(p, a - c, b - d)
  {
    var k, l := Factor(p, a, b), Factor(p, c, d);
    CongBy(p, a + c, b + d, k + l);
    CongBy(p, a - c, b - d, k - l);
  }

  lemma CongMul(p: int, a: int, b: int, c: int, d: int)
    requires p > 0 && Cong(p, a, b) && Cong(p, c, d)
    ensures Cong(p, a * c, b * d)
  {
    var k, l := Factor(p, a, b), Factor(p, c, d);
    assert a * c - b * d == (a - b) * c + b * (c - d);
    assert (k * p) * c + b * (l * p) == (k * c + b * l) * p;
    CongBy(p, a * c, b * d, k * c + b * l);
  }

  /** Canonical representatives: congruent residues are equal. */
  lemma CongResidue(p: int, a: int, b: int)
    requires p > 0 && Cong(p, a, b)
    requires 0 <= a < p && 0 <= b < p
    ensures a == b
  {
  }

  lemma CongMod(p: int, a: int)
    requires p > 0
    ensures Cong(p, a % p, a)
    ensures 0 <= a % p < p
  {
    assert a % p - a == -(a / p) * p;
    CongBy(p, a % p, a, -(a / p));
  }

  // ----- Euclid's lemma and inverses

  lemma EuclidResidue(p: int, x: int, b: int)
    requires Prime(p) && 0 < x < p && Cong(p, x * b, 0)
    ensures Cong(p, b, 0)
    decreases x
  {
    if x > 1 {
      var q, r := p / x, p % x;
      assert r != 0;
      var k := Factor(p, x * b, 0);
      assert r * b == (p - q * x) * b == p * b - q * (x * b) == (b - q * k) * p;
      CongBy(p, r * b, 0, b - q * k);
      EuclidResidue(p, r, b);
    }
  }

  /** Euclid's lemma: the field has no zero divisors. */
  lemma NoZeroDivisors(p: int, a: int, b: int)
    requires Prime(p) && Cong(p, a * b, 0)
    ensures Cong(p, a, 0) || Cong(p, b, 0)
  {
    var x := a % p;
    CongMod(p, a);
    if x != 0 {
      CongRefl(p, b);
      CongMul(p, x, a, b, b);
      CongTrans(p, x * b, a * b, 0);
      EuclidResidue(p, x, b);
    }
  }

  lemma InverseStep(p: int, x: int, q: int, r: int, s: int)
    requires p > 0 && p == q * x + r && Cong(p, r * s, 1)
    ensures Cong(p, x * (-q * s), 1)
  {
    var k := Factor(p, r * s, 1);
    assert x * (-q * s) == -(q * x) * s == (r - p) * s == r * s - p * s;
    CongBy(p, x * (-q * s), 1, k - s);
  }

  /** Multiplicative inverse of a nonzero residue. */
  ghost function Inverse(p: int, x: int): (y: int)
    requires Prime(p) && 0 < x < p
    ensures Cong(p, x * y, 1)
    decreases x
  {
    if x == 1 then 1
    else
      assert p % x != 0;
      var s := Inverse(p, p % x);
      InverseStep(p, x, p / x, p % x, s);
      -(p / x) * s
  }
}
