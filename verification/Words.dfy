// The concrete field elements: 64-bit words reduced modulo BASE after every operation,
// and where the 64-bit arithmetic is exact.
//
// The base is a compile-time constant of the program and a parameter here. Every operation
// wraps modulo 2^64 before it reduces modulo the base, so it agrees with the field only if
// nothing wrapped, or if wrapping does not matter because the base divides 2^64.
module Words {

  const WORD: int := 0x1_0000_0000_0000_0000

  /** Unsigned 64-bit arithmetic wraps. */
  function Wrap(x: int): (r: int)
    ensures 0 <= r < WORD
    ensures 0 <= x < WORD ==> r == x
  {
    x % WORD
  }

  datatype FieldOp = Plus | Minus | Times

  /** One operation in 64-bit words, reduced afterwards. */
  function Compute(base: int, op: FieldOp, a: int, b: int): (r: int)
    requires 0 < base < WORD
    ensures 0 <= r < base
  {
    match op
    case Plus => Wrap(a + b) % base
    case Minus => Wrap(a - b) % base
    case Times => Wrap(a * b) % base
  }

  /** The same operation on integers. */
  function Exactly(op: FieldOp, a: int, b: int): int {
    match op
    case Plus => a + b
    case Minus => a - b
    case Times => a * b
  }

  predicate Element(base: int, a: int) {
    0 <= a < base
  }

  lemma ProductFits(base: int, a: int, b: int)
    requires 0 < base <= 0x1_0000_0000 && Element(base, a) && Element(base, b)
    ensures 0 <= a * b < WORD
  {
    assert a * b <= a * 0xFFFF_FFFF by { Scale(a, b, 0xFFFF_FFFF); }
    assert 0 <= a * b by { Scale(a, 0, b); }
  }

  lemma Scale(a: int, b: int, c: int)
    requires 0 <= a && b <= c
    ensures a * b <= a * c
  {
    assert a * (c - b) >= 0;
  }

  /** Up to a base of 2^32, addition and multiplication never wrap. */
  lemma ExactUpTo32Bits(base: int, op: FieldOp, a: int, b: int)
    requires 0 < base <= 0x1_0000_0000 && Element(base, a) && Element(base, b) && op != Minus
    ensures 0 <= Exactly(op, a, b) < WORD && Compute(base, op, a, b) == Exactly(op, a, b) % base
  {
    ProductFits(base, a, b);
  }

  /** Quotient and remainder are unique. */
  lemma DivideUniquely(base: int, q: int, r: int, q': int, r': int)
    requires base > 0 && Element(base, r) && Element(base, r')
    requires base * q + r == base * q' + r'
    ensures q == q' && r == r'
  {
    if q < q' { Scale(base, q, q' - 1); }
    if q' < q { Scale(base, q', q - 1); }
  }

  lemma Remainder(base: int, x: int, q: int, r: int)
    requires base > 0 && Element(base, r) && x == base * q + r
    ensures x % base == r && x / base == q
  {
    DivideUniquely(base, x / base, x % base, q, r);
  }

  lemma ShiftMod(base: int, x: int, k: int)
    requires base > 0
    ensures (x + k) % base == x % base <==> k % base == 0
  {
    var q, r := x / base, x % base;
    var m, d := k / base, k % base;
    var s := if r + d < base then 0 else 1;
    assert x + k == base * (q + m + s) + (r + d - base * s);
    Remainder(base, x + k, q + m + s, r + d - base * s);
  }

  /**
   * Subtraction reduces after wrapping, so it is exact precisely when the minuend is at
   * least the subtrahend or the base divides 2^64.
   */
  lemma SubtractionExact(base: int, a: int, b: int)
    requires 0 < base < WORD && Element(base, a) && Element(base, b)
    ensures Compute(base, Minus, a, b) == (a - b) % base <==> a >= b || WORD % base == 0
  {
    if a < b {
      assert (a - b) % WORD == a - b + WORD;
      ShiftMod(base, a - b, WORD);
    }
  }

  /** Addition is exact precisely when it does not wrap or the base divides 2^64. */
  lemma AdditionExact(base: int, a: int, b: int)
    requires 0 < base < WORD && Element(base, a) && Element(base, b)
    ensures Compute(base, Plus, a, b) == (a + b) % base <==> a + b < WORD || WORD % base == 0
  {
    if a + b >= WORD {
      assert (a + b) % WORD == a + b - WORD;
      ShiftMod(base, a + b - WORD, WORD);
    }
  }

  /**
   * Multiplication drops the multiple of 2^64 in the product before it reduces: it is exact
   * precisely when the base divides the dropped part.
   */
  lemma MultiplicationExact(base: int, a: int, b: int)
    requires 0 < base < WORD && Element(base, a) && Element(base, b)
    ensures Compute(base, Times, a, b) == (a * b) % base <==> (a * b / WORD * WORD) % base == 0
  {
    var x := a * b;
    var dropped := x / WORD * WORD;
    assert x == Wrap(x) + dropped;
    ShiftMod(base, Wrap(x), dropped);
  }

  /** Modulo 2^64 - 1 the product 2 * 2^63 comes out as 0 instead of 1. */
  lemma MultiplicationCounterexample()
    ensures Compute(WORD - 1, Times, 2, 0x8000_0000_0000_0000) == 0
    ensures (2 * 0x8000_0000_0000_0000) % (WORD - 1) == 1
  {
  }

  // ----- Nested wraps

  /** Multiples of 2^64 do not show. */
  lemma WrapMultiple(x: int, k: int)
    ensures Wrap(x + WORD * k) == Wrap(x)
  {
    Remainder(WORD, x + WORD * k, x / WORD + k, x % WORD);
  }

  /** A product and a sum wrapped on the way are wrapped as if only the end result was. */
  lemma WrapNested(x: int, c: int, y: int)
    ensures Wrap(Wrap(x) * c + y) == Wrap(x * c + y)
    ensures Wrap(Wrap(x) + y) == Wrap(x + y)
  {
    var q := x / WORD;
    Distribute(WORD, q, c);
    assert Wrap(x) * c + y + WORD * (q * c) == x * c + y by {
      assert x == Wrap(x) + WORD * q;
      Expand(Wrap(x), WORD * q, c);
    }
    WrapMultiple(Wrap(x) * c + y, q * c);
    WrapMultiple(Wrap(x) + y, q);
  }

  lemma Distribute(m: int, q: int, c: int)
    ensures m * q * c == m * (q * c)
  {
  }

  lemma Expand(a: int, b: int, c: int)
    ensures (a + b) * c == a * c + b * c
  {
  }

  /** Modulo 23, one minus two comes out as 5 instead of 22. */
  lemma SubtractionCounterexample()
    ensures Compute(23, Minus, 1, 2) == 5 && (1 - 2) % 23 == 22
  {
  }

  /** A field element whose compound assignments change it in place. */
  class Field {
    const base: int
    var val: int

    ghost predicate Valid()
      reads this
    {
      0 < base < WORD && Element(base, val)
    }

    constructor (base: int, word: int)
      requires 0 < base < WORD && 0 <= word < WORD
      ensures Valid() && this.base == base && val == word % base
      ensures Element(base, word) ==> val == word
    {
      this.base := base;
      val := word % base;
      if Element(base, word) { Remainder(base, word, 0, word); }
    }

    method Update(op: FieldOp, other: int)
      requires Valid() && Element(base, other)
      modifies this
      ensures Valid() && val == Compute(base, op, old(val), other)
    {
      match op {
        case Plus => val := Wrap(val + other);
        case Minus => val := Wrap(val - other);
        case Times => val := Wrap(val * other);
      }
      val := val % base;
    }
  }
}
