// The symbolic expressions protocols are written in: a share remembers its holder and how it was
// computed. A world fixes the field, the points, the secrets and the random coefficients.
module Expressions {
  import opened Arith
  import opened Polynomials
  import opened Lagrange
  import opened Graphs
  import opened Results

  /** A public constant, or the i-th Lagrange coefficient of the m-th multiplication. */
  datatype Constant = Public(value: int) | Coefficient(m: nat, i: nat)

  datatype Poly = Poly(id: nat, constTerm: Expression, degree: nat)

  datatype Expression =
    | Secret(name: nat, party: Party)
    | Given(sharing: nat, party: Party)
    | Evaluation(poly: Poly, at: Party)
    | Transit(source: Expression, to: Party)
    | Binary(op: Operator, a: Expression, b: Expression)
    | Scaled(e: Expression, c: Constant)
    | Reconstruct(shares: seq<Expression>, to: Party)

  datatype Error = PartyMismatch(Party, Party)

  /** The party holding the value. A polynomial is evaluated by the dealer of its constant term. */
  function Holder(e: Expression): Party {
    match e
    case Secret(_, q) => q
    case Given(_, q) => q
    case Evaluation(f, _) => Holder(f.constTerm)
    case Transit(_, q) => q
    case Binary(_, a, _) => Holder(a)
    case Scaled(a, _) => Holder(a)
    case Reconstruct(_, q) => q
  }

  /** Share arithmetic is local: the operands have to be at the same party. */
  function BinaryOp(a: Expression, b: Expression, op: Operator): (r: Result<Expression, Error>)
    ensures r.Ok? <==> Holder(a) == Holder(b)
    ensures r.Ok? ==> Holder(r.value) == Holder(a) == Holder(b)
  {
    if Holder(a) != Holder(b) then Err(PartyMismatch(Holder(a), Holder(b)))
    else Ok(Binary(op, a, b))
  }

  function Transfer(e: Expression, to: Party): (r: Expression)
    ensures Holder(r) == to
  {
    if Holder(e) == to then e else Transit(e, to)
  }

  /** Reconstruction wants all shares at one party, the holder of the first. */
  method ReconstructAt(shares: seq<Expression>, to: Party) returns (r: Result<Expression, Error>)
    requires |shares| > 0
    ensures r.Ok? <==> forall i :: 0 <= i < |shares| ==> Holder(shares[i]) == Holder(shares[0])
    ensures r.Ok? ==> r.value == Reconstruct(shares, to)
    ensures r.Err? ==> exists i :: 0 <= i < |shares| && Holder(shares[i]) != Holder(shares[0])
                         && r.error == PartyMismatch(Holder(shares[0]), Holder(shares[i]))
  {
    for i := 0 to |shares|
      invariant forall k :: 0 <= k < i ==> Holder(shares[k]) == Holder(shares[0])
    {
      if Holder(shares[0]) != Holder(shares[i]) {
        return Err(PartyMismatch(Holder(shares[0]), Holder(shares[i])));
      }
    }
    r := Ok(Reconstruct(shares, to));
  }

  // ----- Values

  datatype World = World(
    p: int,
    parties: seq<Party>,
    point: Party -> int,
    secret: nat -> int,
    given: nat -> seq<int>,
    random: (nat, nat) -> int,
    other: (Operator, int, int) -> int)

  function PointsOf(w: World): (xs: seq<int>)
    ensures |xs| == |w.parties|
  {
    seq(|w.parties|, i requires 0 <= i < |w.parties| => w.point(w.parties[i]))
  }

  /** Each party has its own nonzero point of the prime field. */
  ghost predicate WfWorld(w: World) {
    && Prime(w.p) && Distinct(w.p, PointsOf(w))
    && (forall i :: 0 <= i < |w.parties| ==> !Cong(w.p, 0, w.point(w.parties[i])))
  }

  /** The polynomial with constant term a and the random coefficients drawn for it. */
  function Coefficients(w: World, id: nat, a: int, degree: nat): (P: seq<int>)
    ensures |P| == degree + 1 && P[0] == a
  {
    seq(degree + 1, k requires 0 <= k <= degree => if k == 0 then a else w.random(id, k))
  }

  ghost function ConstantValue(w: World, c: Constant): int
    requires WfWorld(w)
  {
    match c
    case Public(x) => x
    case Coefficient(_, i) => if i < |w.parties| then Lambda(w.p, PointsOf(w), i) else 0
  }

  /** Values are integers that stand for their residues. */
  ghost function Value(w: World, e: Expression): int
    requires WfWorld(w)
  {
    match e
    case Secret(name, _) => w.secret(name)
    case Given(s, q) => Eval(w.given(s), w.point(q))
    case Evaluation(Poly(id, a, degree), q) => Eval(Coefficients(w, id, Value(w, a), degree), w.point(q))
    case Transit(a, _) => Value(w, a)
    case Binary(op, a, b) =>
      if op == ADD then Value(w, a) + Value(w, b)
      else if op == SUB then Value(w, a) - Value(w, b)
      else if op == MUL then Value(w, a) * Value(w, b)
      else w.other(op, Value(w, a), Value(w, b))
    case Scaled(a, c) => Value(w, a) * ConstantValue(w, c)
    case Reconstruct(es, _) =>
      var ys := seq(|es|, i requires 0 <= i < |es| => Value(w, es[i]));
      if |es| <= |w.parties| then Recombine(w.p, PointsOf(w), ys, |es|) else 0
  }
}
