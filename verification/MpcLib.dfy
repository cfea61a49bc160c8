// The concrete Shamir sharing over words: evaluating a polynomial for a party, and
// share-wise arithmetic on bundles of shares.
module MpcLib {
  import opened Arith
  import opened Polynomials
  import opened Lagrange
  import opened Words
  import opened Results

  // ----- Evaluating a polynomial for a party

  function Pow(x: int, n: nat): int {
    if n == 0 then 1 else x * Pow(x, n - 1)
  }

  lemma {:induction false} EvalSnoc(P: seq<int>, c: int, x: int)
    ensures Eval(P + [c], x) == Eval(P, x) + Pow(x, |P|) * c
  {
    if P == [] {
      assert [] + [c] == [c];
    } else {
      EvalSnoc(P[1..], c, x);
      assert (P + [c])[1..] == P[1..] + [c];
      var r, w := Eval(P[1..], x), Pow(x, |P| - 1);
      assert x * (r + w * c) == x * r + (x * w) * c;
    }
  }

  lemma ModStep(base: int, op: FieldOp, a: int, b: int)
    requires base > 0
    ensures Exactly(op, a % base, b % base) % base == Exactly(op, a, b) % base
  {
    CongMod(base, a);
    CongMod(base, b);
    CongAdd(base, a % base, a, b % base, b);
    CongMul(base, a % base, a, b % base, b);
    CongSameMod(base, Exactly(op, a % base, b % base), Exactly(op, a, b));
  }

  lemma CongSameMod(base: int, a: int, b: int)
    requires base > 0
    ensures Cong(base, a, b) <==> a % base == b % base
  {
    CongMod(base, a);
    CongMod(base, b);
    if Cong(base, a, b) {
      CongTrans(base, a % base, a, b);
      CongSym(base, b % base, b);
      CongTrans(base, a % base, b, b % base);
      CongResidue(base, a % base, b % base);
    } else if a % base == b % base {
      CongSym(base, a % base, a);
      CongTrans(base, a, a % base, b);
    }
  }

  lemma WordStep(base: int, op: FieldOp, a: int, b: int)
    requires 0 < base <= 0x1_0000_0000 && op != Minus
    ensures Compute(base, op, a % base, b % base) == Exactly(op, a, b) % base
  {
    ExactUpTo32Bits(base, op, a % base, b % base);
    ModStep(base, op, a, b);
  }

  /** The two accumulators after i rounds. */
  ghost function PowerAt(base: int, alpha: int, i: nat): (r: int)
    requires base > 0
    ensures Element(base, r)
  {
    Pow(alpha, i) % base
  }

  ghost function PartialAt(base: int, secret: int, coeffs: seq<int>, alpha: int, i: nat): (r: int)
    requires base > 0 && i <= |coeffs|
    ensures Element(base, r)
  {
    Eval([secret] + coeffs[..i], alpha) % base
  }

  lemma PowerStep(base: int, alpha: int, i: nat)
    requires 0 < base <= 0x1_0000_0000 && Element(base, alpha)
    ensures Compute(base, Times, PowerAt(base, alpha, i), alpha) == PowerAt(base, alpha, i + 1)
  {
    hide Compute;
    Remainder(base, alpha, 0, alpha);
    WordStep(base, Times, Pow(alpha, i), alpha);
    assert Pow(alpha, i + 1) == Exactly(Times, Pow(alpha, i), alpha);
  }

  lemma PartialStep(base: int, secret: int, coeffs: seq<int>, alpha: int, i: nat)
    requires 0 < base <= 0x1_0000_0000 && i < |coeffs| && Element(base, coeffs[i])
    ensures Compute(base, Plus, PartialAt(base, secret, coeffs, alpha, i),
                    Compute(base, Times, PowerAt(base, alpha, i + 1), coeffs[i]))
         == PartialAt(base, secret, coeffs, alpha, i + 1)
  {
    hide Compute, Eval, Pow;
    var w, c, before := Pow(alpha, i + 1), coeffs[i], [secret] + coeffs[..i];
    Remainder(base, c, 0, c);
    WordStep(base, Times, w, c);
    WordStep(base, Plus, Eval(before, alpha), w * c);
    EvalSnoc(before, c, alpha);
    assert [secret] + coeffs[..i + 1] == before + [c];
  }

  lemma Start(base: int, secret: int, coeffs: seq<int>, alpha: int)
    requires 0 < base && Element(base, secret)
    ensures PartialAt(base, secret, coeffs, alpha, 0) == secret && PowerAt(base, alpha, 0) == 1 % base
  {
    assert [secret] + coeffs[..0] == [secret];
    assert Eval([secret], alpha) == secret;
  }

  /**
   * The share of the party at alpha. For every degree, and every base up to 2^32, the loop
   * that accumulates powers computes the value of the polynomial modulo the base.
   */
  method EvalShare(base: int, secret: int, coeffs: seq<int>, alpha: int) returns (res: int)
    requires 0 < base <= 0x1_0000_0000 && Element(base, secret) && Element(base, alpha)
    requires forall i :: 0 <= i < |coeffs| ==> Element(base, coeffs[i])
    ensures res == Eval([secret] + coeffs, alpha) % base
  {
    hide Compute, PowerAt, PartialAt, Eval;
    Start(base, secret, coeffs, alpha);
    var acc := new Field(base, secret);
    var factor := new Field(base, 1);
    for i := 0 to |coeffs|
      invariant acc.Valid() && factor.Valid() && fresh(acc) && fresh(factor) && acc != factor
      invariant acc.base == factor.base == base
      invariant factor.val == PowerAt(base, alpha, i)
      invariant acc.val == PartialAt(base, secret, coeffs, alpha, i)
    {
      PowerStep(base, alpha, i);
      PartialStep(base, secret, coeffs, alpha, i);
      factor.Update(Times, alpha);
      var term := new Field(base, factor.val);
      term.Update(Times, coeffs[i]);
      acc.Update(Plus, term.val);
    }
    res := acc.val;
    Finish(base, secret, coeffs, alpha);
  }

  lemma Finish(base: int, secret: int, coeffs: seq<int>, alpha: int)
    requires 0 < base
    ensures PartialAt(base, secret, coeffs, alpha, |coeffs|) == Eval([secret] + coeffs, alpha) % base
  {
    assert coeffs[..|coeffs|] == coeffs;
  }

  // ----- Shares and bundles

  datatype Par = Par(idx: nat, alpha: int, hash: nat)

  datatype Share = Share(party: Par, val: int)

  datatype Failure =
    | PartyMismatch(one: Par, other: Par)
    | PartySetMismatch
    | ArgcMismatch(want: nat, got: nat)

  function ShareOp(base: int, op: FieldOp, a: Share, b: Share): (r: Result<Share, Failure>)
    requires 0 < base < WORD
    ensures r.Ok? <==> a.party == b.party
    ensures r.Ok? ==> r.value.party == a.party
  {
    if a.party != b.party then Err(PartyMismatch(a.party, b.party))
    else Ok(Share(a.party, Compute(base, op, a.val, b.val)))
  }

  /** The mapping sends a party index to the position of the first party with that index. */
  datatype Bundle = Bundle(parties: seq<Par>, shares: seq<Share>, mapping: map<nat, nat>)

  function FirstAt(parties: seq<Par>, idx: nat): (i: nat)
    requires exists k :: 0 <= k < |parties| && parties[k].idx == idx
    ensures i < |parties| && parties[i].idx == idx && forall k :: 0 <= k < i ==> parties[k].idx != idx
  {
    if parties[0].idx == idx then 0 else
      assert exists k :: 0 <= k < |parties[1..]| && parties[1..][k].idx == idx by {
        var k :| 0 <= k < |parties| && parties[k].idx == idx;
        assert parties[1..][k - 1] == parties[k];
      }
      1 + FirstAt(parties[1..], idx)
  }

  ghost predicate WfBundle(b: Bundle) {
    && |b.parties| == |b.shares|
    && (forall i :: 0 <= i < |b.parties| ==> b.shares[i].party == b.parties[i])
    && (forall i :: 0 <= i < |b.parties| ==> b.parties[i].idx in b.mapping)
    && (forall i :: 0 <= i < |b.parties| ==> b.mapping[b.parties[i].idx] == FirstAt(b.parties, b.parties[i].idx))
  }

  method MakeBundle(parties: seq<Par>, shares: seq<Share>) returns (r: Result<Bundle, Failure>)
    ensures r.Ok? <==> |parties| == |shares| && forall i :: 0 <= i < |parties| ==> shares[i].party == parties[i]
    ensures r.Ok? ==> WfBundle(r.value) && r.value.parties == parties && r.value.shares == shares
    ensures |parties| != |shares| ==> r == Err(ArgcMismatch(|parties|, |shares|))
    ensures r.Err? && |parties| == |shares| ==>
      exists i :: 0 <= i < |parties| && parties[i] != shares[i].party &&
        r == Err(PartyMismatch(parties[i], shares[i].party))
  {
    if |parties| != |shares| {
      return Err(ArgcMismatch(|parties|, |shares|));
    }
    var mapping: map<nat, nat> := map[];
    for i := 0 to |parties|
      invariant forall k :: 0 <= k < i ==> shares[k].party == parties[k] && parties[k].idx in mapping
      invariant forall x :: x in mapping ==>
        (exists k :: 0 <= k < i && parties[k].idx == x) && mapping[x] == FirstAt(parties, x)
    {
      if parties[i] != shares[i].party {
        return Err(PartyMismatch(parties[i], shares[i].party));
      }
      if parties[i].idx !in mapping {
        assert FirstAt(parties, parties[i].idx) == i;
        mapping := mapping[parties[i].idx := i];
      }
    }
    r := Ok(Bundle(parties, shares, mapping));
  }

  /** Parties of a bundle with equal indices are the same party. */
  ghost predicate IndexedApart(parties: seq<Par>) {
    forall i, j :: 0 <= i < j < |parties| && parties[i].idx == parties[j].idx ==> parties[i] == parties[j]
  }

  function ShareOf(b: Bundle, q: Par): Share
    requires q.idx in b.mapping && b.mapping[q.idx] < |b.shares|
  {
    b.shares[b.mapping[q.idx]]
  }

  /**
   * Share-wise addition, subtraction or multiplication: it succeeds exactly on equal party
   * lists whose indices tell the parties apart.
   */
  method ShareWise(base: int, op: FieldOp, a: Bundle, b: Bundle) returns (r: Result<Bundle, Failure>)
    requires 0 < base < WORD && WfBundle(a) && WfBundle(b)
    ensures a.parties != b.parties ==> r == Err(PartySetMismatch)
    ensures r.Ok? <==> a.parties == b.parties && IndexedApart(a.parties)
    ensures r.Ok? ==> WfBundle(r.value) && r.value.parties == a.parties
    ensures r.Ok? ==> forall i :: 0 <= i < |a.parties| ==>
      r.value.shares[i].val == Compute(base, op, ShareOf(a, a.parties[i]).val, ShareOf(b, a.parties[i]).val)
  {
    hide Compute;
    if a.parties != b.parties {
      return Err(PartySetMismatch);
    }
    var res: seq<Share> := [];
    for i := 0 to |a.parties|
      invariant |res| == i
      invariant forall k :: 0 <= k < i ==>
        Ok(res[k]) == ShareOp(base, op, ShareOf(a, a.parties[k]), ShareOf(b, a.parties[k]))
    {
      var q := a.parties[i];
      assert ShareOf(a, q).party == a.parties[FirstAt(a.parties, q.idx)] == ShareOf(b, q).party;
      var s := ShareOp(base, op, ShareOf(a, q), ShareOf(b, q));
      res := res + [s.value];
    }
    r := MakeBundle(a.parties, res);
    ApartExactly(a.parties);
    assert forall k :: 0 <= k < |res| ==> res[k].party == a.parties[FirstAt(a.parties, a.parties[k].idx)];
  }

  lemma ApartExactly(parties: seq<Par>)
    ensures IndexedApart(parties)
      <==> forall i :: 0 <= i < |parties| ==> parties[FirstAt(parties, parties[i].idx)] == parties[i]
  {
    if forall i :: 0 <= i < |parties| ==> parties[FirstAt(parties, parties[i].idx)] == parties[i] {
      forall i, j | 0 <= i < j < |parties| && parties[i].idx == parties[j].idx ensures parties[i] == parties[j] {
        assert FirstAt(parties, parties[i].idx) == FirstAt(parties, parties[j].idx);
      }
    }
  }

  // ----- What a bundle shares

  /** Every share is the value of P at its party's point. */
  ghost predicate Carries(base: int, b: Bundle, P: seq<int>)
    requires base > 0 && WfBundle(b)
  {
    forall i :: 0 <= i < |b.parties| ==> b.shares[i].val == Eval(P, b.parties[i].alpha) % base
  }

  ghost function Combined(op: FieldOp, P: seq<int>, Q: seq<int>): seq<int>
    requires P != [] && Q != [] && |P| == |Q|
  {
    match op
    case Plus => Polynomials.Plus(P, 1, Q)
    case Minus => Polynomials.Plus(P, -1, Q)
    case Times => Lagrange.Times(P, Q)
  }

  lemma CombinedEval(op: FieldOp, P: seq<int>, Q: seq<int>, x: int)
    requires P != [] && |P| == |Q|
    ensures Eval(Combined(op, P, Q), x) == Exactly(op, Eval(P, x), Eval(Q, x))
  {
    match op
    case Plus => EvalPlus(P, 1, Q, x);
    case Minus => EvalPlus(P, -1, Q, x);
    case Times => EvalTimes(P, Q, x);
  }

  /**
   * Share-wise sums and products of sharings of P and Q are sharings of P + Q and of the
   * product polynomial of degree 2T, for every base up to 2^32.
   */
  method Combine(base: int, op: FieldOp, a: Bundle, b: Bundle, ghost P: seq<int>,
                 ghost Q: seq<int>) returns (r: Result<Bundle, Failure>)
    requires 0 < base <= 0x1_0000_0000 && op != Minus && WfBundle(a) && WfBundle(b)
    requires P != [] && |P| == |Q| && Carries(base, a, P) && Carries(base, b, Q)
    ensures r.Ok? <==> a.parties == b.parties && IndexedApart(a.parties)
    ensures r.Ok? ==> WfBundle(r.value) && r.value.parties == a.parties && Carries(base, r.value, Combined(op, P, Q))
  {
    hide Compute, Combined, Exactly;
    r := ShareWise(base, op, a, b);
    if r.Ok? {
      ApartExactly(a.parties);
      forall i | 0 <= i < |a.parties|
        ensures r.value.shares[i].val == Eval(Combined(op, P, Q), a.parties[i].alpha) % base
      {
        var k := FirstAt(a.parties, a.parties[i].idx);
        assert a.parties[k] == a.parties[i];
        var x := a.parties[i].alpha;
        WordStep(base, op, Eval(P, x), Eval(Q, x));
        CombinedEval(op, P, Q, x);
      }
    }
  }

  ghost function Alphas(parties: seq<Par>): (xs: seq<int>)
    ensures |xs| == |parties|
  {
    seq(|parties|, i requires 0 <= i < |parties| => parties[i].alpha)
  }

  ghost function Vals(shares: seq<Share>): (ys: seq<int>)
    ensures |ys| == |shares|
  {
    seq(|shares|, i requires 0 <= i < |shares| => shares[i].val)
  }

  /** Recombining the shares of at most N coefficients gives the constant term. */
  lemma Recover(base: int, b: Bundle, P: seq<int>)
    requires Prime(base) && WfBundle(b) && Carries(base, b, P) && 0 < |P| <= |b.parties|
    requires Distinct(base, Alphas(b.parties))
    ensures Cong(base, Recombine(base, Alphas(b.parties), Vals(b.shares), |b.parties|), P[0])
  {
    hide Cong, Distinct, Recombine, Eval, FirstAt, Prime;
    var xs, ys, n := Alphas(b.parties), Vals(b.shares), |b.parties|;
    assert base > 0 by { PrimePositive(base); }
    forall i | 0 <= i < n ensures Cong(base, ys[i], Values(P, xs)[i]) {
      CongMod(base, Eval(P, xs[i]));
    }
    RecombineCong(base, xs, ys, Values(P, xs), n);
    LagrangeAtZero(base, xs, P);
    EvalAtZero(P);
    CongTrans(base, Recombine(base, xs, ys, n), Recombine(base, xs, Values(P, xs), n), P[0]);
  }

  /** The product bundle of two sharings of degree T recombines to the product of the secrets. */
  lemma ProductRecovers(base: int, c: Bundle, P: seq<int>, Q: seq<int>, T: nat)
    requires Prime(base) && WfBundle(c) && |P| == |Q| == T + 1 && |c.parties| >= 2 * T + 1
    requires Carries(base, c, Lagrange.Times(P, Q)) && Distinct(base, Alphas(c.parties))
    ensures Cong(base, Recombine(base, Alphas(c.parties), Vals(c.shares), |c.parties|), P[0] * Q[0])
  {
    hide Cong, Distinct, Recombine, FirstAt, Carries;
    Recover(base, c, Lagrange.Times(P, Q));
    EvalTimes(P, Q, 0);
    EvalAtZero(P);
    EvalAtZero(Q);
    EvalAtZero(Lagrange.Times(P, Q));
  }
}
