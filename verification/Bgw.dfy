// The BGW frontend: variables as vectors of shares, one per party, built by sharing,
// addition, multiplication by a constant and the multiplication with resharing.
//
// Functions say what the operations compute, errors included; the methods of Variable follow
// the program's loops over the shares and its gate counters, and are proved to compute just
// that. What the computed shares are worth is the subject of BgwCorrectness.
module Bgw {
  import opened Graphs
  import opened Expressions
  import opened Results

  // ----- What the operations compute

  /** One random polynomial with constant term s; its values are sent to their parties. */
  function SharingOf(parties: seq<Party>, T: nat, id: nat, s: Expression): (r: seq<Expression>)
    ensures |r| == |parties| && forall j :: 0 <= j < |r| ==> Holder(r[j]) == parties[j]
  {
    seq(|parties|, j requires 0 <= j < |parties| => Transfer(Evaluation(Poly(id, s, T), parties[j]), parties[j]))
  }

  function GivenShares(parties: seq<Party>, sharing: nat): (r: seq<Expression>)
    ensures |r| == |parties|
  {
    seq(|parties|, j requires 0 <= j < |parties| => Given(sharing, parties[j]))
  }

  function ScaledShares(l: seq<Expression>, c: Constant): (r: seq<Expression>)
    ensures |r| == |l|
  {
    seq(|l|, j requires 0 <= j < |l| => Scaled(l[j], c))
  }

  /** Share-wise sum of the first n shares; the first pair at different parties is an error. */
  function SumUpTo(l: seq<Expression>, r: seq<Expression>, n: nat): (s: Result<seq<Expression>, Error>)
    requires n <= |l| == |r|
    ensures s.Ok? ==> |s.value| == n
  {
    if n == 0 then Ok([]) else
      match SumUpTo(l, r, n - 1)
      case Err(e) => Err(e)
      case Ok(front) =>
        match BinaryOp(l[n - 1], r[n - 1], ADD)
        case Err(e) => Err(e)
        case Ok(last) => Ok(front + [last])
  }

  /**
   * Multiplication: every party multiplies its two shares and reshares the product; the
   * resharings, each scaled by a Lagrange coefficient, are added up.
   */
  function ProductUpTo(parties: seq<Party>, T: nat, id: nat, m: nat, l: seq<Expression>, r: seq<Expression>, n: nat)
    : (s: Result<seq<Expression>, Error>)
    requires n <= |l| == |r| == |parties|
    ensures s.Ok? ==> |s.value| == if n == 0 then 0 else |parties|
  {
    if n == 0 then Ok([]) else
      match ProductUpTo(parties, T, id, m, l, r, n - 1)
      case Err(e) => Err(e)
      case Ok(sum) =>
        match BinaryOp(l[n - 1], r[n - 1], MUL)
        case Err(e) => Err(e)
        case Ok(local) =>
          var term := ScaledShares(SharingOf(parties, T, id + n - 1, local), Coefficient(m, n - 1));
          if n == 1 then Ok(term) else SumUpTo(sum, term, |sum|)
  }

  // ----- The frontend

  class Context {
    const parties: seq<Party>
    const T: nat
    var addCounter: nat
    var constMulCounter: nat
    var mulCounter: nat
    /** Number of polynomials registered so far. */
    var polyCount: nat

    constructor (parties: seq<Party>, T: nat)
      ensures this.parties == parties && this.T == T
      ensures addCounter == 0 && constMulCounter == 0 && mulCounter == 0 && polyCount == 0
    {
      this.parties := parties;
      this.T := T;
      addCounter, constMulCounter, mulCounter, polyCount := 0, 0, 0, 0;
    }
  }

  class Variable {
    const ctx: Context
    var shares: seq<Expression>

    constructor (ctx: Context)
      ensures this.ctx == ctx && shares == []
    {
      this.ctx := ctx;
      shares := [];
    }

    constructor Copy(o: Variable)
      ensures ctx == o.ctx && shares == o.shares
    {
      ctx := o.ctx;
      shares := o.shares;
    }

    /** A sharing that is given as input, without a secret of its own. */
    constructor Input(ctx: Context, sharing: nat)
      ensures this.ctx == ctx && shares == GivenShares(ctx.parties, sharing)
    {
      this.ctx := ctx;
      shares := [];
      new;
      for j := 0 to |ctx.parties|
        invariant this.ctx == ctx && shares == GivenShares(ctx.parties, sharing)[..j]
      {
        shares := shares + [Given(sharing, ctx.parties[j])];
      }
    }

    /** The holder of s shares it. */
    constructor Deal(ctx: Context, s: Expression)
      modifies ctx`polyCount
      ensures this.ctx == ctx && shares == SharingOf(ctx.parties, ctx.T, old(ctx.polyCount), s)
      ensures ctx.polyCount == old(ctx.polyCount) + 1
    {
      this.ctx := ctx;
      shares := [];
      new;
      var poly := Poly(ctx.polyCount, s, ctx.T);
      ctx.polyCount := ctx.polyCount + 1;
      ghost var all := SharingOf(ctx.parties, ctx.T, poly.id, s);
      for j := 0 to |ctx.parties|
        invariant this.ctx == ctx && shares == all[..j] && ctx.polyCount == poly.id + 1
      {
        var q := ctx.parties[j];
        var e := Evaluation(poly, q);
        if q == Holder(s) {
          shares := shares + [e];
        } else {
          shares := shares + [Transfer(e, q)];
        }
        assert shares == all[..j] + [all[j]];
      }
    }

    static method Add(lhs: Variable, rhs: Variable) returns (r: Result<Variable, Error>)
      requires |lhs.shares| == |rhs.shares| == |lhs.ctx.parties|
      modifies lhs.ctx`addCounter
      ensures Outcome(r) == SumUpTo(lhs.shares, rhs.shares, |lhs.shares|)
      ensures r.Ok? ==> fresh(r.value) && r.value.ctx == lhs.ctx
      ensures lhs.ctx.addCounter == old(lhs.ctx.addCounter) + if r.Ok? then 1 else 0
    {
      var ret := new Variable(lhs.ctx);
      var N := |lhs.ctx.parties|;
      for i := 0 to N
        invariant fresh(ret) && ret.ctx == lhs.ctx && SumUpTo(lhs.shares, rhs.shares, i) == Ok(ret.shares)
        invariant lhs.ctx.addCounter == old(lhs.ctx.addCounter)
      {
        var s := BinaryOp(lhs.shares[i], rhs.shares[i], ADD);
        if s.Err? {
          SumFails(lhs.shares, rhs.shares, i + 1, N);
          return Err(s.error);
        }
        ret.shares := ret.shares + [s.value];
      }
      lhs.ctx.addCounter := lhs.ctx.addCounter + 1;
      r := Ok(ret);
    }

    static method Scale(lhs: Variable, c: Constant) returns (ret: Variable)
      requires |lhs.shares| == |lhs.ctx.parties|
      modifies lhs.ctx`constMulCounter
      ensures fresh(ret) && ret.ctx == lhs.ctx && ret.shares == ScaledShares(lhs.shares, c)
      ensures lhs.ctx.constMulCounter == old(lhs.ctx.constMulCounter) + 1
    {
      ret := new Variable.Copy(lhs);
      var N := |lhs.ctx.parties|;
      for i := 0 to N
        invariant fresh(ret) && ret.ctx == lhs.ctx && |ret.shares| == N
        invariant forall j :: 0 <= j < i ==> ret.shares[j] == Scaled(lhs.shares[j], c)
        invariant lhs.ctx.constMulCounter == old(lhs.ctx.constMulCounter)
      {
        ret.shares := ret.shares[i := Scaled(lhs.shares[i], c)];
      }
      lhs.ctx.constMulCounter := lhs.ctx.constMulCounter + 1;
    }

    static method Multiply(lhs: Variable, rhs: Variable) returns (r: Result<Variable, Error>)
      requires |lhs.shares| == |rhs.shares| == |lhs.ctx.parties|
      modifies lhs.ctx
      ensures Outcome(r) == ProductUpTo(lhs.ctx.parties, lhs.ctx.T, old(lhs.ctx.polyCount), old(lhs.ctx.mulCounter),
                                        lhs.shares, rhs.shares, |lhs.shares|)
      ensures r.Ok? ==> fresh(r.value) && r.value.ctx == lhs.ctx
      ensures r.Ok? ==> lhs.ctx.polyCount == old(lhs.ctx.polyCount) + |lhs.shares|
      ensures r.Ok? ==> lhs.ctx.mulCounter == old(lhs.ctx.mulCounter) + 1
      ensures r.Ok? ==> lhs.ctx.constMulCounter == old(lhs.ctx.constMulCounter) + |lhs.shares|
      ensures r.Ok? ==> lhs.ctx.addCounter == old(lhs.ctx.addCounter) + if lhs.shares == [] then 0 else |lhs.shares| - 1
    {
      hide SumUpTo, ScaledShares, SharingOf;
      var ctx := lhs.ctx;
      var N := |ctx.parties|;
      ghost var k, m := ctx.polyCount, ctx.mulCounter;
      var sum := new Variable(ctx);
      for i := 0 to N
        invariant fresh(sum) && sum.ctx == ctx && (i > 0 ==> |sum.shares| == N)
        invariant ProductUpTo(ctx.parties, ctx.T, k, m, lhs.shares, rhs.shares, i) == Ok(sum.shares)
        invariant ctx.polyCount == k + i && ctx.mulCounter == m && ctx.constMulCounter == old(ctx.constMulCounter) + i
        invariant ctx.addCounter == old(ctx.addCounter) + if i == 0 then 0 else i - 1
      {
        var local := BinaryOp(lhs.shares[i], rhs.shares[i], MUL);
        if local.Err? {
          ProductFails(ctx.parties, ctx.T, k, m, lhs.shares, rhs.shares, i + 1, N);
          return Err(local.error);
        }
        var inter := new Variable.Deal(ctx, local.value);
        var term := Scale(inter, Coefficient(ctx.mulCounter, i));
        if i == 0 {
          sum := term;
        } else {
          var t := Add(sum, term);
          if t.Err? {
            ProductFails(ctx.parties, ctx.T, k, m, lhs.shares, rhs.shares, i + 1, N);
            return Err(t.error);
          }
          sum := t.value;
        }
      }
      ctx.mulCounter := ctx.mulCounter + 1;
      r := Ok(sum);
    }

    /** All shares are sent to one party, which reconstructs. */
    method Yield(to: Party) returns (r: Result<Expression, Error>)
      requires |shares| > 0
      ensures r == Ok(Reconstruct(SentTo(shares, to), to))
    {
      var transferred: seq<Expression> := [];
      for i := 0 to |shares|
        invariant transferred == SentTo(shares, to)[..i]
      {
        var s := shares[i];
        if Holder(s) == to {
          transferred := transferred + [s];
        } else {
          transferred := transferred + [Transfer(s, to)];
        }
        assert transferred == SentTo(shares, to)[..i] + [SentTo(shares, to)[i]];
      }
      assert transferred == SentTo(shares, to);
      r := ReconstructAt(transferred, to);
    }
  }

  /** The shares of the resulting variable, or the error. */
  ghost function Outcome(r: Result<Variable, Error>): Result<seq<Expression>, Error>
    reads if r.Ok? then {r.value} else {}
  {
    match r
    case Ok(v) => Ok(v.shares)
    case Err(e) => Err(e)
  }

  function SentTo(shares: seq<Expression>, to: Party): (r: seq<Expression>)
    ensures |r| == |shares|
    ensures forall i :: 0 <= i < |r| ==> Holder(r[i]) == to
  {
    seq(|shares|, i requires 0 <= i < |shares| => Transfer(shares[i], to))
  }

  lemma {:induction false} SumFails(l: seq<Expression>, r: seq<Expression>, i: nat, n: nat)
    requires i <= n <= |l| == |r| && SumUpTo(l, r, i).Err?
    ensures SumUpTo(l, r, n) == SumUpTo(l, r, i)
  {
    if i < n { SumFails(l, r, i, n - 1); }
  }

  lemma {:induction false} ProductFails(parties: seq<Party>, T: nat, id: nat, m: nat,
                                        l: seq<Expression>, r: seq<Expression>, i: nat, n: nat)
    requires i <= n <= |l| == |r| == |parties| && ProductUpTo(parties, T, id, m, l, r, i).Err?
    ensures ProductUpTo(parties, T, id, m, l, r, n) == ProductUpTo(parties, T, id, m, l, r, i)
  {
    if i < n { ProductFails(parties, T, id, m, l, r, i, n - 1); }
  }
}
