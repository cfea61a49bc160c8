// The meaning of a protocol graph: the valuations of its nodes, in a prime field, that
// satisfy every edge.
module Semantics {
  import opened Arith
  import opened Polynomials
  import opened Graphs
  import opened Counters

  /**
   * The arguments the program leaves implicit. `roles[a]` gives each node of the sharing with
   * polynomial a its functional: a coefficient, or the value at a party's point. `scalar` gives
   * the constants of SCALARMUL edges; `other` interprets DIV and TYPECAST as fixed functions.
   */
  datatype Env = Env(
    p: int,
    T: nat,
    roles: map<nat, map<NodeId, Role>>,
    scalar: nat -> int,
    other: (Operator, nat, seq<int>) -> int)

  type Valuation = seq<int>

  predicate LegalRole(env: Env, r: Role) {
    match r
    case Coef(k) => k <= env.T
    case At(x) => 0 < x < env.p
  }

  ghost predicate Injective(m: map<NodeId, Role>) {
    forall x, y :: x in m && y in m && x != y ==> m[x] != m[y]
  }

  /** Two nodes lie in at most one sharing together. */
  ghost predicate AlmostDisjoint(env: Env) {
    forall a, b, x, y ::
      (a in env.roles && b in env.roles && a != b && x != y
       && x in env.roles[a] && y in env.roles[a] && x in env.roles[b]) ==> y !in env.roles[b]
  }

  ghost predicate WfEnv(env: Env) {
    && Prime(env.p) && env.T >= 1
    && (forall a :: a in env.roles ==> Injective(env.roles[a]))
    && (forall a, x :: a in env.roles && x in env.roles[a] ==> LegalRole(env, env.roles[a][x]))
    && AlmostDisjoint(env)
  }

  ghost predicate InSharing(env: Env, a: nat, ns: set<NodeId>) {
    a in env.roles && ns <= env.roles[a].Keys
  }

  ghost function RolesOf(env: Env, a: nat, ns: set<NodeId>): set<Role>
    requires InSharing(env, a, ns)
  {
    set n | n in ns :: env.roles[a][n]
  }

  /** The values at these nodes of sharing a fix its polynomial. */
  ghost predicate Fixes(env: Env, a: nat, ns: set<NodeId>)
    requires env.p > 0
  {
    InSharing(env, a, ns) && Determines(env.p, env.T, RolesOf(env, a, ns))
  }

  /** Points in general position: any T + 1 nodes of a sharing fix its polynomial. */
  ghost predicate Generic(env: Env) {
    env.p > 0 && forall a, ns :: InSharing(env, a, ns) && |ns| == env.T + 1 ==> Fixes(env, a, ns)
  }

  ghost predicate Fits(env: Env, a: nat, ns: set<NodeId>, v: Valuation, P: seq<int>)
    requires env.p > 0
  {
    InSharing(env, a, ns) && forall n :: n in ns ==> n < |v| && Cong(env.p, Apply(env.roles[a][n], P), v[n])
  }

  /** One polynomial of degree at most T takes all the values at these nodes. */
  ghost predicate OnPolynomial(env: Env, a: nat, ns: set<NodeId>, v: Valuation)
    requires env.p > 0
  {
    exists P: seq<int> :: |P| == env.T + 1 && Fits(env, a, ns, v, P)
  }

  ghost function Elems(s: seq<NodeId>): set<NodeId> {
    set n | n in s
  }

  ghost function Inputs(e: Operation): set<NodeId> {
    Elems(e.inputs)
  }

  predicate PolyEdge(e: Operation) {
    e.op.EVAL? || e.op.RECONSTRUCT?
  }

  ghost predicate Spans(e: Operation, v: Valuation) {
    e.output < |v| && forall i :: 0 <= i < |e.inputs| ==> e.inputs[i] < |v|
  }

  ghost function InputValues(e: Operation, v: Valuation): seq<int>
    requires Spans(e, v)
  {
    seq(|e.inputs|, i requires 0 <= i < |e.inputs| => v[e.inputs[i]])
  }

  ghost predicate Holds(env: Env, e: Operation, v: Valuation)
    requires env.p > 0 && Spans(e, v)
  {
    var out, xs := v[e.output], InputValues(e, v);
    match e.op
    case TRANSIT => |xs| == 1 && out == xs[0]
    case ADD => |xs| == 2 && Cong(env.p, out, xs[0] + xs[1])
    case SUB => |xs| == 2 && Cong(env.p, out, xs[0] - xs[1])
    case MUL => |xs| == 2 && Cong(env.p, out, xs[0] * xs[1])
    case SCALARMUL => |xs| == 1 && Cong(env.p, out, env.scalar(e.arg) * xs[0])
    case EVAL => OnPolynomial(env, e.arg, Inputs(e) + {e.output}, v)
    case RECONSTRUCT => OnPolynomial(env, e.arg, Inputs(e) + {e.output}, v)
    case _ => Cong(env.p, out, env.other(e.op, e.arg, xs))
  }

  ghost predicate IsValuation(env: Env, g: Graph, v: Valuation) {
    |v| == |g.nodes| && forall i :: 0 <= i < |v| ==> 0 <= v[i] < env.p
  }

  /** v is a valuation satisfying every edge of the graph. */
  ghost predicate Sat(env: Env, g: Graph, v: Valuation)
    requires env.p > 0 && Shape(g)
  {
    IsValuation(env, g, v) && forall e :: Has(g, e) ==> Spans(e, v) && Holds(env, e, v)
  }

  ghost predicate AllHold(env: Env, es: seq<Operation>, v: Valuation)
    requires env.p > 0
  {
    forall i :: 0 <= i < |es| ==> Spans(es[i], v) && Holds(env, es[i], v)
  }

  /** Replacing edges by others with the same solutions keeps the solutions of the graph. */
  lemma RewriteSat(env: Env, g: Graph, elim: seq<Operation>, add: seq<Operation>, v: Valuation)
    requires env.p > 0 && Good(g) && AllPresent(g, elim) && AllInRange(g, add)
    requires IsValuation(env, g, v) ==> (AllHold(env, elim, v) <==> AllHold(env, add, v))
    ensures Sat(env, g, v) <==> Sat(env, Rewrite(g, elim, add), v)
  {
    var r := Rewrite(g, elim, add);
    RewriteGood(g, elim, add);
    if Sat(env, g, v) {
      forall i | 0 <= i < |elim| ensures Spans(elim[i], v) && Holds(env, elim[i], v) {
        assert Has(g, elim[i]);
      }
      forall e | Has(r, e) ensures Spans(e, v) && Holds(env, e, v) {
        if e in add {
          var i :| 0 <= i < |add| && add[i] == e;
        } else {
          assert Has(g, e);
        }
      }
    }
    if Sat(env, r, v) {
      forall i | 0 <= i < |add| ensures Spans(add[i], v) && Holds(env, add[i], v) {
        assert Has(r, add[i]);
      }
      forall e | Has(g, e) ensures Spans(e, v) && Holds(env, e, v) {
        if e in elim {
          var i :| 0 <= i < |elim| && elim[i] == e;
        } else {
          assert Has(r, e);
        }
      }
    }
  }

  // ----- Families of evaluations with common sources

  /** Two polynomials through the same fixing values agree at every node of the sharing. */
  lemma SamePolynomial(env: Env, a: nat, S: set<NodeId>, v: Valuation, P: seq<int>, Q: seq<int>, n: NodeId)
    requires env.p > 0 && Fixes(env, a, S) && Fits(env, a, S, v, P) && Fits(env, a, S, v, Q)
    requires |P| == |Q| == env.T + 1 && n in env.roles[a]
    ensures Cong(env.p, Apply(env.roles[a][n], P), Apply(env.roles[a][n], Q))
  {
    forall r | r in RolesOf(env, a, S) ensures Cong(env.p, Apply(r, P), Apply(r, Q)) {
      var m :| m in S && r == env.roles[a][m];
      CongSym(env.p, Apply(r, Q), v[m]);
      CongTrans(env.p, Apply(r, P), v[m], Apply(r, Q));
    }
    AgreeEverywhere(env.p, env.T, RolesOf(env, a, S), P, Q, env.roles[a][n]);
  }

  /**
   * Evaluations from common sources that fix the polynomial say together exactly that one
   * polynomial takes the values of all sources and all destinations.
   */
  lemma Family(env: Env, a: nat, S: set<NodeId>, D: set<NodeId>, v: Valuation)
    requires env.p > 0 && Fixes(env, a, S) && D != {}
    ensures (forall d :: d in D ==> OnPolynomial(env, a, S + {d}, v)) <==> OnPolynomial(env, a, S + D, v)
  {
    if OnPolynomial(env, a, S + D, v) {
      var P: seq<int> :| |P| == env.T + 1 && Fits(env, a, S + D, v, P);
      forall d | d in D ensures OnPolynomial(env, a, S + {d}, v) {
        assert Fits(env, a, S + {d}, v, P);
      }
    }
    if forall d :: d in D ==> OnPolynomial(env, a, S + {d}, v) {
      var d0 :| d0 in D;
      assert OnPolynomial(env, a, S + {d0}, v);
      var P: seq<int> :| |P| == env.T + 1 && Fits(env, a, S + {d0}, v, P);
      forall d | d in D ensures d in env.roles[a] && d < |v| && Cong(env.p, Apply(env.roles[a][d], P), v[d]) {
        FamilyMember(env, a, S, v, P, d);
      }
      assert Fits(env, a, S + D, v, P);
    }
  }

  lemma FamilyMember(env: Env, a: nat, S: set<NodeId>, v: Valuation, P: seq<int>, d: NodeId)
    requires env.p > 0 && Fixes(env, a, S) && |P| == env.T + 1 && Fits(env, a, S, v, P)
    requires OnPolynomial(env, a, S + {d}, v)
    ensures d in env.roles[a] && d < |v| && Cong(env.p, Apply(env.roles[a][d], P), v[d])
  {
    var Q: seq<int> :| |Q| == env.T + 1 && Fits(env, a, S + {d}, v, Q);
    assert d in S + {d};
    assert Fits(env, a, S, v, Q);
    SamePolynomial(env, a, S, v, P, Q, d);
    CongTrans(env.p, Apply(env.roles[a][d], P), Apply(env.roles[a][d], Q), v[d]);
  }

  lemma FixesMonotone(env: Env, a: nat, S: set<NodeId>, S': set<NodeId>)
    requires env.p > 0 && Fixes(env, a, S) && S <= S' && InSharing(env, a, S')
    ensures Fixes(env, a, S')
  {
    DeterminesMonotone(env.p, env.T, RolesOf(env, a, S), RolesOf(env, a, S'));
  }

  /** With points in general position, T + 1 or more nodes of a sharing fix its polynomial. */
  lemma EnoughFix(env: Env, a: nat, S: set<NodeId>)
    requires env.p > 0 && Generic(env) && InSharing(env, a, S) && |S| >= env.T + 1
    ensures Fixes(env, a, S)
  {
    var S' := SubsetOfSize(S, env.T + 1);
    assert InSharing(env, a, S');
    FixesMonotone(env, a, S', S);
  }

  ghost function SubsetOfSize(S: set<NodeId>, k: nat): (S': set<NodeId>)
    requires k <= |S|
    ensures S' <= S && |S'| == k
  {
    if |S| == k then S
    else
      var x :| x in S;
      SubsetOfSize(S - {x}, k)
  }

  // ----- Every edge determines its output from its inputs

  ghost predicate WellFormed(env: Env, g: Graph, e: Operation) {
    && (e.op.TRANSIT? || e.op.SCALARMUL? ==> |e.inputs| == 1)
    && (e.op.ADD? || e.op.SUB? || e.op.MUL? ==> |e.inputs| == 2)
    && (PolyEdge(e) ==> NoDup(e.inputs) && e.output !in e.inputs && InSharing(env, e.arg, Inputs(e) + {e.output}))
    && (e.op.EVAL? ==> |e.inputs| >= env.T + 1)
    && (e.op.RECONSTRUCT? ==> |e.inputs| == g.partyCnt)
    && (e.op.RECONSTRUCT? && InRange(g, e) ==> OneParty(g, e.inputs))
  }

  /** All these nodes are held by the same party. */
  predicate OneParty(g: Graph, ns: seq<NodeId>)
    requires forall i :: 0 <= i < |ns| ==> ns[i] < |g.nodes|
  {
    forall i, j :: 0 <= i < |ns| && 0 <= j < |ns| ==> g.nodes[ns[i]].party == g.nodes[ns[j]].party
  }

  ghost predicate Coherent(env: Env, g: Graph) {
    && Shape(g) && g.T == env.T && g.partyCnt >= 2 * g.T + 1
    && forall e :: Has(g, e) ==> WellFormed(env, g, e)
  }

  lemma {:induction false} NoDupSize(s: seq<NodeId>)
    requires NoDup(s)
    ensures |Elems(s)| == |s|
  {
    if s != [] {
      var front, n := s[..|s|-1], s[|s|-1];
      NoDupSize(front);
      assert s == front + [n];
      assert Elems(s) == Elems(front) + {n};
      assert n !in front;
    }
  }

  /** The inputs of every evaluation and reconstruction fix its polynomial. */
  ghost predicate EdgesFix(env: Env, g: Graph)
    requires env.p > 0 && Shape(g)
  {
    forall e :: Has(g, e) ==> EdgeFixes(env, e)
  }

  ghost predicate EdgeFixes(env: Env, e: Operation)
    requires env.p > 0
  {
    PolyEdge(e) ==> Fixes(env, e.arg, Inputs(e))
  }

  /**
   * Satisfying valuations that agree on the inputs of an edge agree on its output. For an
   * evaluation or a reconstruction the inputs have to fix the polynomial.
   */
  lemma OutputDetermined(env: Env, g: Graph, e: Operation, v: Valuation, w: Valuation)
    requires WfEnv(env) && Coherent(env, g) && Has(g, e) && EdgeFixes(env, e)
    requires Sat(env, g, v) && Sat(env, g, w)
    requires forall i :: 0 <= i < |e.inputs| ==> v[e.inputs[i]] == w[e.inputs[i]]
    ensures v[e.output] == w[e.output]
  {
    var p := env.p;
    assert Holds(env, e, v) && Holds(env, e, w) && WellFormed(env, g, e);
    assert InputValues(e, v) == InputValues(e, w);
    if PolyEdge(e) {
      PolyOutputDetermined(env, e, v, w);
    } else if !e.op.TRANSIT? {
      var x: int :| Cong(p, v[e.output], x) && Cong(p, w[e.output], x);
      CongSym(p, w[e.output], x);
      CongTrans(p, v[e.output], x, w[e.output]);
      CongResidue(p, v[e.output], w[e.output]);
    }
  }

  lemma PolyOutputDetermined(env: Env, e: Operation, v: Valuation, w: Valuation)
    requires WfEnv(env) && PolyEdge(e) && Fixes(env, e.arg, Inputs(e))
    requires Spans(e, v) && Spans(e, w) && Holds(env, e, v) && Holds(env, e, w)
    requires forall i :: 0 <= i < |e.inputs| ==> v[e.inputs[i]] == w[e.inputs[i]]
    requires 0 <= v[e.output] < env.p && 0 <= w[e.output] < env.p
    ensures v[e.output] == w[e.output]
  {
    var a, S, n := e.arg, Inputs(e), e.output;
    var P: seq<int> :| |P| == env.T + 1 && Fits(env, a, S + {n}, v, P);
    var Q: seq<int> :| |Q| == env.T + 1 && Fits(env, a, S + {n}, w, Q);
    forall m | m in S ensures m < |v| && m < |w| && v[m] == w[m] {
      var i :| 0 <= i < |e.inputs| && e.inputs[i] == m;
    }
    SameOutput(env, a, S, n, v, w, P, Q);
  }

  lemma SameOutput(env: Env, a: nat, S: set<NodeId>, n: NodeId, v: Valuation, w: Valuation, P: seq<int>, Q: seq<int>)
    requires env.p > 0 && Fixes(env, a, S) && |P| == |Q| == env.T + 1
    requires Fits(env, a, S + {n}, v, P) && Fits(env, a, S + {n}, w, Q)
    requires n < |v| && n < |w| && 0 <= v[n] < env.p && 0 <= w[n] < env.p
    requires forall m :: m in S ==> m < |v| && m < |w| && v[m] == w[m]
    ensures v[n] == w[n]
  {
    hide Cong, Apply, Determines;
    assert n in S + {n};
    assert Fits(env, a, S, v, P) && Fits(env, a, S, v, Q) by {
      assert forall m :: m in S ==> m in S + {n};
    }
    SamePolynomial(env, a, S, v, P, Q, n);
    SameResidue(env.p, v[n], Apply(env.roles[a][n], P), Apply(env.roles[a][n], Q), w[n]);
  }

  lemma SameResidue(p: int, x: int, a: int, b: int, y: int)
    requires p > 0 && Cong(p, a, x) && Cong(p, a, b) && Cong(p, b, y)
    requires 0 <= x < p && 0 <= y < p
    ensures x == y
  {
    CongSym(p, a, x);
    CongTrans(p, x, a, b);
    CongTrans(p, x, b, y);
    CongResidue(p, x, y);
  }
}
