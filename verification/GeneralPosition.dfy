// When the parties' points are in general position: decided by elimination for every
// threshold, and said of the points themselves for thresholds one and two.
module GeneralPosition {
  import opened Arith
  import opened Polynomials
  import opened Graphs
  import opened Counters
  import opened Semantics
  import opened SharingMeaning
  import opened Elimination
  import opened Dealing

  // ----- Decided by elimination

  function RolesAlong(m: map<NodeId, Role>, ns: seq<NodeId>): (rs: seq<Role>)
    requires forall i :: 0 <= i < |ns| ==> ns[i] in m
    ensures |rs| == |ns|
  {
    seq(|ns|, i requires 0 <= i < |ns| => m[ns[i]])
  }

  /** Elimination finds a pivot in every column for any T + 1 nodes of a sharing. */
  ghost predicate PivotsEverywhere(env: Env)
    requires env.p > 0
  {
    forall a, ns: seq<NodeId> ::
      (a in env.roles && NoDup(ns) && |ns| == env.T + 1 && Elems(ns) <= env.roles[a].Keys) ==> Pivots(env, a, ns)
  }

  ghost predicate Pivots(env: Env, a: nat, ns: seq<NodeId>)
    requires env.p > 0
  {
    && a in env.roles && (forall i :: 0 <= i < |ns| ==> ns[i] in env.roles[a])
    && Independent(env.p, Rows(RolesAlong(env.roles[a], ns), env.T + 1), env.T + 1)
  }

  ghost function Listed(S: set<NodeId>): (ns: seq<NodeId>)
    ensures NoDup(ns) && Elems(ns) == S
  {
    if S == {} then []
    else
      var x :| x in S;
      var ns := Listed(S - {x});
      ListedMore(ns, S - {x}, x);
      ns + [x]
  }

  lemma ListedMore(ns: seq<NodeId>, S: set<NodeId>, x: NodeId)
    requires NoDup(ns) && Elems(ns) == S && x !in S
    ensures NoDup(ns + [x]) && Elems(ns + [x]) == S + {x}
  {
    assert forall i :: 0 <= i < |ns| ==> ns[i] in Elems(ns);
  }

  lemma PivotsFix(env: Env, a: nat, ns: seq<NodeId>)
    requires WfEnv(env) && a in env.roles && Elems(ns) <= env.roles[a].Keys
    ensures Pivots(env, a, ns) <==> Fixes(env, a, Elems(ns))
  {
    hide Independent, Determines, AlmostDisjoint;
    assert forall i :: 0 <= i < |ns| ==> ns[i] in Elems(ns);
    var rs := RolesAlong(env.roles[a], ns);
    EliminationDecides(env.p, env.T, rs);
    forall r | r in RolesOf(env, a, Elems(ns)) ensures r in rs {
      var n :| n in Elems(ns) && r == env.roles[a][n];
      var i :| 0 <= i < |ns| && ns[i] == n;
      assert rs[i] == r;
    }
    forall r | r in rs ensures r in RolesOf(env, a, Elems(ns)) {
      var i :| 0 <= i < |rs| && rs[i] == r;
      assert ns[i] in Elems(ns);
    }
    assert RoleSet(rs) == RolesOf(env, a, Elems(ns));
  }

  /** For every threshold, general position is decided by elimination on the points. */
  lemma GenericByElimination(env: Env)
    requires WfEnv(env)
    ensures Generic(env) <==> PivotsEverywhere(env)
  {
    hide Pivots, Fixes, AlmostDisjoint;
    if Generic(env) {
      forall a, ns: seq<NodeId> | a in env.roles && NoDup(ns) && |ns| == env.T + 1 && Elems(ns) <= env.roles[a].Keys
        ensures Pivots(env, a, ns)
      {
        NoDupSize(ns);
        PivotsFix(env, a, ns);
        assert InSharing(env, a, Elems(ns));
      }
    }
    if PivotsEverywhere(env) {
      forall a, S | InSharing(env, a, S) && |S| == env.T + 1 ensures Fixes(env, a, S) {
        NoDupSize(Listed(S));
        PivotsFix(env, a, Listed(S));
      }
    }
  }

  // ----- Threshold two

  /** Three different functionals of a polynomial of degree at most two, modulo p. */
  ghost predicate Legal(p: int, r: Role) {
    match r
    case Coef(k) => k <= 2
    case At(x) => 0 < x < p
  }

  lemma QuadraticAt(P: seq<int>, x: int)
    requires |P| == 3
    ensures Eval(P, x) == P[0] + x * P[1] + x * (x * P[2])
  {
    assert Eval(P[2..], x) == P[2] + x * Eval(P[2..][1..], x);
    assert P[1..][1..] == P[2..];
    assert Eval(P[1..], x) == P[1] + x * Eval(P[1..][1..], x);
    assert x * (P[1] + x * P[2]) == x * P[1] + x * (x * P[2]);
  }

  lemma MonicOfTwo(x: int, y: int)
    ensures Monic([x, y]) == [x * y, -(x + y), 1]
  {
    assert [x, y][1..] == [y] && [y][1..] == [];
    assert Monic([y]) == [-y, 1] by { assert Monic([]) == [1]; }
    var M := Monic([x, y]);
    assert M == Polynomials.Plus([0, -y, 1], -x, [-y, 1, 0]);
    assert M[0] == 0 + (-x) * (-y) && (-x) * (-y) == x * y;
  }

  /** One coefficient and two points. */
  lemma CoefficientAndTwo(p: int, k: nat, x: int, y: int)
    requires Prime(p) && k <= 2 && 0 < x < p && 0 < y < p && x != y
    ensures Determines(p, 2, {Coef(k), At(x), At(y)}) <==> k != 1 || (x + y) % p != 0
  {
    hide Determines, Monic, Cong, Prime;
    NotCong(p, x, y);
    var xs := [x, y];
    CoefficientAndPointsDetermine(p, k, xs);
    assert Points(xs) == {At(x), At(y)} by {
      assert Points(xs) == set i | 0 <= i < 2 :: At(xs[i]);
      assert At(xs[0]) == At(x) && At(xs[1]) == At(y);
    }
    assert {Coef(k)} + Points(xs) == {Coef(k), At(x), At(y)};
    MonicOfTwo(x, y);
    TwoCoefficients(p, x, y);
  }

  lemma TwoCoefficients(p: int, x: int, y: int)
    requires Prime(p) && 0 < x < p && 0 < y < p
    ensures !Cong(p, x * y, 0) && !Cong(p, 1, 0)
    ensures Cong(p, -(x + y), 0) <==> (x + y) % p == 0
  {
    hide Prime, Cong;
    NotCong(p, x, 0);
    NotCong(p, y, 0);
    NotCong(p, 1, 0);
    if Cong(p, x * y, 0) { NoZeroDivisors(p, x, y); }
    if Cong(p, -(x + y), 0) { CongScaled(p, -1, -(x + y)); }
    if Cong(p, x + y, 0) { CongScaled(p, -1, x + y); }
    DividesCong(p, x + y);
  }

  lemma DividesCong(p: int, z: int)
    requires p > 0
    ensures Cong(p, z, 0) <==> z % p == 0
  {
  }

  /** Two coefficients and a point: one power of x is left, and x is not zero. */
  lemma TwoCoefficientsAndPoint(p: int, k: nat, l: nat, x: int)
    requires Prime(p) && k < l <= 2 && 0 < x < p
    ensures Determines(p, 2, {Coef(k), Coef(l), At(x)})
  {
    var R := {Coef(k), Coef(l), At(x)};
    forall P: seq<int> | |P| == 3 && Kills(p, R, P) ensures Vanishes(p, P) {
      assert Cong(p, Apply(Coef(k), P), 0) && Cong(p, Apply(Coef(l), P), 0) && Cong(p, Apply(At(x), P), 0);
      LastCoefficient(p, P, k, l, x);
    }
  }

  lemma LastCoefficient(p: int, P: seq<int>, k: nat, l: nat, x: int)
    requires Prime(p) && k < l <= 2 && 0 < x < p && |P| == 3
    requires Cong(p, P[k], 0) && Cong(p, P[l], 0) && Cong(p, Eval(P, x), 0)
    ensures Vanishes(p, P)
  {
    hide Prime, Cong;
    QuadraticAt(P, x);
    NotCong(p, x, 0);
    var a, b, c := P[0], x * P[1], x * (x * P[2]);
    if l == 2 {
      CongScaled(p, x, P[2]);
      CongScaled(p, x, x * P[2]);
      CongAdd(p, a + b + c, 0, c, 0);
      if k == 1 {
        CongScaled(p, x, P[1]);
        CongAdd(p, a + b, 0, b, 0);
      } else {
        CongAdd(p, a + b, 0, a, 0);
        NoZeroDivisors(p, x, P[1]);
      }
    } else {
      CongScaled(p, x, P[1]);
      CongAdd(p, a + b + c, 0, a, 0);
      CongAdd(p, b + c, 0, b, 0);
      NoZeroDivisors(p, x, x * P[2]);
      NoZeroDivisors(p, x, P[2]);
    }
    forall i | 0 <= i < 3 ensures Cong(p, P[i], 0) {
      assert i == k || i == l || i == 3 - k - l;
    }
  }

  ghost predicate Opposite(p: int, r: Role, s: Role, t: Role)
    requires p > 0
  {
    r == Coef(1) && s.At? && t.At? && (s.x + t.x) % p == 0
  }

  /** Among three different functionals only the linear coefficient and opposite points leave a choice. */
  lemma ThreeRoles(p: int, r: Role, s: Role, t: Role)
    requires Prime(p) && Legal(p, r) && Legal(p, s) && Legal(p, t) && r != s && r != t && s != t
    requires !Opposite(p, r, s, t) && !Opposite(p, s, r, t) && !Opposite(p, t, r, s)
    ensures Determines(p, 2, {r, s, t})
  {
    assert p > 0;
    hide Determines, Prime;
    if r.At? {
      PointFirst(p, r, s, t);
    } else if s.At? {
      PointFirst(p, s, r, t);
      assert {s, r, t} == {r, s, t};
    } else if t.At? {
      PointFirst(p, t, r, s);
      assert {t, r, s} == {r, s, t};
    } else {
      assert forall k: nat :: k <= 2 ==> Coef(k) in {r, s, t};
      CoefficientsDetermine(p, 2, {r, s, t});
    }
  }

  lemma PointFirst(p: int, r: Role, s: Role, t: Role)
    requires Prime(p) && Legal(p, r) && Legal(p, s) && Legal(p, t) && r != s && r != t && s != t && r.At?
    requires !Opposite(p, s, r, t) && !Opposite(p, t, r, s)
    ensures Determines(p, 2, {r, s, t})
  {
    hide Determines, Prime;
    if s.At? && t.At? {
      var xs := [r.x, s.x, t.x];
      NotCong(p, r.x, s.x);
      NotCong(p, r.x, t.x);
      NotCong(p, s.x, t.x);
      PointsDetermine(p, 2, xs);
      assert At(xs[0]) == r && At(xs[1]) == s && At(xs[2]) == t;
      assert Points(xs) == {r, s, t};
    } else if s.At? {
      CoefficientAndTwo(p, t.k, r.x, s.x);
      assert {t, r, s} == {r, s, t};
    } else if t.At? {
      CoefficientAndTwo(p, s.k, r.x, t.x);
      assert {s, r, t} == {r, s, t};
    } else if s.k < t.k {
      TwoCoefficientsAndPoint(p, s.k, t.k, r.x);
      assert {s, t, r} == {r, s, t};
    } else {
      TwoCoefficientsAndPoint(p, t.k, s.k, r.x);
      assert {t, s, r} == {r, s, t};
    }
  }

  /** No sharing that holds the linear coefficient has the values at two points that add up to p. */
  ghost predicate NoOpposites(env: Env)
    requires env.p > 0
  {
    forall a, x, y, z :: a in env.roles && x in env.roles[a] && y in env.roles[a] && z in env.roles[a] && x != y ==>
      !Opposite(env.p, env.roles[a][z], env.roles[a][x], env.roles[a][y])
  }

  lemma ThreeOf(S: set<NodeId>) returns (x: NodeId, y: NodeId, z: NodeId)
    requires |S| == 3
    ensures S == {x, y, z} && x != y && x != z && y != z
  {
    x :| x in S;
    var R := S - {x};
    assert |R| == 2;
    y :| y in R;
    var Q := R - {y};
    assert |Q| == 1;
    z :| z in Q;
    assert Q - {z} == {} by { assert |Q - {z}| == 0; }
  }

  lemma RolesOfThree(env: Env, a: nat, x: NodeId, y: NodeId, z: NodeId)
    requires InSharing(env, a, {x, y, z})
    ensures RolesOf(env, a, {x, y, z}) == {env.roles[a][x], env.roles[a][y], env.roles[a][z]}
  {
    assert x in {x, y, z} && y in {x, y, z} && z in {x, y, z};
  }

  /** With two corruptions allowed, general position means that no two points are opposite. */
  lemma GenericForTwo(env: Env)
    requires WfEnv(env) && env.T == 2
    ensures Generic(env) <==> NoOpposites(env)
  {
    assert env.p > 0;
    hide Determines, Prime, AlmostDisjoint, Opposite;
    if Generic(env) {
      forall a, x, y, z | a in env.roles && x in env.roles[a] && y in env.roles[a] && z in env.roles[a] && x != y
        ensures !Opposite(env.p, env.roles[a][z], env.roles[a][x], env.roles[a][y])
      {
        NotOpposite(env, a, x, y, z);
      }
    }
    if NoOpposites(env) {
      forall a, S | InSharing(env, a, S) && |S| == 3 ensures Fixes(env, a, S) {
        ThreeFix(env, a, S);
      }
    }
  }

  lemma ThreeFix(env: Env, a: nat, S: set<NodeId>)
    requires WfEnv(env) && env.T == 2 && NoOpposites(env) && InSharing(env, a, S) && |S| == 3
    ensures Fixes(env, a, S)
  {
    var x, y, z := ThreeOf(S);
    var m := env.roles[a];
    DistinctLegal(env, a, x, y);
    DistinctLegal(env, a, x, z);
    DistinctLegal(env, a, y, z);
    hide WfEnv, Determines, Opposite;
    RolesOfThree(env, a, x, y, z);
    ThreeRoles(env.p, m[x], m[y], m[z]);
  }

  lemma DistinctLegal(env: Env, a: nat, x: NodeId, y: NodeId)
    requires WfEnv(env) && env.T == 2 && a in env.roles && x in env.roles[a] && y in env.roles[a] && x != y
    ensures Prime(env.p) && Legal(env.p, env.roles[a][x]) && Legal(env.p, env.roles[a][y])
    ensures env.roles[a][x] != env.roles[a][y]
  {
    hide AlmostDisjoint, Prime;
    assert LegalRole(env, env.roles[a][x]) && LegalRole(env, env.roles[a][y]);
  }

  lemma NotOpposite(env: Env, a: nat, x: NodeId, y: NodeId, z: NodeId)
    requires WfEnv(env) && env.T == 2 && Generic(env)
    requires a in env.roles && x in env.roles[a] && y in env.roles[a] && z in env.roles[a] && x != y
    ensures !Opposite(env.p, env.roles[a][z], env.roles[a][x], env.roles[a][y])
  {
    hide Determines, Prime, AlmostDisjoint;
    var m := env.roles[a];
    if m[z] == Coef(1) && m[x].At? && m[y].At? {
      assert LegalRole(env, m[x]) && LegalRole(env, m[y]) && m[x] != m[y] && z != x && z != y;
      var S := {x, y, z};
      assert |S| == 3 && InSharing(env, a, S);
      assert Fixes(env, a, S);
      RolesOfThree(env, a, x, y, z);
      CoefficientAndTwo(env.p, 1, m[x].x, m[y].x);
      assert {Coef(1), m[x], m[y]} == {m[x], m[y], m[z]};
    }
  }

  lemma SmallSum(p: int, x: int, y: int)
    requires 0 < x + y < p
    ensures (x + y) % p != 0
  {
  }

  lemma PointInRange(N: nat, p: int, x: NodeId)
    requires x in Field(N, 2, p).roles[0] && Field(N, 2, p).roles[0][x].At?
    ensures 0 < Field(N, 2, p).roles[0][x].x <= N
  {
  }

  lemma SmallPoints(N: nat, p: int)
    requires p > 2 * N
    ensures NoOpposites(Field(N, 2, p))
  {
    FieldThreshold(N, 2, p);
    var env := Field(N, 2, p);
    assert forall a :: a in env.roles ==> a == 0;
    hide Field;
    forall a, x, y, z | a in env.roles && x in env.roles[a] && y in env.roles[a] && z in env.roles[a] && x != y
      ensures !Opposite(p, env.roles[a][z], env.roles[a][x], env.roles[a][y])
    {
      if env.roles[0][x].At? && env.roles[0][y].At? {
        PointInRange(N, p, x);
        PointInRange(N, p, y);
        SmallSum(p, env.roles[0][x].x, env.roles[0][y].x);
      }
    }
  }

  /** Points 1 to N, threshold two: a prime above 2N is large enough. */
  lemma DealtGeneric(N: nat, p: int)
    requires Prime(p) && FieldFits(N, 2, p) && p > 2 * N
    ensures WfEnv(Field(N, 2, p)) && Generic(Field(N, 2, p))
  {
    hide Prime, NoOpposites, Generic, Injective, AlmostDisjoint, LegalRole;
    FieldOk(N, 2, p);
    SmallPoints(N, p);
    FieldThreshold(N, 2, p);
    GenericForTwo(Field(N, 2, p));
  }
}
