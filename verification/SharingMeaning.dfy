// When exactly a sharing rewrite preserves meaning, for a sharing as its dealer makes it:
// the inputs are the T + 1 coefficients, and the shares are values at points.
module SharingMeaning {
  import opened Arith
  import opened Polynomials
  import opened Graphs
  import opened Counters
  import opened Semantics
  import opened Patterns
  import opened Sharing
  import opened SharingCounts

  ghost function PolyOf(g: Graph, n: NodeId): nat
    requires Shape(g) && n < |g.nodes| && |g.outs[n]| > 0
  {
    g.outs[n][0].arg
  }

  /** Coefficient k is the value of one of these nodes. */
  ghost predicate HoldsCoefficient(env: Env, a: nat, S: set<NodeId>, k: nat) {
    a in env.roles && exists x :: x in S && x in env.roles[a] && env.roles[a][x] == Coef(k)
  }

  lemma AllCoefficients(env: Env, a: nat, S: set<NodeId>)
    requires env.p > 0 && InSharing(env, a, S) && forall k: nat :: k <= env.T ==> HoldsCoefficient(env, a, S, k)
    ensures Determines(env.p, env.T, RolesOf(env, a, S))
  {
    forall k | 0 <= k <= env.T ensures Coef(k) in RolesOf(env, a, S) {
      assert HoldsCoefficient(env, a, S, k);
    }
    CoefficientsDetermine(env.p, env.T, RolesOf(env, a, S));
  }

  /** The inputs hold all coefficients, the shares hold values at points. */
  ghost predicate Dealt(env: Env, g: Graph, n: NodeId)
    requires Sync(g) && n < |g.nodes| && |g.outs[n]| > 0
  {
    var a, S, X := PolyOf(g, n), AllInputs(g.outs[n]), Elems(Outputs(g.outs[n]));
    && InSharing(env, a, S) && InSharing(env, a, X)
    && (forall k: nat :: k <= env.T ==> HoldsCoefficient(env, a, S, k))
    && (forall x :: x in S ==> env.roles[a][x].Coef?)
    && (forall x :: x in X ==> env.roles[a][x].At?)
  }

  /** The points of a list of shares. */
  ghost function SharePoints(env: Env, a: nat, shares: seq<NodeId>): (xs: seq<int>)
    requires InSharing(env, a, Elems(shares)) && forall s :: s in shares ==> env.roles[a][s].At?
    ensures |xs| == |shares|
  {
    if shares == [] then []
    else
      assert forall i :: 0 <= i < |shares| ==> shares[i] in Elems(shares);
      assert forall s :: s in shares[1..] ==> s in shares;
      [env.roles[a][shares[0]].x] + SharePoints(env, a, shares[1..])
  }

  lemma {:induction false} PointAt(env: Env, a: nat, shares: seq<NodeId>, i: nat)
    requires InSharing(env, a, Elems(shares)) && forall s :: s in shares ==> env.roles[a][s].At?
    requires i < |shares|
    ensures shares[i] in env.roles[a] && At(SharePoints(env, a, shares)[i]) == env.roles[a][shares[i]]
  {
    assert shares[i] in Elems(shares);
    if i > 0 {
      assert forall s :: s in shares[1..] ==> s in shares;
      PointAt(env, a, shares[1..], i - 1);
    }
  }

  lemma LegalPoint(env: Env, a: nat, shares: seq<NodeId>, i: nat)
    requires WfEnv(env) && i < |shares|
    requires InSharing(env, a, Elems(shares)) && forall s :: s in shares ==> env.roles[a][s].At?
    ensures 0 < SharePoints(env, a, shares)[i] < env.p
    ensures shares[i] in env.roles[a] && At(SharePoints(env, a, shares)[i]) == env.roles[a][shares[i]]
  {
    PointAt(env, a, shares, i);
    assert LegalRole(env, env.roles[a][shares[i]]);
  }

  /** Distinct nodes of a sharing hold distinct points, none of them zero. */
  lemma PointsDistinct(env: Env, a: nat, shares: seq<NodeId>)
    requires WfEnv(env) && NoDup(shares)
    requires InSharing(env, a, Elems(shares)) && forall s :: s in shares ==> env.roles[a][s].At?
    ensures Distinct(env.p, SharePoints(env, a, shares)) && Distinct(env.p, [0] + SharePoints(env, a, shares))
    ensures RolesOf(env, a, Elems(shares)) == Points(SharePoints(env, a, shares))
  {
    hide SharePoints, Cong;
    var xs := SharePoints(env, a, shares);
    forall i, j | 0 <= i < j < |xs| ensures !Cong(env.p, xs[i], xs[j]) {
      LegalPoint(env, a, shares, i);
      LegalPoint(env, a, shares, j);
      NotCong(env.p, xs[i], xs[j]);
    }
    forall j | 0 <= j < |xs| ensures !Cong(env.p, 0, xs[j]) {
      LegalPoint(env, a, shares, j);
      NotCong(env.p, 0, xs[j]);
    }
    RolesArePoints(env, a, shares);
  }

  lemma NotCong(p: int, x: int, y: int)
    requires 0 <= x < p && 0 <= y < p && x != y
    ensures !Cong(p, x, y)
  {
    if Cong(p, x, y) { CongResidue(p, x, y); }
  }

  lemma RolesArePoints(env: Env, a: nat, shares: seq<NodeId>)
    requires InSharing(env, a, Elems(shares)) && forall s :: s in shares ==> env.roles[a][s].At?
    ensures RolesOf(env, a, Elems(shares)) == Points(SharePoints(env, a, shares))
  {
    hide SharePoints;
    var xs := SharePoints(env, a, shares);
    forall r ensures r in RolesOf(env, a, Elems(shares)) <==> r in Points(xs) {
      if r in RolesOf(env, a, Elems(shares)) {
        var s :| s in Elems(shares) && r == env.roles[a][s];
        var i :| 0 <= i < |shares| && shares[i] == s;
        PointAt(env, a, shares, i);
        assert r == At(xs[i]);
      }
      if r in Points(xs) {
        var i :| 0 <= i < |xs| && r == At(xs[i]);
        PointAt(env, a, shares, i);
        assert shares[i] in Elems(shares);
      }
    }
  }

  /** T + 1 or more distinct shares fix the polynomial: root counting. */
  lemma SharesFix(env: Env, a: nat, shares: seq<NodeId>)
    requires WfEnv(env) && NoDup(shares) && |shares| >= env.T + 1
    requires InSharing(env, a, Elems(shares)) && forall s :: s in shares ==> env.roles[a][s].At?
    ensures Fixes(env, a, Elems(shares))
  {
    var front := shares[..env.T + 1];
    assert forall s :: s in front ==> s in shares;
    assert Elems(front) <= Elems(shares);
    PointsDistinct(env, a, front);
    PointsDetermine(env.p, env.T, SharePoints(env, a, front));
    FixesMonotone(env, a, Elems(front), Elems(shares));
  }

  ghost predicate DealtSetting(env: Env, parties: set<Party>, g: Graph, n: NodeId, src: set<Party>, keep: bool) {
    SharingSetting(env, parties, g, n, src, keep) && |g.outs[n]| > 0 && Dealt(env, g, n)
  }

  lemma SourceSharesDealt(env: Env, parties: set<Party>, g: Graph, n: NodeId, src: set<Party>, keep: bool)
    requires DealtSetting(env, parties, g, n, src, keep)
    ensures var shares, a := SourceShares(g, n, src), PolyOf(g, n);
            && NoDup(shares) && |shares| == |src| && InSharing(env, a, Elems(shares))
            && (forall s :: s in shares ==> env.roles[a][s].At?)
            && n in AllInputs(g.outs[n]) && n in env.roles[a] && g.T == env.T
  {
    SharingSplit(env, parties, g, n, src);
    var shares, X := SourceShares(g, n, src), Elems(Outputs(g.outs[n]));
    assert Elems(shares) <= X;
    forall s | s in shares ensures s in X {
      assert s in Elems(shares);
    }
  }

  /** The points of the source shares. */
  ghost function SourcePoints(env: Env, parties: set<Party>, g: Graph, n: NodeId, src: set<Party>, keep: bool): seq<int>
    requires DealtSetting(env, parties, g, n, src, keep)
  {
    SourceSharesDealt(env, parties, g, n, src, keep);
    SharePoints(env, PolyOf(g, n), SourceShares(g, n, src))
  }

  /**
   * The old inputs fix the polynomial. So do T + 1 source shares. The matched node with T
   * source shares does so exactly when its coefficient of the polynomial with the source
   * points as roots is nonzero; for the secret itself (coefficient 0) that always holds.
   */
  lemma DealtFixes(env: Env, parties: set<Party>, g: Graph, n: NodeId, src: set<Party>, keep: bool)
    requires DealtSetting(env, parties, g, n, src, keep)
    ensures Fixes(env, PolyOf(g, n), AllInputs(g.outs[n]))
    ensures !keep ==> Fixes(env, PolyOf(g, n), Elems(SharingSrcs(g, n, src, keep)))
    ensures n in env.roles[PolyOf(g, n)] && env.roles[PolyOf(g, n)][n].Coef?
    ensures var k, xs := env.roles[PolyOf(g, n)][n].k, SourcePoints(env, parties, g, n, src, keep);
            k < |Monic(xs)| || !keep
    ensures keep ==>
      var k, xs := env.roles[PolyOf(g, n)][n].k, SourcePoints(env, parties, g, n, src, keep);
      Fixes(env, PolyOf(g, n), Elems(SharingSrcs(g, n, src, keep))) <==> !Cong(env.p, Monic(xs)[k], 0)
    ensures keep && env.roles[PolyOf(g, n)][n].k == 0 ==> Fixes(env, PolyOf(g, n), Elems(SharingSrcs(g, n, src, keep)))
  {
    hide SharingMatch, SyncAt, Coherent, SourceShares, AllInputs, Monic, HoldsCoefficient;
    var a, S, shares := PolyOf(g, n), AllInputs(g.outs[n]), SourceShares(g, n, src);
    SourceSharesDealt(env, parties, g, n, src, keep);
    AllCoefficients(env, a, S);
    var xs := SourcePoints(env, parties, g, n, src, keep);
    PointsDistinct(env, a, shares);
    if keep {
      KeptSourcesFix(env, a, n, shares);
    } else {
      assert [] + shares == shares;
      SharesFix(env, a, shares);
    }
  }

  lemma KeptSourcesFix(env: Env, a: nat, n: NodeId, shares: seq<NodeId>)
    requires WfEnv(env) && NoDup(shares) && |shares| == env.T && InSharing(env, a, Elems(shares))
    requires forall s :: s in shares ==> env.roles[a][s].At?
    requires a in env.roles && n in env.roles[a] && env.roles[a][n].Coef?
    ensures env.roles[a][n].k <= env.T
    ensures Fixes(env, a, Elems([n] + shares)) <==>
      !Cong(env.p, Monic(SharePoints(env, a, shares))[env.roles[a][n].k], 0)
    ensures env.roles[a][n].k == 0 ==> Fixes(env, a, Elems([n] + shares))
  {
    hide Monic, Determines;
    var k, xs := env.roles[a][n].k, SharePoints(env, a, shares);
    assert LegalRole(env, env.roles[a][n]);
    PointsDistinct(env, a, shares);
    assert Elems([n] + shares) == {n} + Elems(shares);
    assert RolesOf(env, a, {n} + Elems(shares)) == {Coef(k)} + Points(xs);
    CoefficientAndPointsDetermine(env.p, k, xs);
    if k == 0 { SecretAndPointsDetermine(env.p, env.T, xs); }
  }

  // ----- Exactness

  lemma UnkilledShare(env: Env, a: nat, xs: seq<NodeId>, K: seq<int>) returns (o: NodeId)
    requires WfEnv(env) && NoDup(xs) && |xs| >= env.T + 1 && InSharing(env, a, Elems(xs))
    requires forall s :: s in xs ==> env.roles[a][s].At?
    requires |K| == env.T + 1 && !Vanishes(env.p, K)
    ensures o in xs && o in env.roles[a] && !Cong(env.p, Apply(env.roles[a][o], K), 0)
  {
    SharesFix(env, a, xs);
    assert !Kills(env.p, RolesOf(env, a, Elems(xs)), K);
    var r :| r in RolesOf(env, a, Elems(xs)) && !Cong(env.p, Apply(r, K), 0);
    o :| o in Elems(xs) && env.roles[a][o] == r;
  }

  /** A polynomial that is zero at the sources but not everywhere is nonzero at some other share. */
  lemma NonzeroShare(env: Env, parties: set<Party>, g: Graph, n: NodeId, src: set<Party>, keep: bool, K: seq<int>)
    returns (o: NodeId)
    requires DealtSetting(env, parties, g, n, src, keep) && |K| == env.T + 1 && !Vanishes(env.p, K)
    requires InSharing(env, PolyOf(g, n), Elems(SharingSrcs(g, n, src, keep)))
    requires Kills(env.p, RolesOf(env, PolyOf(g, n), Elems(SharingSrcs(g, n, src, keep))), K)
    ensures o in OtherShares(g, n, src) && o in Outputs(g.outs[n]) && o in env.roles[PolyOf(g, n)]
    ensures !Cong(env.p, Apply(env.roles[PolyOf(g, n)][o], K), 0)
  {
    hide SharingMatch, SyncAt, AllInputs, SourceShares, OtherShares, Apply, Cong, WellFormed, Vanishes, Outputs;
    hide Injective, AlmostDisjoint;
    var a, xs := PolyOf(g, n), Outputs(g.outs[n]);
    MatchedShares(env, parties, g, n, src, keep);
    o := UnkilledShare(env, a, xs, K);
    forall s | s in SourceShares(g, n, src) ensures s in env.roles[a] && Cong(env.p, Apply(env.roles[a][s], K), 0) {
      assert s in Elems(SharingSrcs(g, n, src, keep));
      assert env.roles[a][s] in RolesOf(env, a, Elems(SharingSrcs(g, n, src, keep)));
    }
    SharingSplit(env, parties, g, n, src);
    assert o in Elems(SourceShares(g, n, src)) + Elems(OtherShares(g, n, src));
  }

  lemma MatchedShares(env: Env, parties: set<Party>, g: Graph, n: NodeId, src: set<Party>, keep: bool)
    requires DealtSetting(env, parties, g, n, src, keep)
    ensures var a, xs := PolyOf(g, n), Outputs(g.outs[n]);
            && NoDup(xs) && |xs| >= env.T + 1 && InSharing(env, a, Elems(xs))
            && forall s :: s in xs ==> env.roles[a][s].At?
  {
    hide SharingMatch, SyncAt, AllInputs;
    SharingParties(env, parties, g, n, src);
    MatchSize(env, parties, g, n, src);
    assert forall s :: s in Outputs(g.outs[n]) ==> s in Elems(Outputs(g.outs[n]));
  }

  /** Zero everywhere except at one share. */
  ghost function Spike(env: Env, g: Graph, a: nat, o: NodeId, K: seq<int>): Valuation
    requires env.p > 0 && a in env.roles && o in env.roles[a] && o < |g.nodes|
  {
    seq(|g.nodes|, _ => 0)[o := Apply(env.roles[a][o], K) % env.p]
  }

  lemma ZeroFits(env: Env, a: nat, ns: set<NodeId>, v: Valuation)
    requires env.p > 0 && InSharing(env, a, ns) && NodesIn(ns, |v|) && forall n :: n in ns ==> v[n] == 0
    ensures OnPolynomial(env, a, ns, v)
  {
    var Z := seq(env.T + 1, _ => 0);
    forall n | n in ns ensures Cong(env.p, Apply(env.roles[a][n], Z), v[n]) {
      CongRefl(env.p, 0);
      ApplyVanishing(env.p, env.roles[a][n], Z);
    }
    assert Fits(env, a, ns, v, Z);
  }

  /** A valuation with one nonzero share satisfies the new edges if the sources miss it. */
  lemma SpikeNew(env: Env, parties: set<Party>, g: Graph, n: NodeId, src: set<Party>, keep: bool, K: seq<int>,
                 o: NodeId)
    requires DealtSetting(env, parties, g, n, src, keep) && |K| == env.T + 1 && o < |g.nodes|
    requires InSharing(env, PolyOf(g, n), Elems(SharingSrcs(g, n, src, keep)))
    requires Kills(env.p, RolesOf(env, PolyOf(g, n), Elems(SharingSrcs(g, n, src, keep))), K)
    requires o in OtherShares(g, n, src) && o in env.roles[PolyOf(g, n)]
    ensures AllHoldIn(env, NewEvals(g, n, src, keep), Spike(env, g, PolyOf(g, n), o, K))
  {
    forall e | e in NewEvals(g, n, src, keep)
      ensures var v := Spike(env, g, PolyOf(g, n), o, K); Spans(e, v) && Holds(env, e, v)
    {
      SpikeNewEdge(env, parties, g, n, src, keep, K, o, e);
    }
  }

  lemma SpikeNewEdge(env: Env, parties: set<Party>, g: Graph, n: NodeId, src: set<Party>, keep: bool, K: seq<int>,
                     o: NodeId, e: Operation)
    requires DealtSetting(env, parties, g, n, src, keep) && |K| == env.T + 1 && o < |g.nodes|
    requires InSharing(env, PolyOf(g, n), Elems(SharingSrcs(g, n, src, keep)))
    requires Kills(env.p, RolesOf(env, PolyOf(g, n), Elems(SharingSrcs(g, n, src, keep))), K)
    requires o in OtherShares(g, n, src) && o in env.roles[PolyOf(g, n)] && e in NewEvals(g, n, src, keep)
    ensures var v := Spike(env, g, PolyOf(g, n), o, K); Spans(e, v) && Holds(env, e, v)
  {
    hide SharingMatch, SyncAt, Coherent, Dealt, OtherShares, Apply, Cong, SharingSrcs, SharingDsts, Kills, Holds;
    hide OnPolynomial;
    var a, srcs, dsts := PolyOf(g, n), SharingSrcs(g, n, src, keep), SharingDsts(g, n, src, keep);
    SourcesMiss(env, parties, g, n, src, keep, o);
    var d :| d in dsts && e == Operation(EVAL, srcs, d, a);
    assert Elems(srcs) + {d} <= Elems(srcs) + dsts;
    SpikeEdge(env, g, a, Elems(srcs), d, o, K);
    EvalHolds(env, srcs, d, a, Spike(env, g, a, o, K));
  }

  lemma SourcesMiss(env: Env, parties: set<Party>, g: Graph, n: NodeId, src: set<Party>, keep: bool, o: NodeId)
    requires DealtSetting(env, parties, g, n, src, keep) && o in OtherShares(g, n, src)
    ensures var srcs, dsts := SharingSrcs(g, n, src, keep), SharingDsts(g, n, src, keep);
            && o in dsts && o !in Elems(srcs) && env.p > 0
            && NodesIn(Elems(srcs) + dsts, |g.nodes|) && InSharing(env, PolyOf(g, n), Elems(srcs) + dsts)
  {
    hide SharingMatch, SyncAt, Coherent, AllInputs, SourceShares, OtherShares, SharingSrcs;
    SharingSizes(env, parties, g, n, src, keep);
    SharingNodesInRange(env, parties, g, n, src);
    SharingEdges(env, parties, g, n, src);
    assert o in Elems(OtherShares(g, n, src));
  }

  lemma SpikeEdge(env: Env, g: Graph, a: nat, S: set<NodeId>, d: NodeId, o: NodeId, K: seq<int>)
    requires env.p > 0 && a in env.roles && InSharing(env, a, S + {d}) && NodesIn(S + {d}, |g.nodes|)
    requires o !in S && o in env.roles[a] && o < |g.nodes| && |K| == env.T + 1 && Kills(env.p, RolesOf(env, a, S), K)
    ensures OnPolynomial(env, a, S + {d}, Spike(env, g, a, o, K))
  {
    var v := Spike(env, g, a, o, K);
    if d == o {
      forall m | m in S + {d} ensures Cong(env.p, Apply(env.roles[a][m], K), v[m]) {
        if m == o {
          CongMod(env.p, Apply(env.roles[a][o], K));
          CongSym(env.p, v[o], Apply(env.roles[a][o], K));
        } else {
          assert env.roles[a][m] in RolesOf(env, a, S);
        }
      }
      assert Fits(env, a, S + {d}, v, K);
    } else {
      ZeroFits(env, a, S + {d}, v);
    }
  }

  /** It violates the old evaluation of that share. */
  lemma SpikeOld(env: Env, parties: set<Party>, g: Graph, n: NodeId, src: set<Party>, keep: bool, K: seq<int>,
                 o: NodeId)
    requires DealtSetting(env, parties, g, n, src, keep) && |K| == env.T + 1 && o < |g.nodes|
    requires o in Outputs(g.outs[n]) && o in env.roles[PolyOf(g, n)]
    requires !Cong(env.p, Apply(env.roles[PolyOf(g, n)][o], K), 0)
    ensures !AllHoldIn(env, OldEvals(g, n), Spike(env, g, PolyOf(g, n), o, K))
  {
    hide SharingMatch, SyncAt, Coherent, AllInputs, Apply, Cong;
    var a, S, es := PolyOf(g, n), AllInputs(g.outs[n]), g.outs[n];
    var v := Spike(env, g, a, o, K);
    var i := IndexOfOutput(es, o);
    SharingEdges(env, parties, g, n, src);
    SharingNodesInRange(env, parties, g, n, src);
    assert SharingEdge(env, g, n, es[i]) && es[i] in OldEvals(g, n);
    OldEvalHolds(env, parties, g, n, src, v, i);
    AllCoefficients(env, a, S);
    if OnPolynomial(env, a, S + {o}, v) {
      var P: seq<int> :| |P| == env.T + 1 && Fits(env, a, S + {o}, v, P);
      ZeroEverywhere(env, a, S, v, P, o);
      CongMod(env.p, Apply(env.roles[a][o], K));
      CongSym(env.p, v[o], Apply(env.roles[a][o], K));
      ChainToZero(env.p, Apply(env.roles[a][o], K), v[o], Apply(env.roles[a][o], P));
    }
  }

  lemma ChainToZero(p: int, k: int, v: int, x: int)
    requires p > 0 && Cong(p, k, v) && Cong(p, x, v) && Cong(p, x, 0)
    ensures Cong(p, k, 0)
  {
    CongSym(p, x, v);
    CongTrans(p, v, x, 0);
    CongTrans(p, k, v, 0);
  }

  lemma ZeroEverywhere(env: Env, a: nat, S: set<NodeId>, v: Valuation, P: seq<int>, o: NodeId)
    requires env.p > 0 && Fixes(env, a, S) && |P| == env.T + 1 && Fits(env, a, S + {o}, v, P)
    requires NodesIn(S, |v|) && (forall m :: m in S ==> v[m] == 0) && o in env.roles[a]
    ensures Cong(env.p, Apply(env.roles[a][o], P), 0)
    ensures Cong(env.p, Apply(env.roles[a][o], P), v[o])
  {
    forall r | r in RolesOf(env, a, S) ensures Cong(env.p, Apply(r, P), 0) {
      var m :| m in S && r == env.roles[a][m];
      assert m in S + {o};
    }
    assert Kills(env.p, RolesOf(env, a, S), P);
    ApplyVanishing(env.p, env.roles[a][o], P);
    assert o in S + {o};
  }

  /** The old edges and the new edges of the rewrite have the same solutions. */
  ghost predicate SameEdgeSolutions(env: Env, g: Graph, n: NodeId, src: set<Party>, keep: bool)
    requires env.p > 0 && Sync(g) && n < |g.nodes| && |g.outs[n]| > 0
  {
    && (forall t :: t in MovedTransits(g, n, src) ==> IsTransit(t))
    && forall v :: IsValuation(env, g, v) ==>
         (AllHoldIn(env, ElimSet(g, n, src), v) <==> AllHoldIn(env, AddSet(g, n, src, keep), v))
  }

  /** For a dealt sharing the rewrite preserves meaning exactly when the new sources fix the polynomial. */
  lemma DealtExact(env: Env, parties: set<Party>, g: Graph, n: NodeId, src: set<Party>, keep: bool)
    requires DealtSetting(env, parties, g, n, src, keep)
    ensures SameEdgeSolutions(env, g, n, src, keep) <==> Fixes(env, PolyOf(g, n), Elems(SharingSrcs(g, n, src, keep)))
  {
    hide SharingMatch, Sync, WellFormed, AllInputs, SourceShares, OtherShares, SharingSrcs, Fixes, SameEdgeSolutions;
    hide Dealt;
    if Fixes(env, PolyOf(g, n), Elems(SharingSrcs(g, n, src, keep))) {
      FixedSame(env, parties, g, n, src, keep);
    } else {
      UnfixedSeparates(env, parties, g, n, src, keep);
    }
  }

  lemma FixedSame(env: Env, parties: set<Party>, g: Graph, n: NodeId, src: set<Party>, keep: bool)
    requires DealtSetting(env, parties, g, n, src, keep)
    requires Fixes(env, PolyOf(g, n), Elems(SharingSrcs(g, n, src, keep)))
    ensures SameEdgeSolutions(env, g, n, src, keep)
  {
    hide SharingMatch, SyncAt, Coherent, AllInputs, SourceShares, OtherShares, SharingSrcs, Determines;
    DealtFixes(env, parties, g, n, src, keep);
    SharingEquivalent(env, parties, g, n, src, keep);
  }

  lemma SourcesInSharing(env: Env, parties: set<Party>, g: Graph, n: NodeId, src: set<Party>, keep: bool)
    requires DealtSetting(env, parties, g, n, src, keep)
    ensures InSharing(env, PolyOf(g, n), Elems(SharingSrcs(g, n, src, keep)))
  {
    hide SharingMatch, SyncAt, Coherent, AllInputs, SourceShares, WfEnv;
    SourceSharesDealt(env, parties, g, n, src, keep);
  }

  lemma UnfixedSeparates(env: Env, parties: set<Party>, g: Graph, n: NodeId, src: set<Party>, keep: bool)
    requires DealtSetting(env, parties, g, n, src, keep)
    requires !Fixes(env, PolyOf(g, n), Elems(SharingSrcs(g, n, src, keep)))
    ensures !SameEdgeSolutions(env, g, n, src, keep)
  {
    hide SharingMatch, Sync, WellFormed, AllInputs, SourceShares, OtherShares, SharingSrcs, Fixes, SameEdgeSolutions;
    hide Dealt;
    hide Kills, Vanishes, RolesOf, Apply, InSharing, AlmostDisjoint, Injective, LegalRole, Counted;
    SourcesInSharing(env, parties, g, n, src, keep);
    var K := Undetermined(env, PolyOf(g, n), Elems(SharingSrcs(g, n, src, keep)));
    var o := NonzeroShare(env, parties, g, n, src, keep, K);
    SpikeSeparates(env, parties, g, n, src, keep, K, o);
  }

  lemma Undetermined(env: Env, a: nat, ns: set<NodeId>) returns (K: seq<int>)
    requires env.p > 0 && InSharing(env, a, ns) && !Fixes(env, a, ns)
    ensures |K| == env.T + 1 && Kills(env.p, RolesOf(env, a, ns), K) && !Vanishes(env.p, K)
  {
    K :| |K| == env.T + 1 && Kills(env.p, RolesOf(env, a, ns), K) && !Vanishes(env.p, K);
  }

  lemma SpikeSeparates(env: Env, parties: set<Party>, g: Graph, n: NodeId, src: set<Party>, keep: bool, K: seq<int>,
                       o: NodeId)
    requires DealtSetting(env, parties, g, n, src, keep) && |K| == env.T + 1
    requires InSharing(env, PolyOf(g, n), Elems(SharingSrcs(g, n, src, keep)))
    requires Kills(env.p, RolesOf(env, PolyOf(g, n), Elems(SharingSrcs(g, n, src, keep))), K)
    requires o in OtherShares(g, n, src) && o in Outputs(g.outs[n]) && o in env.roles[PolyOf(g, n)]
    requires !Cong(env.p, Apply(env.roles[PolyOf(g, n)][o], K), 0)
    ensures !SameEdgeSolutions(env, g, n, src, keep)
  {
    hide SharingMatch, SyncAt, Coherent, AllInputs, SourceShares, OtherShares, SharingSrcs, Apply, Cong, Kills;
    hide NewEvals, OldEvals;
    SharingNodesInRange(env, parties, g, n, src);
    assert o in AllInputs(g.outs[n]) + Elems(Outputs(g.outs[n]));
    var a := PolyOf(g, n);
    var v := Spike(env, g, a, o, K);
    CongMod(env.p, Apply(env.roles[a][o], K));
    assert IsValuation(env, g, v);
    SpikeNew(env, parties, g, n, src, keep, K, o);
    SpikeOld(env, parties, g, n, src, keep, K, o);
    SpikeFlips(env, parties, g, n, src, keep, o, v);
  }

  lemma SpikeFlips(env: Env, parties: set<Party>, g: Graph, n: NodeId, src: set<Party>, keep: bool, o: NodeId,
                   v: Valuation)
    requires DealtSetting(env, parties, g, n, src, keep) && o in OtherShares(g, n, src)
    requires |v| == |g.nodes| && forall k :: 0 <= k < |v| && k != o ==> v[k] == 0
    ensures forall t :: t in MovedTransits(g, n, src) ==> IsTransit(t)
    ensures AllHoldIn(env, Flips(MovedTransits(g, n, src)), v)
  {
    var ts := MovedTransits(g, n, src);
    forall t | t in ts ensures IsTransit(t) && Spans(t, v) && Holds(env, t, v) {
      MovedHolds(env, parties, g, n, src, o, v, t);
    }
    FlipsHold(env, ts, v);
  }

  lemma MovedHolds(env: Env, parties: set<Party>, g: Graph, n: NodeId, src: set<Party>, o: NodeId, v: Valuation,
                   t: Operation)
    requires Ready(env, parties, g) && n < |g.nodes| && SharingMatch(g, n, src) && src <= parties
    requires o in OtherShares(g, n, src) && t in MovedTransits(g, n, src)
    requires |v| == |g.nodes| && forall k :: 0 <= k < |v| && k != o ==> v[k] == 0
    ensures IsTransit(t) && Spans(t, v) && Holds(env, t, v)
  {
    hide SharingMatch, SyncAt, Coherent, SourceShares, OtherShares;
    MovedTransitFacts(env, parties, g, n, src, t);
    MovedEnds(env, parties, g, n, src, t, o);
    assert InRange(g, t);
  }

  lemma MovedEnds(env: Env, parties: set<Party>, g: Graph, n: NodeId, src: set<Party>, t: Operation, o: NodeId)
    requires Ready(env, parties, g) && n < |g.nodes| && SharingMatch(g, n, src) && src <= parties
    requires t in MovedTransits(g, n, src) && o in OtherShares(g, n, src)
    ensures IsTransit(t) && t.output != o && t.inputs[0] != o
  {
    MovedTransitFacts(env, parties, g, n, src, t);
    MovedIsSource(g, n, src, t.inputs[0]);
    SharingSplit(env, parties, g, n, src);
    assert t.inputs[0] in Elems(SourceShares(g, n, src)) && o in Elems(OtherShares(g, n, src));
    var i := IndexOfOutput(g.outs[n], t.inputs[0]);
    assert Target(g, g.outs[n][i].output) == t.output;
    assert t.output in SourceTargets(g, n, src);
    TargetRegion(env, parties, g, n, src, t.output);
  }
}
