// The sharing rewrite on masked sharings: it keeps the solutions exactly when it does so on the
// dealt sharing, because the one edge more only computes one node more.
module MaskedRewrites {
  import opened Arith
  import opened Polynomials
  import opened Graphs
  import opened Counters
  import opened Semantics
  import opened Sharing
  import opened SharingCounts
  import opened Dealing
  import opened DealtRewrites
  import opened Masking

  lemma HoldsExtended(env: Env, e: Operation, v: Valuation, x: int)
    requires env.p > 0 && Spans(e, v)
    ensures Spans(e, v + [x]) && (Holds(env, e, v + [x]) <==> Holds(env, e, v))
  {
    assert InputValues(e, v + [x]) == InputValues(e, v);
    if PolyEdge(e) {
      forall P | |P| == env.T + 1
        ensures Fits(env, e.arg, Inputs(e) + {e.output}, v + [x], P) <==> Fits(env, e.arg, Inputs(e) + {e.output}, v, P)
      {
      }
    }
  }

  /** Graph g has the edges of h, and the product of node 0 with the constant 0 as a node more. */
  ghost predicate MaskAdded(N: nat, T: nat, g: Graph, h: Graph) {
    && Shape(g) && Shape(h) && |h.nodes| == T + 2 * N > 0 && |g.nodes| == T + 2 * N + 1
    && forall e :: Has(g, e) <==> Has(h, e) || e == Mask(N, T)
  }

  lemma MaskHolds(env: Env, N: nat, T: nat, w: Valuation)
    requires env.p > 0 && env.scalar(0) == 0 && |w| == T + 2 * N + 1 > 1 && 0 <= w[T + 2 * N] < env.p
    ensures Spans(Mask(N, T), w) && (Holds(env, Mask(N, T), w) <==> w[T + 2 * N] == 0)
  {
    var x := w[T + 2 * N];
    assert InputValues(Mask(N, T), w) == [w[0]];
    CongRefl(env.p, 0);
    if Cong(env.p, x, 0) { CongResidue(env.p, x, 0); }
  }

  lemma SatOneMore(env: Env, N: nat, T: nat, g: Graph, h: Graph, w: Valuation)
    requires env.p > 0 && env.scalar(0) == 0 && MaskAdded(N, T, g, h)
    ensures Sat(env, g, w) <==> |w| == |g.nodes| && w[|h.nodes|] == 0 && Sat(env, h, w[..|h.nodes|])
  {
    hide Holds;
    var k := |h.nodes|;
    if |w| == k + 1 {
      var v := w[..k];
      assert w == v + [w[k]];
      assert IsValuation(env, g, w) <==> IsValuation(env, h, v) && 0 <= w[k] < env.p;
      if IsValuation(env, g, w) {
        MaskHolds(env, N, T, w);
        forall e | Has(h, e) ensures Spans(e, w) && Spans(e, v) && (Holds(env, e, w) <==> Holds(env, e, v)) {
          HoldsExtended(env, e, v, w[k]);
        }
        assert Has(g, Mask(N, T));
      }
    }
  }

  lemma OneMoreSolutions(env: Env, N: nat, T: nat, g: Graph, h: Graph, r: Graph, s: Graph)
    requires env.p > 0 && env.scalar(0) == 0 && MaskAdded(N, T, g, h) && MaskAdded(N, T, r, s)
    ensures SameSolutions(env, g, r) <==> SameSolutions(env, h, s)
  {
    hide Sat, MaskAdded;
    OneMoreSizes(N, T, g, h);
    OneMoreSizes(N, T, r, s);
    if SameSolutions(env, g, r) {
      forall v ensures Sat(env, h, v) <==> Sat(env, s, v) {
        if |v| == |h.nodes| {
          assert (v + [0])[..|h.nodes|] == v;
          SatOneMore(env, N, T, g, h, v + [0]);
          SatOneMore(env, N, T, r, s, v + [0]);
        } else {
          SatSize(env, h, v);
          SatSize(env, s, v);
        }
      }
    }
    if SameSolutions(env, h, s) {
      forall w ensures Sat(env, g, w) <==> Sat(env, r, w) {
        SatOneMore(env, N, T, g, h, w);
        SatOneMore(env, N, T, r, s, w);
      }
    }
  }

  lemma OneMoreSizes(N: nat, T: nat, g: Graph, h: Graph)
    requires MaskAdded(N, T, g, h)
    ensures Shape(g) && Shape(h) && |g.nodes| == T + 2 * N + 1 == |h.nodes| + 1
  {
  }

  lemma SatSize(env: Env, g: Graph, v: Valuation)
    requires env.p > 0 && Shape(g)
    ensures Sat(env, g, v) ==> |v| == |g.nodes|
  {
  }

  lemma MaskedOneMore(N: nat, T: nat, corrupted: set<Party>)
    requires N > 0 && T + 2 * N < 0x7FFF_FFFF
    ensures MaskAdded(N, T, Masked(N, T, corrupted), DealtGraph(N, T, Others))
  {
    hide Has, Masked, DealtGraph;
    forall e ensures Has(Masked(N, T, corrupted), e) <==> Has(DealtGraph(N, T, Others), e) || e == Mask(N, T) {
      MaskedHas(N, T, corrupted, e);
    }
  }

  lemma ResultsOneMore(N: nat, T: nat, p: int, corrupted: set<Party>, n: NodeId, src: set<Party>, r: Graph, s: Graph)
    requires KeptRewrite(N, T, p, Others, n, src) && 0 < n && MaskFits(N, T, p)
    requires Good(Masked(N, T, corrupted)) && Good(DealtGraph(N, T, Others))
    requires SharingResult(Masked(N, T, corrupted), n, src, true, r)
    requires SharingResult(DealtGraph(N, T, Others), n, src, true, s)
    ensures MaskAdded(N, T, r, s)
  {
    hide Masked, DealtGraph, SyncAt, MovedTransits, OldEvals, NewEvals, Replaced, Prime, Everyone, Field, InCount;
    var g, h := Masked(N, T, corrupted), DealtGraph(N, T, Others);
    StandingConditions(N, T, p, Others);
    DealtElim(N, T, p, Others, n, src);
    SameReplaced(N, T, corrupted, n, src);
    var elim, add := ElimSet(h, n, src), AddSet(h, n, src, true);
    assert elim == ElimSet(g, n, src) && add == AddSet(g, n, src, true);
    forall e | e in elim ensures Has(g, e) && InCount(g, e) == 1 {
      MaskedHas(N, T, corrupted, e);
      CountMasked(N, T, corrupted, e);
    }
    ReplacedEdges(h, elim, add, s);
    ReplacedEdges(g, elim, add, r);
    MaskStays(N, T, h, elim);
    forall e ensures Has(r, e) <==> Has(s, e) || e == Mask(N, T) {
      MaskedHas(N, T, corrupted, e);
    }
  }

  lemma CountMasked(N: nat, T: nat, corrupted: set<Party>, e: Operation)
    requires N > 0 && T + 2 * N < 0x7FFF_FFFF && Has(DealtGraph(N, T, Others), e)
    ensures InRange(Masked(N, T, corrupted), e)
    ensures InCount(Masked(N, T, corrupted), e) == InCount(DealtGraph(N, T, Others), e)
  {
    MaskedLists(N, T, corrupted, e.output);
  }

  lemma MaskStays(N: nat, T: nat, h: Graph, elim: set<Operation>)
    requires Shape(h) && |h.nodes| == T + 2 * N && forall e :: e in elim ==> Has(h, e)
    ensures Mask(N, T) !in elim
  {
  }

  /**
   * The rewrite at a coefficient of the masked sharing keeps its solutions if and only if that
   * coefficient of the monic polynomial with the source parties' points as roots is nonzero.
   */
  lemma MaskedRewriteExact(N: nat, T: nat, p: int, corrupted: set<Party>, n: NodeId, src: set<Party>, r: Graph)
    requires KeptRewrite(N, T, p, Others, n, src) && 0 < n && MaskFits(N, T, p)
    requires Sync(Masked(N, T, corrupted)) && SharingResult(Masked(N, T, corrupted), n, src, true, r)
    ensures Shape(r) && |PointList(N, src)| == T
    ensures SameSolutions(Field(N, T, p), Masked(N, T, corrupted), r) <==> !Cong(p, Monic(PointList(N, src))[n], 0)
  {
    MaskedHas(N, T, corrupted, Mask(N, T));
    assert p > 0 && Field(N, T, p).p == p && Field(N, T, p).scalar(0) == 0;
    hide Has, Masked, DealtGraph, Good, SharingResult, Prime, Everyone, Field, PointList, Monic, Cong, SameSolutions;
    var s := SomeResult(N, T, p, Others, n, src);
    MaskedOneMore(N, T, corrupted);
    ResultsOneMore(N, T, p, corrupted, n, src, r, s);
    OneMoreSolutions(Field(N, T, p), N, T, Masked(N, T, corrupted), DealtGraph(N, T, Others), r, s);
    DealtRewriteExact(N, T, p, Others, n, src, s);
  }
}
