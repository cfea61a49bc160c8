// The sharing rewrite on the graphs a dealer makes: it keeps the solutions of the whole graph
// exactly when the new sources determine the polynomial, which is a condition on the points.
module DealtRewrites {
  import opened Arith
  import opened Polynomials
  import opened Graphs
  import opened Counters
  import opened Semantics
  import opened Patterns
  import opened Sharing
  import opened SharingCounts
  import opened SharingMeaning
  import opened Rewriting
  import opened Dealing

  // ----- Eliminated edges are gone

  lemma WithoutEdgeCount(g: Graph, e: Operation, x: Operation)
    requires Shape(g) && Has(g, e) && InRange(g, x)
    ensures InCount(WithoutEdge(g, e), x) == InCount(g, x) - if x == e then 1 else 0
  {
    RemoveFirstCount(g.ins[e.output], e);
  }

  lemma {:induction false} WithoutEdgesCount(g: Graph, es: seq<Operation>, x: Operation)
    requires Good(g) && AllPresent(g, es) && InRange(g, x)
    ensures InCount(WithoutEdges(g, es), x) == InCount(g, x) - if x in es then 1 else 0
  {
    hide SyncAt, InCount, Counted, WithoutEdge;
    if es != [] {
      var front, e := es[..|es|-1], es[|es|-1];
      WithoutEdgesGood(g, front);
      WithoutEdgesCount(g, front, x);
      var m := WithoutEdges(g, front);
      assert Has(m, e) by { assert Has(g, e) && e !in front; }
      WithoutEdgeCount(m, e, x);
      assert es == front + [e];
    }
  }

  lemma ReplacedGone(g: Graph, elim: set<Operation>, add: set<Operation>, r: Graph, x: Operation)
    requires Good(g) && (forall e :: e in elim ==> Has(g, e)) && Replaced(g, elim, add, r)
    requires InRange(g, x) && x in elim && x !in add && InCount(g, x) == 1
    ensures Shape(r) && !Has(r, x)
  {
    var es, fs :|
      Lists(es, elim) && Lists(fs, add) && AllInRange(g, es) && AllInRange(g, fs) && r == Rewrite(g, es, fs);
    assert AllPresent(g, es) by {
      forall i | 0 <= i < |es| ensures Has(g, es[i]) { assert es[i] in elim; }
    }
    WithoutEdgesGood(g, es);
    WithoutEdgesCount(g, es, x);
    var m := WithoutEdges(g, es);
    assert AllInRange(m, fs) by {
      forall i | 0 <= i < |fs| ensures InRange(m, fs[i]) { assert InRange(g, fs[i]); }
    }
    WithEdgesGood(m, fs);
  }

  /** The edges of the rewritten graph: the new ones, and old ones that were not eliminated. */
  lemma ReplacedEdges(g: Graph, elim: set<Operation>, add: set<Operation>, r: Graph)
    requires Good(g) && (forall e :: e in elim ==> Has(g, e)) && Replaced(g, elim, add, r)
    requires forall e :: e in elim && e !in add ==> InCount(g, e) == 1
    ensures Shape(r) && r.nodes == g.nodes
    ensures forall x :: Has(r, x) <==> x in add || (Has(g, x) && x !in elim)
  {
    var es, fs :|
      Lists(es, elim) && Lists(fs, add) && AllInRange(g, es) && AllInRange(g, fs) && r == Rewrite(g, es, fs);
    assert AllPresent(g, es) by {
      forall i | 0 <= i < |es| ensures Has(g, es[i]) { assert es[i] in elim; }
    }
    RewriteGood(g, es, fs);
    forall x ensures Has(r, x) <==> x in add || (Has(g, x) && x !in elim) {
      assert x in elim <==> x in es;
      assert x in add <==> x in fs;
      if x in elim && x !in add && Has(g, x) { ReplacedGone(g, elim, add, r, x); }
    }
  }

  // ----- A valuation that tells the graphs apart

  /** A coefficient node of a dealt sharing, kept as a source beside the shares of T parties. */
  ghost predicate KeptRewrite(N: nat, T: nat, p: int, secret: Genre, n: NodeId, src: set<Party>) {
    && Prime(p) && FieldFits(N, T, p) && n <= T && (n == 0 || secret == Others)
    && src <= Everyone(N) && |src| == T
  }

  /** Zero everywhere except at one share and where that share is sent. */
  ghost function Twin(N: nat, T: nat, p: int, o: NodeId, K: seq<int>): (v: Valuation)
    requires p > 0 && T < o <= T + N
    ensures |v| == T + 2 * N
  {
    seq(T + 2 * N, m requires 0 <= m < T + 2 * N =>
      if m == o || (o > T + 1 && m == o + N - 1) then Apply(At(o - T), K) % p else 0)
  }

  /** An edge about one polynomial looks at the values of its own nodes only. */
  lemma HoldsAlike(env: Env, e: Operation, v: Valuation, w: Valuation)
    requires env.p > 0 && e.op.EVAL? && |v| == |w| && Spans(e, v)
    requires forall m :: m in Inputs(e) + {e.output} ==> m < |v| && v[m] == w[m]
    requires Holds(env, e, v)
    ensures Spans(e, w) && Holds(env, e, w)
  {
    var ns := Inputs(e) + {e.output};
    var P: seq<int> :| |P| == env.T + 1 && Fits(env, e.arg, ns, v, P);
    assert Fits(env, e.arg, ns, w, P);
  }

  lemma OnlyCount(N: nat, T: nat, secret: Genre, e: Operation)
    requires N > 0 && T + 2 * N < 0x8000_0000 && Has(DealtGraph(N, T, secret), e)
    ensures InCount(DealtGraph(N, T, secret), e) == 1
  {
    EdgeOf(N, T, secret, e);
    InList(N, T, secret, e.output);
    assert DealtGraph(N, T, secret).ins[e.output] == [e];
  }

  lemma TwinTransit(N: nat, T: nat, p: int, o: NodeId, K: seq<int>, s: NodeId)
    requires p > 0 && T < o <= T + N && T + 1 < s <= T + N
    ensures Spans(Sending(s, s + N - 1), Twin(N, T, p, o, K))
    ensures Holds(Field(N, T, p), Sending(s, s + N - 1), Twin(N, T, p, o, K))
  {
  }

  /** The twin agrees with a single nonzero share on the nodes of the sharing. */
  lemma TwinAlike(N: nat, T: nat, p: int, secret: Genre, o: NodeId, K: seq<int>)
    requires N > 0 && p > 0 && T < o <= T + N
    ensures |Spike(Field(N, T, p), DealtGraph(N, T, secret), 0, o, K)| == |Twin(N, T, p, o, K)|
    ensures forall m: NodeId :: m <= T + N ==>
      Spike(Field(N, T, p), DealtGraph(N, T, secret), 0, o, K)[m] == Twin(N, T, p, o, K)[m]
  {
  }

  /** The nodes of the sharing, old and new edges alike. */
  lemma SharingNodes(N: nat, T: nat, p: int, secret: Genre, n: NodeId, src: set<Party>, m: NodeId)
    requires KeptRewrite(N, T, p, secret, n, src)
    ensures DealtSetting(Field(N, T, p), Everyone(N), DealtGraph(N, T, secret), n, src, true)
    ensures var g := DealtGraph(N, T, secret);
      m in Elems(SharingSrcs(g, n, src, true)) + SharingDsts(g, n, src, true) ==> m <= T + N
  {
    hide SharingMatch, SyncAt, WfEnv, WellFormed, Dealt, SharingSrcs, SharingDsts, Field, Prime, AllInputs;
    var g := DealtGraph(N, T, secret);
    DealtSettingHolds(N, T, p, secret, n, src, true);
    SharingSizes(Field(N, T, p), Everyone(N), g, n, src, true);
    InputsHeld(N, T, secret, n);
    OutList(N, T, secret, n);
    if m in Elems(Outputs(g.outs[n])) { var i := IndexOfOutput(g.outs[n], m); }
  }

  lemma NewEdgeNodes(N: nat, T: nat, p: int, secret: Genre, n: NodeId, src: set<Party>, e: Operation)
    requires KeptRewrite(N, T, p, secret, n, src) && Sync(DealtGraph(N, T, secret))
    requires |DealtGraph(N, T, secret).outs[n]| > 0
    requires e in NewEvals(DealtGraph(N, T, secret), n, src, true)
    ensures e.op.EVAL? && forall m :: m in Inputs(e) + {e.output} ==> m <= T + N
  {
    hide Sync, SharingSrcs, SharingDsts, DealtGraph, Field, Prime;
    forall m | m in Inputs(e) + {e.output} ensures m <= T + N { SharingNodes(N, T, p, secret, n, src, m); }
  }

  lemma TwinNew(N: nat, T: nat, p: int, secret: Genre, n: NodeId, src: set<Party>, K: seq<int>, o: NodeId)
    requires KeptRewrite(N, T, p, secret, n, src) && T < o <= T + N && |K| == T + 1
    requires DealtSetting(Field(N, T, p), Everyone(N), DealtGraph(N, T, secret), n, src, true)
    requires PolyOf(DealtGraph(N, T, secret), n) == 0 && o in Field(N, T, p).roles[0]
    requires InSharing(Field(N, T, p), 0, Elems(SharingSrcs(DealtGraph(N, T, secret), n, src, true)))
    requires Kills(p, RolesOf(Field(N, T, p), 0, Elems(SharingSrcs(DealtGraph(N, T, secret), n, src, true))), K)
    requires o in OtherShares(DealtGraph(N, T, secret), n, src)
    ensures AllHoldIn(Field(N, T, p), NewEvals(DealtGraph(N, T, secret), n, src, true), Twin(N, T, p, o, K))
  {
    hide SharingMatch, SyncAt, WfEnv, WellFormed, Dealt, SharingSrcs, Prime, Kills, Spike, Twin, Holds, OtherShares;
    hide NewEvals, DealtGraph, RolesOf, OnPolynomial;
    var env, g := Field(N, T, p), DealtGraph(N, T, secret);
    SpikeNew(env, Everyone(N), g, n, src, true, K, o);
    forall e | e in NewEvals(g, n, src, true)
      ensures Spans(e, Twin(N, T, p, o, K)) && Holds(env, e, Twin(N, T, p, o, K))
    {
      TwinNewEdge(N, T, p, secret, n, src, K, o, e);
    }
  }

  lemma TwinNewEdge(N: nat, T: nat, p: int, secret: Genre, n: NodeId, src: set<Party>, K: seq<int>, o: NodeId,
                    e: Operation)
    requires KeptRewrite(N, T, p, secret, n, src) && T < o <= T + N && |K| == T + 1
    requires Sync(DealtGraph(N, T, secret)) && |DealtGraph(N, T, secret).outs[n]| > 0
    requires e in NewEvals(DealtGraph(N, T, secret), n, src, true)
    requires var w := Spike(Field(N, T, p), DealtGraph(N, T, secret), 0, o, K);
      Spans(e, w) && Holds(Field(N, T, p), e, w)
    ensures Spans(e, Twin(N, T, p, o, K)) && Holds(Field(N, T, p), e, Twin(N, T, p, o, K))
  {
    hide Sync, Spike, Twin, Holds, NewEvals, DealtGraph, Prime, Everyone;
    NewEdgeNodes(N, T, p, secret, n, src, e);
    TwinAlike(N, T, p, secret, o, K);
    HoldsAlike(Field(N, T, p), e, Spike(Field(N, T, p), DealtGraph(N, T, secret), 0, o, K), Twin(N, T, p, o, K));
  }

  lemma MovedSending(N: nat, T: nat, p: int, secret: Genre, n: NodeId, src: set<Party>, t: Operation)
    requires FieldFits(N, T, p) && Ready(Field(N, T, p), Everyone(N), DealtGraph(N, T, secret)) && n <= T
    requires t in MovedTransits(DealtGraph(N, T, secret), n, src)
    ensures IsTransit(t) && Has(DealtGraph(N, T, secret), t)
    ensures T + N < t.output < T + 2 * N && t == Sending(t.output - N + 1, t.output)
  {
    hide SyncAt, WfEnv, WellFormed, MovedTransits;
    MovedTransitFacts(Field(N, T, p), Everyone(N), DealtGraph(N, T, secret), n, src, t);
    EdgeOf(N, T, secret, t);
  }

  /** Every transit of the dealt graph holds, so do the reversed ones. */
  lemma TwinTransits(N: nat, T: nat, p: int, secret: Genre, n: NodeId, src: set<Party>, K: seq<int>, o: NodeId)
    requires KeptRewrite(N, T, p, secret, n, src) && T < o <= T + N
    requires Ready(Field(N, T, p), Everyone(N), DealtGraph(N, T, secret))
    ensures forall t :: t in MovedTransits(DealtGraph(N, T, secret), n, src) ==> IsTransit(t)
    ensures AllHoldIn(Field(N, T, p), Flips(MovedTransits(DealtGraph(N, T, secret), n, src)), Twin(N, T, p, o, K))
  {
    hide SyncAt, WfEnv, WellFormed, Prime, Twin, Holds, MovedTransits, Field, Spans, DealtGraph, IsTransit;
    FieldThreshold(N, T, p);
    var ts := MovedTransits(DealtGraph(N, T, secret), n, src);
    forall t | t in ts
      ensures IsTransit(t) && Spans(t, Twin(N, T, p, o, K)) && Holds(Field(N, T, p), t, Twin(N, T, p, o, K))
    {
      MovedSending(N, T, p, secret, n, src, t);
      TwinTransit(N, T, p, o, K, t.output - N + 1);
    }
    FlipsHold(Field(N, T, p), ts, Twin(N, T, p, o, K));
  }

  /** What is left of the dealt graph when the evaluations are gone: transits. */
  lemma LeftOver(N: nat, T: nat, secret: Genre, n: NodeId, e: Operation)
    requires N > 0 && T + 2 * N < 0x8000_0000 && n <= T && Sync(DealtGraph(N, T, secret))
    requires Has(DealtGraph(N, T, secret), e) && e !in OldEvals(DealtGraph(N, T, secret), n)
    ensures T + N < e.output < T + 2 * N && e == Sending(e.output - N + 1, e.output)
  {
    hide Sync;
    EdgeOf(N, T, secret, e);
    OutList(N, T, secret, n);
    assert forall s: nat :: T < s <= T + N ==> Shares(N, T)[s - T - 1] == Share(T, s);
  }

  lemma DealtElim(N: nat, T: nat, p: int, secret: Genre, n: NodeId, src: set<Party>)
    requires KeptRewrite(N, T, p, secret, n, src) && Ready(Field(N, T, p), Everyone(N), DealtGraph(N, T, secret))
    ensures forall e :: e in ElimSet(DealtGraph(N, T, secret), n, src) ==>
      Has(DealtGraph(N, T, secret), e) && InCount(DealtGraph(N, T, secret), e) == 1
  {
    hide SyncAt, WfEnv, WellFormed, Prime, MovedTransits, Field, InCount;
    var g := DealtGraph(N, T, secret);
    forall e | e in ElimSet(g, n, src) ensures Has(g, e) && InCount(g, e) == 1 {
      if e in OldEvals(g, n) { OutEdge(g, n, e); } else { MovedSending(N, T, p, secret, n, src, e); }
      OnlyCount(N, T, secret, e);
    }
  }

  lemma ResultEdges(N: nat, T: nat, p: int, secret: Genre, n: NodeId, src: set<Party>, r: Graph)
    requires KeptRewrite(N, T, p, secret, n, src)
    requires Ready(Field(N, T, p), Everyone(N), DealtGraph(N, T, secret))
    requires SharingResult(DealtGraph(N, T, secret), n, src, true, r)
    ensures var g := DealtGraph(N, T, secret);
      Shape(r) && r.nodes == g.nodes && forall e :: Has(r, e) ==>
        || e in Flips(MovedTransits(g, n, src)) || e in NewEvals(g, n, src, true)
        || (T + N < e.output < T + 2 * N && e == Sending(e.output - N + 1, e.output))
  {
    hide SyncAt, WfEnv, WellFormed, Prime, MovedTransits, NewEvals, OldEvals, Replaced, Field, InCount, DealtGraph;
    var g := DealtGraph(N, T, secret);
    DealtElim(N, T, p, secret, n, src);
    ReplacedEdges(g, ElimSet(g, n, src), AddSet(g, n, src, true), r);
    forall e | Has(r, e) && e !in AddSet(g, n, src, true)
      ensures T + N < e.output < T + 2 * N && e == Sending(e.output - N + 1, e.output)
    {
      LeftOver(N, T, secret, n, e);
    }
  }

  lemma TwinSat(N: nat, T: nat, p: int, secret: Genre, n: NodeId, src: set<Party>, K: seq<int>, o: NodeId, r: Graph)
    requires KeptRewrite(N, T, p, secret, n, src) && T < o <= T + N
    requires Ready(Field(N, T, p), Everyone(N), DealtGraph(N, T, secret))
    requires SharingResult(DealtGraph(N, T, secret), n, src, true, r)
    requires AllHoldIn(Field(N, T, p), NewEvals(DealtGraph(N, T, secret), n, src, true), Twin(N, T, p, o, K))
    ensures Shape(r) && Sat(Field(N, T, p), r, Twin(N, T, p, o, K))
  {
    hide SyncAt, Ready, Prime, MovedTransits, NewEvals, OldEvals, Holds, Spans, SharingResult, Field, DealtGraph;
    hide Everyone;
    FieldThreshold(N, T, p);
    TwinTransits(N, T, p, secret, n, src, K, o);
    ResultEdges(N, T, p, secret, n, src, r);
    var env, v := Field(N, T, p), Twin(N, T, p, o, K);
    forall e | Has(r, e) ensures Spans(e, v) && Holds(env, e, v) {
      if T + N < e.output < T + 2 * N && e == Sending(e.output - N + 1, e.output) {
        TwinTransit(N, T, p, o, K, e.output - N + 1);
      }
    }
  }

  lemma OldEdge(N: nat, T: nat, secret: Genre, n: NodeId, e: Operation)
    requires N > 0 && T + 2 * N < 0x8000_0000 && n <= T && Sync(DealtGraph(N, T, secret))
    requires e in OldEvals(DealtGraph(N, T, secret), n)
    ensures Has(DealtGraph(N, T, secret), e) && e.op.EVAL? && T < e.output <= T + N && e == Share(T, e.output)
    ensures forall m :: m in Inputs(e) + {e.output} ==> m <= T + N
  {
    hide Sync;
    OutList(N, T, secret, n);
    var i :| 0 <= i < N && Shares(N, T)[i] == e;
    EdgeOf(N, T, secret, e);
  }

  lemma TwinUnsat(N: nat, T: nat, p: int, secret: Genre, n: NodeId, src: set<Party>, K: seq<int>, o: NodeId)
    requires KeptRewrite(N, T, p, secret, n, src) && T < o <= T + N && |K| == T + 1
    requires DealtSetting(Field(N, T, p), Everyone(N), DealtGraph(N, T, secret), n, src, true)
    requires PolyOf(DealtGraph(N, T, secret), n) == 0 && o in Field(N, T, p).roles[0]
    requires o in Outputs(DealtGraph(N, T, secret).outs[n])
    requires !Cong(p, Apply(Field(N, T, p).roles[0][o], K), 0)
    ensures !Sat(Field(N, T, p), DealtGraph(N, T, secret), Twin(N, T, p, o, K))
  {
    hide SharingMatch, SyncAt, WfEnv, WellFormed, Dealt, Prime, Spike, Twin, Holds, Cong, OldEvals, DealtGraph;
    hide OnPolynomial;
    var env, g, v := Field(N, T, p), DealtGraph(N, T, secret), Twin(N, T, p, o, K);
    SpikeOld(env, Everyone(N), g, n, src, true, K, o);
    var w := Spike(env, g, 0, o, K);
    if Sat(env, g, v) {
      forall e | e in OldEvals(g, n) ensures Spans(e, w) && Holds(env, e, w) {
        TwinOld(N, T, p, secret, n, K, o, e);
      }
    }
  }

  lemma TwinOld(N: nat, T: nat, p: int, secret: Genre, n: NodeId, K: seq<int>, o: NodeId, e: Operation)
    requires N > 0 && T + 2 * N < 0x8000_0000 && n <= T && p > 0 && T < o <= T + N && |K| == T + 1
    requires Sync(DealtGraph(N, T, secret)) && e in OldEvals(DealtGraph(N, T, secret), n)
    requires Sat(Field(N, T, p), DealtGraph(N, T, secret), Twin(N, T, p, o, K))
    ensures var w := Spike(Field(N, T, p), DealtGraph(N, T, secret), 0, o, K);
      Spans(e, w) && Holds(Field(N, T, p), e, w)
  {
    hide Sync, Spike, Twin, Holds, OldEvals, DealtGraph;
    OldEdge(N, T, secret, n, e);
    TwinAlike(N, T, p, secret, o, K);
    HoldsAlike(Field(N, T, p), e, Twin(N, T, p, o, K), Spike(Field(N, T, p), DealtGraph(N, T, secret), 0, o, K));
  }

  /** The rewrite has results. */
  lemma SomeResult(N: nat, T: nat, p: int, secret: Genre, n: NodeId, src: set<Party>) returns (r: Graph)
    requires KeptRewrite(N, T, p, secret, n, src)
    ensures SharingResult(DealtGraph(N, T, secret), n, src, true, r)
  {
    hide SharingMatch, SyncAt, WfEnv, WellFormed, MovedTransits, OldEvals, NewEvals, Replaced, Everyone, DealtGraph;
    hide Dealt;
    var g := DealtGraph(N, T, secret);
    DealtSettingHolds(N, T, p, secret, n, src, true);
    SharingAdmissible(Field(N, T, p), Everyone(N), g, n, src, true);
    r := ReplacedExists(g, ElimSet(g, n, src), AddSet(g, n, src, true));
  }

  // ----- The exact condition

  /** The points of the parties of src, in the order of the parties. */
  function PointList(N: nat, src: set<Party>): seq<int> {
    if N == 0 then []
    else PointList(N - 1, src) + if N - 1 in src then [N] else []
  }

  lemma {:induction false} PickedPoints(T: nat, src: set<Party>, k: nat)
    ensures var picked := Pick(seq(k, i => T + 1 + i), seq(k, i => i), src);
            && |picked| == |PointList(k, src)|
            && forall i :: 0 <= i < |picked| ==> T < picked[i] <= T + k && picked[i] - T == PointList(k, src)[i]
  {
    var xs, ps := seq(k, i => T + 1 + i), seq(k, i => i);
    if k > 0 {
      assert xs[..k - 1] == seq(k - 1, i => T + 1 + i) && ps[..k - 1] == seq(k - 1, i => i);
      PickedPoints(T, src, k - 1);
    }
  }

  lemma DealtSources(N: nat, T: nat, secret: Genre, n: NodeId, src: set<Party>)
    requires N > 0 && n <= T && T + 2 * N < 0x8000_0000
    ensures var shares := SourceShares(DealtGraph(N, T, secret), n, src);
            && |shares| == |PointList(N, src)|
            && forall i :: 0 <= i < |shares| ==> T < shares[i] <= T + N && shares[i] - T == PointList(N, src)[i]
  {
    hide Sync, Good;
    var g := DealtGraph(N, T, secret);
    assert Sync(g) by { assert Good(g); GoodSync(g); }
    OutList(N, T, secret, n);
    forall i | 0 <= i < N ensures TargetParty(g, g.outs[n][i].output) == i { ShareTarget(N, T, secret, T + 1 + i); }
    assert Outputs(g.outs[n]) == seq(N, i => T + 1 + i);
    assert TargetParties(g, g.outs[n]) == seq(N, i => i);
    PickedPoints(T, src, N);
  }

  lemma GoodSync(g: Graph)
    requires Good(g)
    ensures Sync(g)
  {
  }

  lemma DealtPoints(N: nat, T: nat, p: int, secret: Genre, n: NodeId, src: set<Party>)
    requires KeptRewrite(N, T, p, secret, n, src)
    ensures DealtSetting(Field(N, T, p), Everyone(N), DealtGraph(N, T, secret), n, src, true)
    ensures SourcePoints(Field(N, T, p), Everyone(N), DealtGraph(N, T, secret), n, src, true) == PointList(N, src)
    ensures PolyOf(DealtGraph(N, T, secret), n) == 0
  {
    hide SharingMatch, SyncAt, WfEnv, WellFormed, Dealt, Prime, SourceShares, SharePoints, PointList;
    var env, g := Field(N, T, p), DealtGraph(N, T, secret);
    DealtSettingHolds(N, T, p, secret, n, src, true);
    DealtSources(N, T, secret, n, src);
    OutList(N, T, secret, n);
    SourceSharesDealt(env, Everyone(N), g, n, src, true);
    var shares := SourceShares(g, n, src);
    forall i | 0 <= i < |shares| ensures SharePoints(env, 0, shares)[i] == PointList(N, src)[i] {
      PointAt(env, 0, shares, i);
    }
  }

  /** Where the sources leave a polynomial open, the rewritten graph has more solutions. */
  lemma OpenDiffers(N: nat, T: nat, p: int, secret: Genre, n: NodeId, src: set<Party>, r: Graph)
    requires KeptRewrite(N, T, p, secret, n, src) && SharingResult(DealtGraph(N, T, secret), n, src, true, r)
    requires !Fixes(Field(N, T, p), 0, Elems(SharingSrcs(DealtGraph(N, T, secret), n, src, true)))
    ensures Shape(r) && !SameSolutions(Field(N, T, p), DealtGraph(N, T, secret), r)
  {
    hide SharingMatch, SyncAt, WfEnv, WellFormed, Dealt, Prime, SharingSrcs, SharingResult, Fixes, Kills, Vanishes;
    hide Apply, Cong;
    var env, g := Field(N, T, p), DealtGraph(N, T, secret);
    DealtPoints(N, T, p, secret, n, src);
    SourcesInSharing(env, Everyone(N), g, n, src, true);
    var K := Undetermined(env, 0, Elems(SharingSrcs(g, n, src, true)));
    var o := NonzeroShare(env, Everyone(N), g, n, src, true, K);
    OutList(N, T, secret, n);
    var i := IndexOfOutput(g.outs[n], o);
    TwinNew(N, T, p, secret, n, src, K, o);
    TwinSat(N, T, p, secret, n, src, K, o, r);
    TwinUnsat(N, T, p, secret, n, src, K, o);
  }

  /**
   * The sharing rewrite at the node of coefficient n of a dealt sharing, for every number of
   * parties and every threshold: the whole graph keeps its solutions if and only if the n-th
   * coefficient of the monic polynomial with the source parties' points as roots is nonzero.
   */
  lemma DealtRewriteExact(N: nat, T: nat, p: int, secret: Genre, n: NodeId, src: set<Party>, r: Graph)
    requires KeptRewrite(N, T, p, secret, n, src) && SharingResult(DealtGraph(N, T, secret), n, src, true, r)
    ensures Shape(r) && |PointList(N, src)| == T
    ensures SameSolutions(Field(N, T, p), DealtGraph(N, T, secret), r) <==> !Cong(p, Monic(PointList(N, src))[n], 0)
  {
    hide SharingMatch, SyncAt, WfEnv, WellFormed, Dealt, Prime, SharingSrcs, SharingResult, Fixes, Cong, Monic;
    hide PointList, SameSolutions;
    var env, g := Field(N, T, p), DealtGraph(N, T, secret);
    DealtPoints(N, T, p, secret, n, src);
    SourceSharesDealt(env, Everyone(N), g, n, src, true);
    DealtFixes(env, Everyone(N), g, n, src, true);
    if Fixes(env, 0, Elems(SharingSrcs(g, n, src, true))) {
      SharingKeeps(env, Everyone(N), g, n, src, true, r);
    } else {
      OpenDiffers(N, T, p, secret, n, src, r);
    }
  }
}
