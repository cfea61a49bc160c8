// The two sharing rewrites: evaluate the shares from the secret and random coefficients,
// turned into: evaluate the coefficients and the other shares from source shares.
module Sharing {
  import opened Graphs
  import opened Counters
  import opened Semantics
  import opened Patterns

  // ----- Replacing edges by equivalent ones, in general

  /** The list holds exactly these edges, each once. */
  ghost predicate Lists(s: seq<Operation>, S: set<Operation>) {
    NoDup(s) && forall x :: x in s <==> x in S
  }

  ghost predicate AllHoldIn(env: Env, S: set<Operation>, v: Valuation)
    requires env.p > 0
  {
    forall e :: e in S ==> Spans(e, v) && Holds(env, e, v)
  }

  lemma ListHolds(env: Env, s: seq<Operation>, S: set<Operation>, v: Valuation)
    requires env.p > 0 && Lists(s, S)
    ensures AllHold(env, s, v) <==> AllHoldIn(env, S, v)
  {
    if AllHold(env, s, v) {
      forall e | e in S ensures Spans(e, v) && Holds(env, e, v) {
        assert e in s;
        var i :| 0 <= i < |s| && s[i] == e;
      }
    }
    if AllHoldIn(env, S, v) {
      forall i | 0 <= i < |s| ensures Spans(s[i], v) && Holds(env, s[i], v) {
        assert s[i] in S;
      }
    }
  }

  /** Eliminating the edges of one set and adding those of another, in any list order. */
  ghost predicate Replaced(g: Graph, elim: set<Operation>, add: set<Operation>, r: Graph)
    requires Shape(g)
  {
    exists es, fs ::
      Lists(es, elim) && Lists(fs, add) && AllInRange(g, es) && AllInRange(g, fs) && r == Rewrite(g, es, fs)
  }

  /** The old edges are present, and the new ones are well formed. */
  ghost predicate Admissible(env: Env, g: Graph, elim: set<Operation>, add: set<Operation>)
    requires Shape(g)
  {
    && (forall e :: e in elim ==> Has(g, e))
    && (forall e :: e in add ==> InRange(g, e) && WellFormed(env, g, e))
  }

  /** Moreover, they have the same solutions. */
  ghost predicate Equivalent(env: Env, g: Graph, elim: set<Operation>, add: set<Operation>)
    requires env.p > 0 && Shape(g)
  {
    && Admissible(env, g, elim, add)
    && (forall v :: IsValuation(env, g, v) ==> (AllHoldIn(env, elim, v) <==> AllHoldIn(env, add, v)))
  }

  ghost predicate SameSolutions(env: Env, g: Graph, r: Graph)
    requires env.p > 0 && Shape(g) && Shape(r)
  {
    forall v :: Sat(env, g, v) <==> Sat(env, r, v)
  }

  /** An admissible replacement keeps the invariants of a run. */
  lemma ReadyKept(env: Env, parties: set<Party>, g: Graph, elim: set<Operation>, add: set<Operation>, r: Graph)
    requires Ready(env, parties, g) && Admissible(env, g, elim, add) && Replaced(g, elim, add, r)
    ensures Ready(env, parties, r)
    ensures r.nodes == g.nodes && r.T == g.T && r.partyCnt == g.partyCnt && r.corrupted == g.corrupted
  {
    var es, fs :|
      Lists(es, elim) && Lists(fs, add) && AllInRange(g, es) && AllInRange(g, fs) && r == Rewrite(g, es, fs);
    assert AllPresent(g, es) by {
      forall i | 0 <= i < |es| ensures Has(g, es[i]) { assert es[i] in elim; }
    }
    RewriteGood(g, es, fs);
    forall e | Has(r, e) ensures WellFormed(env, r, e) {
      assert WellFormed(env, g, e) by {
        if e in fs { assert e in add; } else { assert Has(g, e); }
      }
      assert InRange(g, e);
      SameForm(env, g, r, e);
    }
  }

  /** Replacing edges by equivalent ones keeps the solutions as well. */
  lemma ReplacementKeeps(env: Env, parties: set<Party>, g: Graph, elim: set<Operation>, add: set<Operation>, r: Graph)
    requires Ready(env, parties, g) && Equivalent(env, g, elim, add) && Replaced(g, elim, add, r)
    ensures Ready(env, parties, r) && SameSolutions(env, g, r)
    ensures r.nodes == g.nodes && r.T == g.T && r.partyCnt == g.partyCnt && r.corrupted == g.corrupted
  {
    ReadyKept(env, parties, g, elim, add, r);
    var es, fs :|
      Lists(es, elim) && Lists(fs, add) && AllInRange(g, es) && AllInRange(g, fs) && r == Rewrite(g, es, fs);
    assert AllPresent(g, es) by {
      forall i | 0 <= i < |es| ensures Has(g, es[i]) { assert es[i] in elim; }
    }
    forall v ensures Sat(env, g, v) <==> Sat(env, r, v) {
      if IsValuation(env, g, v) {
        ListHolds(env, es, elim, v);
        ListHolds(env, fs, add, v);
      }
      RewriteSat(env, g, es, fs, v);
    }
  }

  lemma SameForm(env: Env, g: Graph, r: Graph, e: Operation)
    requires r.nodes == g.nodes && r.partyCnt == g.partyCnt && InRange(g, e)
    ensures WellFormed(env, g, e) <==> WellFormed(env, r, e)
  {
    assert InRange(r, e);
    assert OneParty(g, e.inputs) == OneParty(r, e.inputs);
  }

  // ----- Reversed transits and evaluations from common sources

  predicate IsTransit(t: Operation) {
    t.op.TRANSIT? && |t.inputs| == 1
  }

  function Flip(t: Operation): Operation
    requires IsTransit(t)
  {
    Operation(TRANSIT, [t.output], t.inputs[0], 0)
  }

  ghost function Flips(ts: set<Operation>): set<Operation>
    requires forall t :: t in ts ==> IsTransit(t)
  {
    set t | t in ts :: Flip(t)
  }

  lemma FlipsHold(env: Env, ts: set<Operation>, v: Valuation)
    requires env.p > 0 && forall t :: t in ts ==> IsTransit(t)
    ensures AllHoldIn(env, ts, v) <==> AllHoldIn(env, Flips(ts), v)
  {
    forall t | t in ts ensures (Spans(t, v) && Holds(env, t, v)) <==> (Spans(Flip(t), v) && Holds(env, Flip(t), v)) {
    }
    if AllHoldIn(env, Flips(ts), v) {
      forall t | t in ts ensures Spans(t, v) && Holds(env, t, v) {
        assert Flip(t) in Flips(ts);
      }
    }
  }

  ghost function Evals(srcs: seq<NodeId>, D: set<NodeId>, a: nat): set<Operation> {
    set d | d in D :: Operation(EVAL, srcs, d, a)
  }

  ghost predicate NodesIn(S: set<NodeId>, n: nat) {
    forall k :: k in S ==> k < n
  }

  lemma EvalHolds(env: Env, srcs: seq<NodeId>, d: NodeId, a: nat, v: Valuation)
    requires env.p > 0 && NodesIn(Elems(srcs) + {d}, |v|)
    ensures var e := Operation(EVAL, srcs, d, a);
            Spans(e, v) && (Holds(env, e, v) <==> OnPolynomial(env, a, Elems(srcs) + {d}, v))
  {
    assert d in Elems(srcs) + {d};
    assert forall i :: 0 <= i < |srcs| ==> srcs[i] in Elems(srcs) + {d};
  }

  /** Evaluations from common sources: one polynomial through all sources and destinations. */
  lemma EvalsHold(env: Env, srcs: seq<NodeId>, D: set<NodeId>, a: nat, v: Valuation)
    requires env.p > 0 && Fixes(env, a, Elems(srcs)) && D != {}
    requires NodesIn(Elems(srcs) + D, |v|)
    ensures AllHoldIn(env, Evals(srcs, D, a), v) <==> OnPolynomial(env, a, Elems(srcs) + D, v)
  {
    Family(env, a, Elems(srcs), D, v);
    forall d | d in D
      ensures var e := Operation(EVAL, srcs, d, a);
              Spans(e, v) && (Holds(env, e, v) <==> OnPolynomial(env, a, Elems(srcs) + {d}, v))
    {
      assert Elems(srcs) + {d} <= Elems(srcs) + D;
      EvalHolds(env, srcs, d, a, v);
    }
    if AllHoldIn(env, Evals(srcs, D, a), v) {
      forall d | d in D ensures OnPolynomial(env, a, Elems(srcs) + {d}, v) {
        assert Operation(EVAL, srcs, d, a) in Evals(srcs, D, a);
      }
    }
  }

  // ----- The rewrites

  /** The transits of source shares; the rewrite turns them around. */
  ghost function MovedTransits(g: Graph, n: NodeId, src: set<Party>): set<Operation>
    requires Sync(g) && n < |g.nodes|
  {
    set i | 0 <= i < |g.outs[n]| && MovedShare(g, g.outs[n][i].output, src) :: g.outs[g.outs[n][i].output][0]
  }

  predicate MovedShare(g: Graph, s: NodeId, src: set<Party>)
    requires Sync(g) && s < |g.nodes|
  {
    Sent(g, s) && TargetParty(g, s) in src
  }

  ghost function OldEvals(g: Graph, n: NodeId): set<Operation>
    requires Sync(g) && n < |g.nodes|
  {
    set e | e in g.outs[n]
  }

  ghost function NewEvals(g: Graph, n: NodeId, src: set<Party>, keepSecret: bool): set<Operation>
    requires Sync(g) && n < |g.nodes| && |g.outs[n]| > 0
  {
    Evals(SharingSrcs(g, n, src, keepSecret), SharingDsts(g, n, src, keepSecret), g.outs[n][0].arg)
  }

  lemma MovedTransitFacts(env: Env, parties: set<Party>, g: Graph, n: NodeId, src: set<Party>, t: Operation)
    requires Ready(env, parties, g) && n < |g.nodes| && t in MovedTransits(g, n, src)
    ensures IsTransit(t) && Has(g, t) && t.inputs[0] in Elems(Outputs(g.outs[n]))
    ensures g.outs[t.inputs[0]] == [t] && MovedShare(g, t.inputs[0], src)
  {
    var es := g.outs[n];
    var i :| 0 <= i < |es| && MovedShare(g, es[i].output, src) && t == g.outs[es[i].output][0];
    OutEdge(g, es[i].output, t);
    assert WellFormed(env, g, t);
    assert Outputs(es)[i] == es[i].output;
  }

  /** The result of a sharing rewrite at node n, up to the order of the lists. */
  ghost predicate SharingResult(g: Graph, n: NodeId, src: set<Party>, keepSecret: bool, r: Graph)
    requires Sync(g) && n < |g.nodes|
  {
    && |g.outs[n]| > 0
    && (forall t :: t in MovedTransits(g, n, src) ==> IsTransit(t))
    && Replaced(g, OldEvals(g, n) + MovedTransits(g, n, src),
                Flips(MovedTransits(g, n, src)) + NewEvals(g, n, src, keepSecret), r)
  }

  ghost predicate SharingSetting(env: Env, parties: set<Party>, g: Graph, n: NodeId, src: set<Party>,
                                 keepSecret: bool) {
    && Ready(env, parties, g) && n < |g.nodes| && SharingMatch(g, n, src)
    && src <= parties && |src| == g.T + if keepSecret then 0 else 1
  }

  lemma SharingNodesInRange(env: Env, parties: set<Party>, g: Graph, n: NodeId, src: set<Party>)
    requires Ready(env, parties, g) && n < |g.nodes| && SharingMatch(g, n, src)
    ensures NodesIn(AllInputs(g.outs[n]) + Elems(Outputs(g.outs[n])), |g.nodes|)
  {
    var es := g.outs[n];
    forall k | k in AllInputs(es) + Elems(Outputs(es)) ensures k < |g.nodes| {
      if k in AllInputs(es) {
        var i, m :| 0 <= i < |es| && m in es[i].inputs && m == k;
        assert InRange(g, es[i]);
        var j :| 0 <= j < |es[i].inputs| && es[i].inputs[j] == k;
      } else {
        var i := IndexOfOutput(es, k);
        assert InRange(g, es[i]);
      }
    }
  }

  lemma OldEvalHolds(env: Env, parties: set<Party>, g: Graph, n: NodeId, src: set<Party>, v: Valuation, i: nat)
    requires Ready(env, parties, g) && n < |g.nodes| && SharingMatch(g, n, src) && |v| == |g.nodes|
    requires i < |g.outs[n]|
    ensures var e, a := g.outs[n][i], g.outs[n][0].arg;
            && e.output in Elems(Outputs(g.outs[n])) && Spans(e, v)
            && (Holds(env, e, v) <==> OnPolynomial(env, a, AllInputs(g.outs[n]) + {e.output}, v))
  {
    hide SharingMatch, AllInputs, OnPolynomial;
    var e := g.outs[n][i];
    SharingEdges(env, parties, g, n, src);
    assert SharingEdge(env, g, n, e);
    assert InRange(g, e);
    assert Outputs(g.outs[n])[i] == e.output;
  }

  /** The old evaluations: one polynomial through the old inputs and all shares. */
  lemma OldEvalsHold(env: Env, parties: set<Party>, g: Graph, n: NodeId, src: set<Party>, v: Valuation)
    requires Ready(env, parties, g) && n < |g.nodes| && SharingMatch(g, n, src) && |v| == |g.nodes|
    requires |g.outs[n]| > 0 && Fixes(env, g.outs[n][0].arg, AllInputs(g.outs[n]))
    ensures AllHoldIn(env, OldEvals(g, n), v) <==>
            OnPolynomial(env, g.outs[n][0].arg, AllInputs(g.outs[n]) + Elems(Outputs(g.outs[n])), v)
  {
    hide SharingMatch, AllInputs, OnPolynomial, SyncAt, Coherent, Holds, Fixes, Outputs;
    var es, S, a := g.outs[n], AllInputs(g.outs[n]), g.outs[n][0].arg;
    var X := Elems(Outputs(es));
    OldEvalHolds(env, parties, g, n, src, v, 0);
    Family(env, a, S, X, v);
    if AllHoldIn(env, OldEvals(g, n), v) {
      forall d | d in X ensures OnPolynomial(env, a, S + {d}, v) {
        var i := IndexOfOutput(es, d);
        assert es[i] in OldEvals(g, n);
        OldEvalHolds(env, parties, g, n, src, v, i);
      }
    }
    if forall d :: d in X ==> OnPolynomial(env, a, S + {d}, v) {
      forall e | e in OldEvals(g, n) ensures Spans(e, v) && Holds(env, e, v) {
        var i :| 0 <= i < |es| && es[i] == e;
        OldEvalHolds(env, parties, g, n, src, v, i);
      }
    }
  }

  lemma SharingAdmissible(env: Env, parties: set<Party>, g: Graph, n: NodeId, src: set<Party>, keepSecret: bool)
    requires SharingSetting(env, parties, g, n, src, keepSecret) && |g.outs[n]| > 0
    ensures forall t :: t in MovedTransits(g, n, src) ==> IsTransit(t)
    ensures Admissible(env, g, OldEvals(g, n) + MovedTransits(g, n, src),
                       Flips(MovedTransits(g, n, src)) + NewEvals(g, n, src, keepSecret))
  {
    var ts := MovedTransits(g, n, src);
    forall t | t in ts ensures IsTransit(t) && Has(g, t) && InRange(g, Flip(t)) && WellFormed(env, g, Flip(t)) {
      MovedTransitFacts(env, parties, g, n, src, t);
    }
    forall e | e in OldEvals(g, n) ensures Has(g, e) { OutEdge(g, n, e); }
    forall e | e in NewEvals(g, n, src, keepSecret) ensures InRange(g, e) && WellFormed(env, g, e) {
      NewEvalFacts(env, parties, g, n, src, keepSecret, e);
    }
  }

  /**
   * The sharing rewrites preserve meaning: if the old inputs and the new sources each fix the
   * polynomial, the new edges have the same solutions as the old ones, and are well formed.
   */
  lemma SharingEquivalent(env: Env, parties: set<Party>, g: Graph, n: NodeId, src: set<Party>, keepSecret: bool)
    requires SharingSetting(env, parties, g, n, src, keepSecret)
    requires |g.outs[n]| > 0 && Fixes(env, g.outs[n][0].arg, AllInputs(g.outs[n]))
    requires Fixes(env, g.outs[n][0].arg, Elems(SharingSrcs(g, n, src, keepSecret)))
    ensures forall t :: t in MovedTransits(g, n, src) ==> IsTransit(t)
    ensures Equivalent(env, g, OldEvals(g, n) + MovedTransits(g, n, src),
                       Flips(MovedTransits(g, n, src)) + NewEvals(g, n, src, keepSecret))
  {
    hide SharingMatch, NewEvals, MovedTransits, OldEvals;
    var ts := MovedTransits(g, n, src);
    SharingAdmissible(env, parties, g, n, src, keepSecret);
    forall v | IsValuation(env, g, v)
      ensures AllHoldIn(env, OldEvals(g, n) + ts, v) <==> AllHoldIn(env, Flips(ts) + NewEvals(g, n, src, keepSecret), v)
    {
      FlipsHold(env, ts, v);
      OldEvalsHold(env, parties, g, n, src, v);
      NewEvalsHold(env, parties, g, n, src, keepSecret, v);
      HoldInUnion(env, OldEvals(g, n), ts, v);
      HoldInUnion(env, Flips(ts), NewEvals(g, n, src, keepSecret), v);
    }
  }

  lemma HoldInUnion(env: Env, A: set<Operation>, B: set<Operation>, v: Valuation)
    requires env.p > 0
    ensures AllHoldIn(env, A + B, v) <==> AllHoldIn(env, A, v) && AllHoldIn(env, B, v)
  {
  }

  lemma NewEvalsHold(env: Env, parties: set<Party>, g: Graph, n: NodeId, src: set<Party>, keepSecret: bool,
                     v: Valuation)
    requires SharingSetting(env, parties, g, n, src, keepSecret) && |v| == |g.nodes|
    requires |g.outs[n]| > 0 && Fixes(env, g.outs[n][0].arg, Elems(SharingSrcs(g, n, src, keepSecret)))
    ensures AllHoldIn(env, NewEvals(g, n, src, keepSecret), v) <==>
            OnPolynomial(env, g.outs[n][0].arg, AllInputs(g.outs[n]) + Elems(Outputs(g.outs[n])), v)
  {
    var srcs, dsts := SharingSrcs(g, n, src, keepSecret), SharingDsts(g, n, src, keepSecret);
    SharingSizes(env, parties, g, n, src, keepSecret);
    SharingNodesInRange(env, parties, g, n, src);
    MatchSize(env, parties, g, n, src);
    EvalsHold(env, srcs, dsts, g.outs[n][0].arg, v);
  }

  lemma NewEvalFacts(env: Env, parties: set<Party>, g: Graph, n: NodeId, src: set<Party>, keepSecret: bool,
                     e: Operation)
    requires SharingSetting(env, parties, g, n, src, keepSecret) && |g.outs[n]| > 0
    requires e in NewEvals(g, n, src, keepSecret)
    ensures InRange(g, e) && WellFormed(env, g, e)
  {
    var srcs, dsts := SharingSrcs(g, n, src, keepSecret), SharingDsts(g, n, src, keepSecret);
    SharingSizes(env, parties, g, n, src, keepSecret);
    SharingNodesInRange(env, parties, g, n, src);
    SharingEdges(env, parties, g, n, src);
    NewEvalForm(env, g, srcs, dsts, g.outs[n][0].arg, AllInputs(g.outs[n]) + Elems(Outputs(g.outs[n])), e);
  }

  lemma NewEvalForm(env: Env, g: Graph, srcs: seq<NodeId>, D: set<NodeId>, a: nat, U: set<NodeId>, e: Operation)
    requires e in Evals(srcs, D, a) && Elems(srcs) !! D && Elems(srcs) + D == U
    requires NoDup(srcs) && |srcs| >= env.T + 1 && InSharing(env, a, U) && NodesIn(U, |g.nodes|)
    ensures InRange(g, e) && WellFormed(env, g, e)
  {
    var d :| d in D && e == Operation(EVAL, srcs, d, a);
    assert d in U;
    assert forall i :: 0 <= i < |srcs| ==> srcs[i] in U;
    assert Inputs(e) + {e.output} <= U;
  }

  // ----- Results of replacements exist

  ghost function ListedEdges(S: set<Operation>): (es: seq<Operation>)
    ensures Lists(es, S)
  {
    if S == {} then []
    else
      var x :| x in S;
      ListedEdges(S - {x}) + [x]
  }

  lemma ReplacedExists(g: Graph, elim: set<Operation>, add: set<Operation>) returns (r: Graph)
    requires Shape(g) && (forall e :: e in elim ==> InRange(g, e)) && forall e :: e in add ==> InRange(g, e)
    ensures Replaced(g, elim, add, r)
  {
    var es, fs := ListedEdges(elim), ListedEdges(add);
    forall i | 0 <= i < |es| ensures InRange(g, es[i]) { assert es[i] in elim; }
    forall i | 0 <= i < |fs| ensures InRange(g, fs[i]) { assert fs[i] in add; }
    r := Rewrite(g, es, fs);
  }
}
