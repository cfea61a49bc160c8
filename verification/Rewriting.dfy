// One step of the rewriting loop, by any of the five rewriters: it keeps the meaning of the
// graph and everything the loop relies on.
module Rewriting {
  import opened Arith
  import opened Polynomials
  import opened Graphs
  import opened Counters
  import opened Semantics
  import opened Patterns
  import opened Sharing
  import opened SharingMeaning
  import opened Reconstruction
  import opened Transformers
  import opened SharingTransformers
  import opened ReconstructionTransformer

  /** The source parties: T of them, and one more. */
  datatype Sources = Sources(some: set<Party>, more: set<Party>)

  ghost predicate GoodSources(parties: set<Party>, T: nat, src: Sources) {
    src.some <= parties && src.more <= parties && |src.some| == T && |src.more| == T + 1
  }

  /** r is a candidate some rewriter offers at node n. */
  ghost predicate Offered(g: Graph, src: Sources, n: NodeId, r: Graph)
    requires Sync(g)
  {
    n < |g.nodes| &&
    (|| AdditionResult(g, n, r)
     || SharingCandidate(g, src.some, true, Candidate(n, r))
     || SharingCandidate(g, src.more, false, Candidate(n, r))
     || ReconCandidate(g, src.some, Candidate(n, r))
     || ReconCandidate(g, src.more, Candidate(n, r)))
  }

  ghost predicate RewriteStep(g: Graph, src: Sources, r: Graph)
    requires Sync(g)
  {
    r.randomCnt == g.randomCnt && exists n :: Offered(g, src, n, r)
  }

  lemma SharingKeeps(env: Env, parties: set<Party>, g: Graph, n: NodeId, src: set<Party>, keep: bool, r: Graph)
    requires SharingSetting(env, parties, g, n, src, keep) && SharingResult(g, n, src, keep, r)
    requires Fixes(env, PolyOf(g, n), AllInputs(g.outs[n]))
    requires Fixes(env, PolyOf(g, n), Elems(SharingSrcs(g, n, src, keep)))
    ensures Ready(env, parties, r) && SameSolutions(env, g, r)
    ensures r.nodes == g.nodes && r.T == g.T && r.partyCnt == g.partyCnt && r.corrupted == g.corrupted
  {
    hide SharingMatch, SyncAt, AllInputs, SharingSrcs, Equivalent, Replaced;
    SharingEquivalent(env, parties, g, n, src, keep);
    ReplacementKeeps(env, parties, g, OldEvals(g, n) + MovedTransits(g, n, src),
                     Flips(MovedTransits(g, n, src)) + NewEvals(g, n, src, keep), r);
  }

  /**
   * A sharing rewrite of a dealt sharing preserves meaning, for any points at all: always
   * without the secret among the sources, and at the secret itself when it is kept.
   */
  lemma DealtSharingKeeps(env: Env, parties: set<Party>, g: Graph, n: NodeId, src: set<Party>, keep: bool, r: Graph)
    requires DealtSetting(env, parties, g, n, src, keep) && SharingResult(g, n, src, keep, r)
    requires n in env.roles[PolyOf(g, n)] && (keep ==> env.roles[PolyOf(g, n)][n] == Coef(0))
    ensures Ready(env, parties, r) && SameSolutions(env, g, r)
  {
    hide SharingMatch, SyncAt, AllInputs, SharingSrcs, Monic;
    DealtFixes(env, parties, g, n, src, keep);
    SharingKeeps(env, parties, g, n, src, keep, r);
  }

  lemma ReconKeeps(env: Env, parties: set<Party>, g: Graph, n: NodeId, src: set<Party>, r: Graph)
    requires ReconSetting(env, parties, g, n, src) && ReconResult(g, n, src, r)
    requires Fixes(env, g.ins[n][0].arg, Elems([n] + KeptShares(g, n, src)))
    ensures Ready(env, parties, r) && SameSolutions(env, g, r)
    ensures r.nodes == g.nodes && r.T == g.T && r.partyCnt == g.partyCnt && r.corrupted == g.corrupted
  {
    hide SyncAt, KeptShares, DstShares, Equivalent, Replaced, Fixes;
    ReconEquivalent(env, parties, g, n, src);
    ReplacementKeeps(env, parties, g, ReconElim(g, n, src), ReconAdd(g, n, src), r);
  }

  /** A reconstruction of values at points of nonzero parties and at 0 needs no general position. */
  lemma DealtReconKeeps(env: Env, parties: set<Party>, g: Graph, n: NodeId, src: set<Party>, r: Graph)
    requires ReconSetting(env, parties, g, n, src) && ReconResult(g, n, src, r)
    requires var a := g.ins[n][0].arg; a in env.roles && n in env.roles[a] && env.roles[a][n] == Coef(0)
    requires forall s :: s in g.ins[n][0].inputs ==>
      s in env.roles[g.ins[n][0].arg] && env.roles[g.ins[n][0].arg][s].At?
    ensures Ready(env, parties, r) && SameSolutions(env, g, r)
  {
    hide SyncAt, Fixes;
    DealtReconFixes(env, parties, g, n, src);
    ReconKeeps(env, parties, g, n, src, r);
  }

  /** The secret and T or more shares at distinct points fix the polynomial. */
  lemma DealtReconFixes(env: Env, parties: set<Party>, g: Graph, n: NodeId, src: set<Party>)
    requires ReconSetting(env, parties, g, n, src)
    requires var a := g.ins[n][0].arg; a in env.roles && n in env.roles[a] && env.roles[a][n] == Coef(0)
    requires forall s :: s in g.ins[n][0].inputs ==>
      s in env.roles[g.ins[n][0].arg] && env.roles[g.ins[n][0].arg][s].At?
    ensures Fixes(env, g.ins[n][0].arg, Elems([n] + KeptShares(g, n, src)))
  {
    hide SyncAt, KeptShares, DstShares, Monic, Determines;
    var a, kept := g.ins[n][0].arg, KeptShares(g, n, src);
    ReconSplit(env, parties, g, n, src);
    forall s | s in kept ensures s in g.ins[n][0].inputs { assert s in Elems(kept); }
    var first := kept[..g.T];
    assert forall s :: s in first ==> s in kept;
    KeptSourcesFix(env, a, n, first);
    assert Elems([n] + first) <= Elems([n] + kept);
    FixesMonotone(env, a, Elems([n] + first), Elems([n] + kept));
  }

  lemma AdditionKeeps(env: Env, parties: set<Party>, g: Graph, n: NodeId, r: Graph)
    requires Ready(env, parties, g) && n < |g.nodes| && AdditionResult(g, n, r)
    ensures Ready(env, parties, r) && SameSolutions(env, g, r)
    ensures r.nodes == g.nodes && r.T == g.T && r.partyCnt == g.partyCnt && r.corrupted == g.corrupted
  {
    var e, first :| e in g.ins[n] && e.op.ADD? && |e.inputs| == 2 && Replaced(g, {e}, {Reversed(e, first)}, r);
    AdditionEquivalent(env, g, e, first);
    ReplacementKeeps(env, parties, g, {e}, {Reversed(e, first)}, r);
  }

  /** A step keeps the invariants of a run, whatever the points of the parties. */
  lemma StepReady(env: Env, parties: set<Party>, g: Graph, src: Sources, n: NodeId, r: Graph)
    requires Ready(env, parties, g) && GoodSources(parties, g.T, src) && Offered(g, src, n, r)
    ensures Ready(env, parties, r)
    ensures r.nodes == g.nodes && r.T == g.T && r.partyCnt == g.partyCnt && r.corrupted == g.corrupted
  {
    hide SyncAt, SharingMatch, SharingResult, ReconResult, AdditionResult, RewritableReconstruction;
    if AdditionResult(g, n, r) {
      AdditionKeeps(env, parties, g, n, r);
    } else if SharingCandidate(g, src.some, true, Candidate(n, r)) {
      SharingReady(env, parties, g, n, src.some, true, r);
    } else if SharingCandidate(g, src.more, false, Candidate(n, r)) {
      SharingReady(env, parties, g, n, src.more, false, r);
    } else if ReconCandidate(g, src.some, Candidate(n, r)) {
      MatchSetting(env, parties, g, n, src.some);
      ReconReady(env, parties, g, n, src.some, r);
    } else {
      MatchSetting(env, parties, g, n, src.more);
      ReconReady(env, parties, g, n, src.more, r);
    }
  }

  lemma SharingReady(env: Env, parties: set<Party>, g: Graph, n: NodeId, src: set<Party>, keep: bool, r: Graph)
    requires SharingSetting(env, parties, g, n, src, keep) && SharingResult(g, n, src, keep, r)
    ensures Ready(env, parties, r)
    ensures r.nodes == g.nodes && r.T == g.T && r.partyCnt == g.partyCnt && r.corrupted == g.corrupted
  {
    hide SharingMatch, SyncAt, MovedTransits, NewEvals, OldEvals, Replaced, Admissible;
    SharingAdmissible(env, parties, g, n, src, keep);
    ReadyKept(env, parties, g, OldEvals(g, n) + MovedTransits(g, n, src),
              Flips(MovedTransits(g, n, src)) + NewEvals(g, n, src, keep), r);
  }

  lemma ReconReady(env: Env, parties: set<Party>, g: Graph, n: NodeId, src: set<Party>, r: Graph)
    requires ReconSetting(env, parties, g, n, src) && ReconResult(g, n, src, r)
    ensures Ready(env, parties, r)
    ensures r.nodes == g.nodes && r.T == g.T && r.partyCnt == g.partyCnt && r.corrupted == g.corrupted
  {
    hide SyncAt, Replaced, Admissible, ReconElim, ReconAdd;
    ReconAdmissible(env, parties, g, n, src);
    ReadyKept(env, parties, g, ReconElim(g, n, src), ReconAdd(g, n, src), r);
  }

  // ----- Steps whose sources fix the polynomial

  /** A sharing rewrite whose old inputs and new sources fix the polynomial. */
  ghost predicate SharingFixed(env: Env, g: Graph, src: set<Party>, keep: bool, n: NodeId, r: Graph)
    requires env.p > 0 && Sync(g)
  {
    && SharingCandidate(g, src, keep, Candidate(n, r)) && |g.outs[n]| > 0
    && Fixes(env, PolyOf(g, n), AllInputs(g.outs[n]))
    && Fixes(env, PolyOf(g, n), Elems(SharingSrcs(g, n, src, keep)))
  }

  /** A reconstruction rewrite whose secret and kept shares fix the polynomial. */
  ghost predicate ReconFixed(env: Env, g: Graph, src: set<Party>, n: NodeId, r: Graph)
    requires env.p > 0 && Sync(g)
  {
    && ReconCandidate(g, src, Candidate(n, r)) && |g.ins[n]| == 1
    && Fixes(env, g.ins[n][0].arg, Elems([n] + KeptShares(g, n, src)))
  }

  ghost predicate FixedAt(env: Env, g: Graph, src: Sources, n: NodeId, r: Graph)
    requires env.p > 0 && Sync(g)
  {
    n < |g.nodes| &&
    (|| AdditionResult(g, n, r)
     || SharingFixed(env, g, src.some, true, n, r)
     || SharingFixed(env, g, src.more, false, n, r)
     || ReconFixed(env, g, src.some, n, r)
     || ReconFixed(env, g, src.more, n, r))
  }

  /** A step of the loop whose sources fix the polynomial it rewrites, if it rewrites one. */
  ghost predicate FixedStep(env: Env, g: Graph, src: Sources, r: Graph)
    requires env.p > 0 && Sync(g)
  {
    r.randomCnt == g.randomCnt && exists n :: FixedAt(env, g, src, n, r)
  }

  /**
   * One step of the loop, by any of the five rewriters: if its sources fix the polynomial, the
   * new graph has exactly the same satisfying valuations, the same nodes and number of random
   * nodes, its lists are in sync and its counters exact.
   */
  lemma StepKeeps(env: Env, parties: set<Party>, g: Graph, src: Sources, r: Graph)
    requires Ready(env, parties, g) && GoodSources(parties, g.T, src) && FixedStep(env, g, src, r)
    ensures Ready(env, parties, r) && SameSolutions(env, g, r)
    ensures r.nodes == g.nodes && r.T == g.T && r.partyCnt == g.partyCnt && r.corrupted == g.corrupted
    ensures |RandomNodes(r)| == |RandomNodes(g)|
  {
    hide SyncAt, SharingMatch, SharingResult, ReconResult, AdditionResult, RewritableReconstruction, SameSolutions;
    hide Fixes;
    hide AllInputs, SharingSrcs, KeptShares;
    var n :| FixedAt(env, g, src, n, r);
    if AdditionResult(g, n, r) {
      AdditionKeeps(env, parties, g, n, r);
    } else if SharingFixed(env, g, src.some, true, n, r) {
      SharingKeeps(env, parties, g, n, src.some, true, r);
    } else if SharingFixed(env, g, src.more, false, n, r) {
      SharingKeeps(env, parties, g, n, src.more, false, r);
    } else if ReconFixed(env, g, src.some, n, r) {
      MatchSetting(env, parties, g, n, src.some);
      ReconKeeps(env, parties, g, n, src.some, r);
    } else {
      MatchSetting(env, parties, g, n, src.more);
      ReconKeeps(env, parties, g, n, src.more, r);
    }
  }

  lemma ReplacedFixes(env: Env, g: Graph, elim: set<Operation>, add: set<Operation>, r: Graph)
    requires env.p > 0 && Good(g) && (forall e :: e in elim ==> Has(g, e)) && Replaced(g, elim, add, r)
    requires EdgesFix(env, g)
    requires forall e :: e in add ==> EdgeFixes(env, e)
    ensures Shape(r) && EdgesFix(env, r)
  {
    hide EdgeFixes;
    var es, fs :|
      Lists(es, elim) && Lists(fs, add) && AllInRange(g, es) && AllInRange(g, fs) && r == Rewrite(g, es, fs);
    assert AllPresent(g, es) by {
      forall i | 0 <= i < |es| ensures Has(g, es[i]) { assert es[i] in elim; }
    }
    RewriteGood(g, es, fs);
  }

  lemma SharingFixes(env: Env, parties: set<Party>, g: Graph, n: NodeId, src: set<Party>, keep: bool, r: Graph)
    requires SharingSetting(env, parties, g, n, src, keep) && SharingResult(g, n, src, keep, r) && EdgesFix(env, g)
    requires Fixes(env, PolyOf(g, n), Elems(SharingSrcs(g, n, src, keep)))
    ensures Shape(r) && EdgesFix(env, r)
  {
    hide SharingMatch, SyncAt, SharingSrcs, SharingDsts, Replaced, Fixes, EdgesFix, WellFormed, MovedTransits, OldEvals;
    SharingAdmissible(env, parties, g, n, src, keep);
    ReplacedFixes(env, g, OldEvals(g, n) + MovedTransits(g, n, src),
                  Flips(MovedTransits(g, n, src)) + NewEvals(g, n, src, keep), r);
  }

  lemma ReconFixes(env: Env, parties: set<Party>, g: Graph, n: NodeId, src: set<Party>, r: Graph)
    requires ReconSetting(env, parties, g, n, src) && ReconResult(g, n, src, r) && EdgesFix(env, g)
    requires Fixes(env, g.ins[n][0].arg, Elems([n] + KeptShares(g, n, src)))
    ensures Shape(r) && EdgesFix(env, r)
  {
    hide SyncAt, KeptShares, DstShares, Replaced, Fixes, EdgesFix, WellFormed, ArrivedTransits;
    ReconAdmissible(env, parties, g, n, src);
    ReplacedFixes(env, g, ReconElim(g, n, src), ReconAdd(g, n, src), r);
  }

  lemma AdditionFixes(env: Env, parties: set<Party>, g: Graph, n: NodeId, r: Graph)
    requires Ready(env, parties, g) && n < |g.nodes| && AdditionResult(g, n, r) && EdgesFix(env, g)
    ensures Shape(r) && EdgesFix(env, r)
  {
    hide SyncAt, Replaced, EdgesFix, WellFormed;
    var e, first :| e in g.ins[n] && e.op.ADD? && |e.inputs| == 2 && Replaced(g, {e}, {Reversed(e, first)}, r);
    ReplacedFixes(env, g, {e}, {Reversed(e, first)}, r);
  }

  /** Such a step also keeps that the inputs of every edge fix its polynomial. */
  lemma StepFixes(env: Env, parties: set<Party>, g: Graph, src: Sources, r: Graph)
    requires Ready(env, parties, g) && GoodSources(parties, g.T, src) && FixedStep(env, g, src, r) && EdgesFix(env, g)
    ensures Shape(r) && EdgesFix(env, r)
  {
    hide SyncAt, SharingMatch, SharingResult, ReconResult, AdditionResult, RewritableReconstruction, Fixes, EdgesFix;
    hide AllInputs, SharingSrcs, KeptShares, WellFormed;
    var n :| FixedAt(env, g, src, n, r);
    if AdditionResult(g, n, r) {
      AdditionFixes(env, parties, g, n, r);
    } else if SharingFixed(env, g, src.some, true, n, r) {
      SharingFixes(env, parties, g, n, src.some, true, r);
    } else if SharingFixed(env, g, src.more, false, n, r) {
      SharingFixes(env, parties, g, n, src.more, false, r);
    } else if ReconFixed(env, g, src.some, n, r) {
      MatchSetting(env, parties, g, n, src.some);
      ReconFixes(env, parties, g, n, src.some, r);
    } else {
      MatchSetting(env, parties, g, n, src.more);
      ReconFixes(env, parties, g, n, src.more, r);
    }
  }

  // ----- Conditions on the points

  lemma GenericEdges(env: Env, g: Graph)
    requires WfEnv(env) && Generic(env) && Coherent(env, g)
    ensures EdgesFix(env, g)
  {
    hide Generic, Fixes, AlmostDisjoint;
    forall e | Has(g, e) ensures EdgeFixes(env, e) {
      assert WellFormed(env, g, e);
      if PolyEdge(e) {
        NoDupSize(e.inputs);
        EnoughFix(env, e.arg, Inputs(e));
      }
    }
  }

  /** Points in general position make every step of the loop such a step. */
  lemma GenericStep(env: Env, parties: set<Party>, g: Graph, src: Sources, r: Graph)
    requires Ready(env, parties, g) && Generic(env) && GoodSources(parties, g.T, src) && RewriteStep(g, src, r)
    ensures FixedStep(env, g, src, r)
  {
    hide SyncAt, SharingMatch, SharingResult, ReconResult, AdditionResult, RewritableReconstruction, Fixes, Generic;
    hide WellFormed, AlmostDisjoint;
    hide AllInputs, SharingSrcs, KeptShares, Outputs;
    var n :| Offered(g, src, n, r);
    if AdditionResult(g, n, r) {
    } else if SharingCandidate(g, src.some, true, Candidate(n, r)) {
      GenericSharing(env, parties, g, n, src.some, true);
    } else if SharingCandidate(g, src.more, false, Candidate(n, r)) {
      GenericSharing(env, parties, g, n, src.more, false);
    } else if ReconCandidate(g, src.some, Candidate(n, r)) {
      MatchSetting(env, parties, g, n, src.some);
      GenericRecon(env, parties, g, n, src.some);
    } else {
      MatchSetting(env, parties, g, n, src.more);
      GenericRecon(env, parties, g, n, src.more);
    }
    assert FixedAt(env, g, src, n, r);
  }

  lemma GenericSharing(env: Env, parties: set<Party>, g: Graph, n: NodeId, src: set<Party>, keep: bool)
    requires Generic(env) && SharingSetting(env, parties, g, n, src, keep)
    ensures |g.outs[n]| > 0 && Fixes(env, PolyOf(g, n), AllInputs(g.outs[n]))
    ensures Fixes(env, PolyOf(g, n), Elems(SharingSrcs(g, n, src, keep)))
  {
    hide SharingMatch, SyncAt, AllInputs, SharingSrcs, Outputs, Fixes;
    MatchSize(env, parties, g, n, src);
    var a, srcs := PolyOf(g, n), SharingSrcs(g, n, src, keep);
    SharingEdges(env, parties, g, n, src);
    SharingSplit(env, parties, g, n, src);
    SharingSizes(env, parties, g, n, src, keep);
    NoDupSize(srcs);
    assert Elems(srcs) <= AllInputs(g.outs[n]) + Elems(Outputs(g.outs[n]));
    EnoughFix(env, a, AllInputs(g.outs[n]));
    EnoughFix(env, a, Elems(srcs));
  }

  lemma GenericRecon(env: Env, parties: set<Party>, g: Graph, n: NodeId, src: set<Party>)
    requires Generic(env) && ReconSetting(env, parties, g, n, src)
    ensures Fixes(env, g.ins[n][0].arg, Elems([n] + KeptShares(g, n, src)))
  {
    hide SyncAt, KeptShares, DstShares, Fixes;
    var srcs := [n] + KeptShares(g, n, src);
    ReconSplit(env, parties, g, n, src);
    ReconSrcs(env, parties, g, n, src);
    NoDupSize(srcs);
    assert Elems(srcs) <= Elems(g.ins[n][0].inputs) + {n};
    EnoughFix(env, g.ins[n][0].arg, Elems(srcs));
  }

  /** A rewrite of a dealt sharing is such a step under the exact condition on the points. */
  lemma DealtStep(env: Env, parties: set<Party>, g: Graph, src: Sources, n: NodeId, keep: bool, r: Graph)
    requires var s := if keep then src.some else src.more;
      DealtSetting(env, parties, g, n, s, keep) && SharingCandidate(g, s, keep, Candidate(n, r))
        && r.randomCnt == g.randomCnt
    requires n in env.roles[PolyOf(g, n)] && env.roles[PolyOf(g, n)][n].Coef?
    requires keep ==>
      var k, xs := env.roles[PolyOf(g, n)][n].k, SourcePoints(env, parties, g, n, src.some, true);
      k == 0 || (k < |Monic(xs)| && !Cong(env.p, Monic(xs)[k], 0))
    ensures FixedStep(env, g, src, r)
  {
    hide SharingMatch, SyncAt, AllInputs, SharingSrcs, SharingResult, Monic, Fixes, Cong, Dealt, SourcePoints;
    var s := if keep then src.some else src.more;
    DealtFixes(env, parties, g, n, s, keep);
    assert SharingFixed(env, g, s, keep, n, r);
    assert FixedAt(env, g, src, n, r);
  }

  /** So is a rewrite of the reconstruction of a secret from shares, for any points. */
  lemma DealtReconStep(env: Env, parties: set<Party>, g: Graph, src: Sources, more: bool, n: NodeId, r: Graph)
    requires var s := if more then src.more else src.some;
      ReconSetting(env, parties, g, n, s) && ReconCandidate(g, s, Candidate(n, r)) && r.randomCnt == g.randomCnt
    requires var a := g.ins[n][0].arg; a in env.roles && n in env.roles[a] && env.roles[a][n] == Coef(0)
    requires forall s :: s in g.ins[n][0].inputs ==>
      s in env.roles[g.ins[n][0].arg] && env.roles[g.ins[n][0].arg][s].At?
    ensures FixedStep(env, g, src, r)
  {
    hide SyncAt, ReconResult, RewritableReconstruction, KeptShares, Fixes, WellFormed, AlmostDisjoint;
    var s := if more then src.more else src.some;
    DealtReconFixes(env, parties, g, n, s);
    assert ReconFixed(env, g, s, n, r);
    assert FixedAt(env, g, src, n, r);
  }

  // ----- With one corruption allowed, points are always in general position

  lemma GenericForOne(env: Env)
    requires WfEnv(env) && env.T == 1
    ensures Generic(env)
  {
    forall a, ns | InSharing(env, a, ns) && |ns| == 2 ensures Fixes(env, a, ns) {
      var x :| x in ns;
      assert ns != {x};
      var y :| y in ns && y != x;
      var r, s := env.roles[a][x], env.roles[a][y];
      assert r != s && LegalRole(env, r) && LegalRole(env, s);
      assert r in RolesOf(env, a, ns) && s in RolesOf(env, a, ns);
      TwoRoles(env.p, r, s);
      DeterminesMonotone(env.p, 1, {r, s}, RolesOf(env, a, ns));
    }
  }

  ghost predicate LineRole(p: int, r: Role) {
    r == Coef(0) || r == Coef(1) || (r.At? && 0 < r.x < p)
  }

  lemma TwoRoles(p: int, r: Role, s: Role)
    requires Prime(p) && r != s && LineRole(p, r) && LineRole(p, s)
    ensures Determines(p, 1, {r, s})
  {
    forall P: seq<int> | |P| == 2 && Kills(p, {r, s}, P) ensures Vanishes(p, P) {
      assert Cong(p, Apply(r, P), 0) && Cong(p, Apply(s, P), 0);
      if r.At? && s.At? {
        NotCong(p, r.x, s.x);
        var xs := [r.x, s.x];
        assert Distinct(p, xs);
        forall i | 0 <= i < 2 ensures Cong(p, Eval(P, xs[i]), 0) {}
        RootsDetermine(p, P, xs);
      } else {
        var c, o := if r.Coef? then r else s, if r.Coef? then s else r;
        LineFixed(p, P, c.k, o);
        assert P[0] == P[0] && forall i :: 0 <= i < 2 ==> Cong(p, P[i], 0);
      }
    }
  }

  lemma LineFixed(p: int, P: seq<int>, k: nat, o: Role)
    requires Prime(p) && |P| == 2 && k <= 1 && o != Coef(k) && LineRole(p, o)
    requires Cong(p, P[k], 0) && Cong(p, Apply(o, P), 0)
    ensures Cong(p, P[0], 0) && Cong(p, P[1], 0)
  {
    if o.At? {
      var x := o.x;
      assert P[1..][1..] == [];
      assert Eval(P, x) == P[0] + x * P[1] by {
        assert Eval(P[1..], x) == P[1] + x * Eval([], x);
      }
      if k == 0 {
        CongAdd(p, Eval(P, x), 0, P[0], 0);
        NoZeroDivisors(p, x, P[1]);
        NotCong(p, x, 0);
      } else {
        CongRefl(p, x);
        CongMul(p, x, x, P[1], 0);
        CongAdd(p, Eval(P, x), 0, x * P[1], 0);
      }
    }
  }
}
