// Proving the protocol for one set of corrupted parties: source parties, rewriting loop, tail
// elimination and verdict, and what a run keeps from its first graph to its last.
module Runs {
  import opened Graphs
  import opened Counters
  import opened Semantics
  import opened Patterns
  import opened Sharing
  import opened Rewriting
  import opened Potentials
  import opened Hashing
  import opened Selection
  import opened SourceParties
  import opened Transformers
  import opened Results
  import opened Tails

  // ----- Runs of the rewriting loop

  /** Each graph is a rewrite of the one before it, of strictly smaller potential. */
  ghost predicate IsRun(src: Sources, trace: seq<Graph>) {
    && |trace| > 0 && (forall i :: 0 <= i < |trace| ==> Sync(trace[i]))
    && forall i :: 0 <= i < |trace| - 1 ==>
         RewriteStep(trace[i], src, trace[i + 1]) && Less(PotentialOf(trace[i + 1]), PotentialOf(trace[i]))
  }

  lemma RunPrefix(src: Sources, trace: seq<Graph>)
    requires IsRun(src, trace) && |trace| > 1
    ensures IsRun(src, trace[..|trace|-1])
  {
    hide Sync, RewriteStep, PotentialOf;
    var front := trace[..|trace|-1];
    forall i | 0 <= i < |front| - 1
      ensures RewriteStep(front[i], src, front[i + 1]) && Less(PotentialOf(front[i + 1]), PotentialOf(front[i]))
    {
      assert front[i] == trace[i] && front[i + 1] == trace[i + 1];
    }
  }

  /** Every graph of a run keeps the invariants and the nodes of the first. */
  lemma {:induction false} RunReady(env: Env, parties: set<Party>, src: Sources, trace: seq<Graph>)
    requires IsRun(src, trace) && Ready(env, parties, trace[0]) && GoodSources(parties, trace[0].T, src)
    ensures forall i :: 0 <= i < |trace| ==>
      && Ready(env, parties, trace[i]) && trace[i].nodes == trace[0].nodes
      && trace[i].T == trace[0].T && trace[i].partyCnt == trace[0].partyCnt && trace[i].corrupted == trace[0].corrupted
      && trace[i].randomCnt == trace[0].randomCnt
  {
    hide Sync, Offered, PotentialOf, WfEnv, Coherent;
    if |trace| > 1 {
      var k := |trace| - 1;
      RunPrefix(src, trace);
      RunReady(env, parties, src, trace[..k]);
      assert trace[..k][k - 1] == trace[k - 1];
      assert RewriteStep(trace[k - 1], src, trace[k]);
      var n :| Offered(trace[k - 1], src, n, trace[k]);
      StepReady(env, parties, trace[k - 1], src, n, trace[k]);
      forall i | 0 <= i < k ensures trace[i] == trace[..k][i] {}
    }
  }

  /** Every step of the run has sources that fix the polynomial it rewrites. */
  ghost predicate FixedRun(env: Env, src: Sources, trace: seq<Graph>)
    requires env.p > 0 && forall i :: 0 <= i < |trace| ==> Sync(trace[i])
  {
    forall i :: 0 <= i < |trace| - 1 ==> FixedStep(env, trace[i], src, trace[i + 1])
  }

  /**
   * Whole-run invariant: if the sources of every step fix the polynomial it rewrites, every
   * graph of the run has exactly the satisfying valuations of the first, the same nodes and as
   * many random nodes, with lists in sync and exact counters, whatever mix of rewriters fired.
   */
  lemma {:induction false} RunKeeps(env: Env, parties: set<Party>, src: Sources, trace: seq<Graph>, i: nat)
    requires IsRun(src, trace) && Ready(env, parties, trace[0]) && GoodSources(parties, trace[0].T, src)
    requires FixedRun(env, src, trace) && i < |trace|
    ensures Ready(env, parties, trace[i]) && SameSolutions(env, trace[0], trace[i])
    ensures trace[i].nodes == trace[0].nodes && |RandomNodes(trace[i])| == |RandomNodes(trace[0])|
  {
    hide Sync, RewriteStep, FixedStep, PotentialOf, AlmostDisjoint, Coherent, Sat;
    RunReady(env, parties, src, trace);
    if i > 0 {
      RunKeeps(env, parties, src, trace, i - 1);
      assert FixedStep(env, trace[i - 1], src, trace[i - 1 + 1]);
      StepKeeps(env, parties, trace[i - 1], src, trace[i]);
    }
  }

  /** The inputs of every edge keep fixing its polynomial along such a run. */
  lemma {:induction false} RunFixes(env: Env, parties: set<Party>, src: Sources, trace: seq<Graph>, i: nat)
    requires IsRun(src, trace) && Ready(env, parties, trace[0]) && GoodSources(parties, trace[0].T, src)
    requires FixedRun(env, src, trace) && EdgesFix(env, trace[0]) && i < |trace|
    ensures Ready(env, parties, trace[i]) && EdgesFix(env, trace[i])
  {
    hide Sync, RewriteStep, FixedStep, PotentialOf, AlmostDisjoint, WellFormed, EdgesFix;
    RunReady(env, parties, src, trace);
    if i > 0 {
      RunFixes(env, parties, src, trace, i - 1);
      assert FixedStep(env, trace[i - 1], src, trace[i - 1 + 1]);
      StepFixes(env, parties, trace[i - 1], src, trace[i]);
    }
  }

  /** With points in general position this can be said of every run of every graph. */
  lemma GenericRun(env: Env, parties: set<Party>, src: Sources, trace: seq<Graph>)
    requires IsRun(src, trace) && Ready(env, parties, trace[0]) && GoodSources(parties, trace[0].T, src) && Generic(env)
    ensures FixedRun(env, src, trace) && EdgesFix(env, trace[0])
  {
    hide Sync, RewriteStep, FixedStep, PotentialOf, AlmostDisjoint, WellFormed, EdgesFix, Generic;
    RunReady(env, parties, src, trace);
    GenericEdges(env, trace[0]);
    forall i | 0 <= i < |trace| - 1 ensures FixedStep(env, trace[i], src, trace[i + 1]) {
      GenericStep(env, parties, trace[i], src, trace[i + 1]);
    }
  }

  /** Potentials strictly decrease along a run, so no graph is met twice, not even reordered. */
  lemma {:induction false} RunDescends(src: Sources, trace: seq<Graph>, i: nat, j: nat)
    requires IsRun(src, trace) && i < j < |trace|
    ensures Less(PotentialOf(trace[j]), PotentialOf(trace[i])) && trace[i] != trace[j]
    decreases j
  {
    hide Sync, RewriteStep, PotentialOf;
    assert Less(PotentialOf(trace[j - 1 + 1]), PotentialOf(trace[j - 1]));
    if i < j - 1 {
      RunDescends(src, trace, i, j - 1);
      LessTransitive(PotentialOf(trace[j]), PotentialOf(trace[j - 1]), PotentialOf(trace[i]));
    }
  }

  lemma {:induction false} RunRank(env: Env, parties: set<Party>, src: Sources, trace: seq<Graph>, i: nat)
    requires IsRun(src, trace) && Ready(env, parties, trace[0]) && GoodSources(parties, trace[0].T, src) && i < |trace|
    ensures trace[i].nodes == trace[0].nodes && Bounds(PotentialOf(trace[i]), |trace[0].nodes|)
    ensures i + Rank(PotentialOf(trace[i]), |trace[0].nodes|) <= Rank(PotentialOf(trace[0]), |trace[0].nodes|)
  {
    hide Sync, RewriteStep, PotentialOf, WfEnv, Coherent, Rank;
    RunReady(env, parties, src, trace);
    PotentialBounds(trace[i]);
    if i > 0 {
      RunRank(env, parties, src, trace, i - 1);
      assert Less(PotentialOf(trace[i - 1 + 1]), PotentialOf(trace[i - 1]));
      RankOrders(PotentialOf(trace[i]), PotentialOf(trace[i - 1]), |trace[0].nodes|);
    }
  }

  /** A run of a graph with n nodes has fewer than (n+1)(n+1)(n(n+1)/2+1) rewrites. */
  lemma RunBound(env: Env, parties: set<Party>, src: Sources, trace: seq<Graph>)
    requires IsRun(src, trace) && Ready(env, parties, trace[0]) && GoodSources(parties, trace[0].T, src)
    ensures |trace| - 1 < RankBound(|trace[0].nodes|)
  {
    hide Sync, RewriteStep, PotentialOf, WfEnv, Coherent, Rank, RankBound;
    var k := |trace| - 1;
    RunRank(env, parties, src, trace, k);
    RunRank(env, parties, src, trace, 0);
    RankInBound(PotentialOf(trace[k]), |trace[0].nodes|);
    RankInBound(PotentialOf(trace[0]), |trace[0].nodes|);
  }

  /** The keys the loop has recorded: those of the graphs it moved to. */
  ghost function Seen(trace: seq<Graph>): set<Key>
    requires forall i :: 0 <= i < |trace| ==> Sync(trace[i])
  {
    set i | 1 <= i < |trace| :: KeyOf(trace[i])
  }

  /**
   * The next graph is what the round over the five lists takes: acceptable, and no worse than
   * each rewriter's first acceptable candidate.
   */
  ghost predicate ChosenFrom(g: Graph, src: Sources, seen: set<Key>, n: NodeId, next: Graph, lists: seq<seq<Candidate>>)
    requires Sync(g)
  {
    && CoveringLists(g, src, lists) && IsChoice(g, src, seen, Some(Candidate(n, next)))
    && RoundChoice(g, seen, lists, 5) == Some(Candidate(n, next))
    && forall k :: 0 <= k < 5 ==> NoWorse(g, seen, Some(Candidate(n, next)), lists[k])
  }

  ghost predicate Chosen(g: Graph, src: Sources, seen: set<Key>, next: Graph)
    requires Sync(g)
  {
    exists n, lists :: ChosenFrom(g, src, seen, n, next, lists)
  }

  /** Every move is made from a graph with bubbles, to a graph chosen among all candidates. */
  ghost predicate Greedy(src: Sources, trace: seq<Graph>)
    requires forall i :: 0 <= i < |trace| ==> Sync(trace[i])
  {
    forall i :: 0 <= i < |trace| - 1 ==>
      trace[i].bubbleCnt > 0 && Chosen(trace[i], src, Seen(trace[..i + 1]), trace[i + 1])
  }

  /** The run ends without bubbles, or where no rewrite at all is acceptable. */
  ghost predicate Exhausted(src: Sources, trace: seq<Graph>)
    requires |trace| > 0 && forall i :: 0 <= i < |trace| ==> Sync(trace[i])
  {
    var g := trace[|trace|-1];
    g.bubbleCnt > 0 ==> forall r :: RewriteStep(g, src, r) ==> Sync(r) && !Acceptable(g, Seen(trace), r)
  }

  lemma SeenSnoc(trace: seq<Graph>, r: Graph)
    requires |trace| > 0 && Sync(r) && forall i :: 0 <= i < |trace| ==> Sync(trace[i])
    ensures forall i :: 0 <= i < |trace + [r]| ==> Sync((trace + [r])[i])
    ensures Seen(trace + [r]) == Seen(trace) + {KeyOf(r)}
  {
    hide Sync, KeyOf;
    var t := trace + [r];
    assert t[|trace|] == r && forall i :: 0 <= i < |trace| ==> t[i] == trace[i];
  }

  lemma GreedySnoc(src: Sources, trace: seq<Graph>, r: Graph)
    requires |trace| > 0 && Sync(r) && forall i :: 0 <= i < |trace| ==> Sync(trace[i])
    requires Greedy(src, trace) && trace[|trace|-1].bubbleCnt > 0 && Chosen(trace[|trace|-1], src, Seen(trace), r)
    ensures forall i :: 0 <= i < |trace + [r]| ==> Sync((trace + [r])[i])
    ensures Greedy(src, trace + [r])
  {
    hide Sync, Chosen, Seen;
    var t := trace + [r];
    forall i | 0 <= i < |t| - 1 ensures t[i].bubbleCnt > 0 && Chosen(t[i], src, Seen(t[..i + 1]), t[i + 1]) {
      assert t[..i + 1] == trace[..i + 1];
      if i == |trace| - 1 { assert trace[..i + 1] == trace; }
    }
  }

  /** The loop: while there are bubbles, move to the best acceptable candidate. */
  method RewriteLoop(g0: Graph, src: Sources, ghost env: Env, ghost parties: set<Party>)
    returns (g: Graph, ghost trace: seq<Graph>)
    requires Ready(env, parties, g0) && GoodSources(parties, g0.T, src)
    ensures IsRun(src, trace) && trace[0] == g0 && trace[|trace|-1] == g && Greedy(src, trace) && Exhausted(src, trace)
    ensures Ready(env, parties, g) && g.nodes == g0.nodes && g.corrupted == g0.corrupted
    ensures |trace| - 1 < RankBound(|g0.nodes|)
  {
    hide Sync, Offered, RewriteStep, PotentialOf, WfEnv, Coherent, Rank, KeyOf, Seen, Greedy, Chosen, RankBound;
    g := g0;
    trace := [g0];
    StartsGreedy(src, g0);
    var considered: set<Key> := {};
    while g.bubbleCnt > 0
      invariant IsRun(src, trace) && trace[0] == g0 && trace[|trace|-1] == g && Greedy(src, trace)
      invariant Ready(env, parties, g) && g.nodes == g0.nodes && g.corrupted == g0.corrupted && g.T == g0.T
      invariant considered == Seen(trace)
      decreases Rank(PotentialOf(g), |g0.nodes|)
    {
      var best, lists := PickBest(g, src, considered, env, parties);
      if best.None? { break; }
      var next := best.value.graph;
      assert Chosen(g, src, considered, next) by { ChosenBy(g, src, considered, best.value, lists); }
      StepDescends(env, parties, g, src, considered, best.value);
      RunSnoc(src, trace, next);
      GreedySnoc(src, trace, next);
      SeenSnoc(trace, next);
      trace := trace + [next];
      var key := KeyFor(next);
      considered := considered + {key};
      g := next;
    }
    RunBound(env, parties, src, trace);
  }

  /** The loop never moves to two graphs with one key. */
  lemma KeysDiffer(src: Sources, trace: seq<Graph>, i: nat, j: nat)
    requires IsRun(src, trace) && Greedy(src, trace) && 0 < i < j < |trace|
    ensures KeyOf(trace[i]) != KeyOf(trace[j])
  {
    hide Sync, KeyOf, RoundChoice, NoWorse, CoveringLists, PotentialOf, RewriteStep, Offered;
    assert trace[..j][i] == trace[i];
    assert Chosen(trace[j - 1], src, Seen(trace[..j]), trace[j]);
  }

  /** It stops with bubbles only if every step to a smaller potential leads to a key it has been at. */
  lemma StopsOnlyAtSeen(src: Sources, trace: seq<Graph>, r: Graph)
    requires IsRun(src, trace) && Exhausted(src, trace) && trace[|trace| - 1].bubbleCnt > 0
    requires RewriteStep(trace[|trace| - 1], src, r)
    ensures Sync(r)
    ensures Less(PotentialOf(r), PotentialOf(trace[|trace| - 1])) ==>
      exists i :: 1 <= i < |trace| && KeyOf(trace[i]) == KeyOf(r)
  {
    hide Sync, KeyOf, PotentialOf, RewriteStep, Less;
    assert !Acceptable(trace[|trace| - 1], Seen(trace), r);
  }

  lemma StartsGreedy(src: Sources, g: Graph)
    requires Sync(g)
    ensures Greedy(src, [g]) && Seen([g]) == {}
  {
  }

  lemma ChosenBy(g: Graph, src: Sources, seen: set<Key>, best: Candidate, lists: seq<seq<Candidate>>)
    requires Sync(g) && CoveringLists(g, src, lists) && IsChoice(g, src, seen, Some(best))
    requires RoundChoice(g, seen, lists, 5) == Some(best)
    requires forall k :: 0 <= k < 5 ==> NoWorse(g, seen, Some(best), lists[k])
    ensures Chosen(g, src, seen, best.graph)
  {
    hide CoveringLists, IsChoice, NoWorse, RoundChoice, Sync;
    assert best == Candidate(best.node, best.graph);
    assert ChosenFrom(g, src, seen, best.node, best.graph, lists);
  }

  /** The chosen graph is a step further, of smaller rank. */
  lemma StepDescends(env: Env, parties: set<Party>, g: Graph, src: Sources, seen: set<Key>, best: Candidate)
    requires Ready(env, parties, g) && GoodSources(parties, g.T, src) && IsChoice(g, src, seen, Some(best))
    ensures Ready(env, parties, best.graph) && RewriteStep(g, src, best.graph)
    ensures best.graph.nodes == g.nodes && best.graph.T == g.T && best.graph.corrupted == g.corrupted
    ensures Less(PotentialOf(best.graph), PotentialOf(g))
    ensures 0 <= Rank(PotentialOf(best.graph), |g.nodes|) < Rank(PotentialOf(g), |g.nodes|)
  {
    hide SyncAt, Offered, RewriteStep, PotentialOf, WfEnv, WellFormed, Rank, KeyOf;
    StepReady(env, parties, g, src, best.node, best.graph);
    Descends(g, best.graph, src, best.node);
    PotentialBounds(g);
    PotentialBounds(best.graph);
    RankOrders(PotentialOf(best.graph), PotentialOf(g), |g.nodes|);
    RankInBound(PotentialOf(best.graph), |g.nodes|);
  }

  lemma Descends(g: Graph, r: Graph, src: Sources, n: NodeId)
    requires Sync(g) && Offered(g, src, n, r) && r.randomCnt == g.randomCnt
    ensures RewriteStep(g, src, r)
  {
    hide Offered;
  }

  lemma RunSnoc(src: Sources, trace: seq<Graph>, r: Graph)
    requires IsRun(src, trace) && Sync(r)
    requires RewriteStep(trace[|trace|-1], src, r) && Less(PotentialOf(r), PotentialOf(trace[|trace|-1]))
    ensures IsRun(src, trace + [r])
  {
    hide Sync, RewriteStep, PotentialOf;
    var t := trace + [r];
    forall i | 0 <= i < |t| - 1
      ensures RewriteStep(t[i], src, t[i + 1]) && Less(PotentialOf(t[i + 1]), PotentialOf(t[i]))
    {
      assert t[i] == trace[i];
      if i < |trace| - 1 { assert t[i + 1] == trace[i + 1]; }
    }
  }

  // ----- The verdict

  /** No honest input or output is left, and no corrupted one has an in-edge. */
  ghost predicate Clear(g: Graph)
    requires Shape(g)
  {
    forall n :: 0 <= n < |g.nodes| && g.live[n] && g.nodes[n].IsIO() ==> AtCorrupted(g, n) && |g.ins[n]| == 0
  }

  lemma ClearIsBubbleFree(g: Graph)
    requires Shape(g)
    ensures Clear(g) <==> Bubbles(g) == {}
  {
    if Bubbles(g) == {} {
      forall n | 0 <= n < |g.nodes| && g.live[n] && g.nodes[n].IsIO() ensures AtCorrupted(g, n) && |g.ins[n]| == 0 {
        assert n !in Bubbles(g);
      }
    }
  }

  lemma TrimmedVerdict(h: Graph, f: Graph)
    requires Shape(h) && Trimmed(h, f)
    ensures Shape(f) && (f.bubbleCnt <= 0 <==> Clear(f))
  {
    hide SyncAt;
    ClearIsBubbleFree(f);
    assert |Bubbles(f)| == 0 <==> Bubbles(f) == {};
  }

  /** A completed attempt: source parties, a greedy run to its end, and the graph without tails. */
  ghost predicate AttemptedBy(parties: set<Party>, g: Graph, f: Graph, src: Sources, trace: seq<Graph>) {
    && GoodSources(parties, g.T, src) && g.corrupted <= src.some <= src.more
    && IsRun(src, trace) && trace[0] == g && Greedy(src, trace) && Exhausted(src, trace)
    && Trimmed(trace[|trace|-1], f) && GreatestSupported(trace[|trace|-1], LiveHonest(f))
  }

  /**
   * The whole proof attempt. The answer is yes exactly when, after the run and the tail
   * elimination, no honest input or output survives and every corrupted one has in-degree 0.
   */
  method TryProving(g: Graph, parties: seq<Party>, ghost env: Env)
    returns (proved: bool, final: Graph, ghost src: Sources, ghost trace: seq<Graph>)
    requires Ready(env, PartySet(parties), g) && NoDup(parties)
    requires g.corrupted <= PartySet(parties) && |g.corrupted| <= g.T
    ensures AttemptedBy(PartySet(parties), g, final, src, trace)
    ensures |parties| > g.T >= |g.corrupted| && src == SourcesOf(parties, g.corrupted, g.T)
    ensures |trace| - 1 < RankBound(|g.nodes|)
    ensures Shape(final) && (proved <==> Clear(final))
  {
    hide SyncAt, WfEnv, WellFormed, RewriteStep, PotentialOf, Supported, RankBound, Trimmed, Greedy, Exhausted;
    PartySetSize(parties);
    var s := ChooseSources(g, parties);
    src := s;
    var h, t := RewriteLoop(g, s, env, PartySet(parties));
    trace := t;
    final := EliminateTails(h);
    proved := !(final.bubbleCnt > 0);
    TrimmedVerdict(h, final);
  }

  // ----- What a positive verdict means

  /** The valuations agree on the random nodes and on the corrupted in-degree-0 inputs and outputs. */
  ghost predicate AgreeOnSources(f: Graph, v: Valuation, w: Valuation)
    requires Shape(f)
  {
    forall n ::
      (0 <= n < |f.nodes| && f.live[n] && |f.ins[n]| == 0
       && (IsRandom(f, n) || (f.nodes[n].IsIO() && AtCorrupted(f, n))))
      ==> n < |v| && n < |w| && v[n] == w[n]
  }

  lemma {:induction false} LiveDetermined(env: Env, parties: set<Party>, h: Graph, f: Graph, rank: seq<nat>,
                                          v: Valuation, w: Valuation, n: NodeId)
    requires Ready(env, parties, h) && EdgesFix(env, h) && Trimmed(h, f) && Clear(f) && Ranked(f, rank)
    requires Sat(env, h, v) && Sat(env, h, w) && AgreeOnSources(f, v, w)
    requires n < |f.nodes| && f.live[n]
    ensures v[n] == w[n]
    decreases rank[n]
  {
    hide SyncAt, WfEnv, Holds, WellFormed;
    if |f.ins[n]| > 0 {
      var e := f.ins[n][0];
      assert Has(f, e) && Has(h, e) && e.output == n;
      forall i | 0 <= i < |e.inputs| ensures v[e.inputs[i]] == w[e.inputs[i]] {
        var m := e.inputs[i];
        assert InRange(f, e);
        OutEdge(f, m, e);
        assert Feeds(f, m, n);
        LiveDetermined(env, parties, h, f, rank, v, w, m);
      }
      OutputDetermined(env, h, e, v, w);
    }
  }

  /**
   * Meaning of a positive verdict: if the final graph is acyclic, two valuations satisfying
   * the protocol graph as it was given that agree on the final random nodes and on the
   * corrupted inputs and outputs without in-edges agree on everything corrupted parties hold.
   * The inputs of the given edges and the sources of the rewrites have to fix their polynomials.
   */
  lemma ViewDetermined(env: Env, parties: set<Party>, src: Sources, trace: seq<Graph>, f: Graph,
                       v: Valuation, w: Valuation, n: NodeId)
    requires IsRun(src, trace) && Ready(env, parties, trace[0]) && GoodSources(parties, trace[0].T, src)
    requires EdgesFix(env, trace[0]) && FixedRun(env, src, trace)
    requires Trimmed(trace[|trace|-1], f) && Clear(f) && Acyclic(f)
    requires Sat(env, trace[0], v) && Sat(env, trace[0], w) && AgreeOnSources(f, v, w)
    requires n < |f.nodes| && AtCorrupted(f, n)
    ensures n < |v| && n < |w| && v[n] == w[n]
  {
    hide SyncAt, AlmostDisjoint, WellFormed, RewriteStep, FixedStep, PotentialOf, Holds, EdgesFix;
    var k := |trace| - 1;
    RunKeeps(env, parties, src, trace, k);
    RunFixes(env, parties, src, trace, k);
    assert Sat(env, trace[k], v) && Sat(env, trace[k], w);
    var rank :| Ranked(f, rank);
    LiveDetermined(env, parties, trace[k], f, rank, v, w, n);
  }
}
