// The `apply` methods of the two sharing rewriters.
module SharingTransformers {
  import opened Graphs
  import opened Counters
  import opened Semantics
  import opened Patterns
  import opened Sharing
  import opened SharingCounts
  import opened Transformers

  /** What the loop over the matched out-edges has collected after i edges. */
  ghost predicate Collected(g: Graph, n: NodeId, src: set<Party>, keep: bool, i: nat,
                            elim: seq<Operation>, add: seq<Operation>, srcs: seq<NodeId>, dsts: set<NodeId>)
    requires Sync(g) && n < |g.nodes| && i <= |g.outs[n]|
  {
    && (forall t :: t in MovedTo(g, n, src, i) ==> IsTransit(t))
    && Lists(elim, OldTo(g, n, i) + MovedTo(g, n, src, i)) && AllInRange(g, elim)
    && Lists(add, Flips(MovedTo(g, n, src, i))) && AllInRange(g, add)
    && CollectedNodes(g, n, src, keep, i, srcs, dsts)
  }

  ghost predicate CollectedNodes(g: Graph, n: NodeId, src: set<Party>, keep: bool, i: nat, srcs: seq<NodeId>,
                                 dsts: set<NodeId>)
    requires Sync(g) && n < |g.nodes| && i <= |g.outs[n]|
  {
    var xs, ps := Outputs(g.outs[n])[..i], TargetParties(g, g.outs[n])[..i];
    && srcs == (if keep then [n] else []) + Pick(xs, ps, src)
    && dsts == (if keep then {} else {n}) + (AllInputs(g.outs[n][..i]) - {n}) + Elems(Drop(xs, ps, src))
  }

  lemma PickSnoc(xs: seq<NodeId>, ps: seq<Party>, src: set<Party>, i: nat)
    requires |xs| == |ps| && i < |xs|
    ensures Pick(xs[..i + 1], ps[..i + 1], src) == Pick(xs[..i], ps[..i], src) + if ps[i] in src then [xs[i]] else []
    ensures Drop(xs[..i + 1], ps[..i + 1], src) == Drop(xs[..i], ps[..i], src) + if ps[i] in src then [] else [xs[i]]
  {
    assert xs[..i + 1][..i] == xs[..i] && ps[..i + 1][..i] == ps[..i];
  }

  lemma PickNone(xs: seq<NodeId>, ps: seq<Party>, src: set<Party>)
    requires |xs| == |ps|
    ensures Pick(xs[..0], ps[..0], src) == [] == Drop(xs[..0], ps[..0], src)
  {
  }

  lemma NodesStep(g: Graph, n: NodeId, src: set<Party>, keep: bool, i: nat, srcs: seq<NodeId>, dsts: set<NodeId>)
    requires Sync(g) && n < |g.nodes| && i < |g.outs[n]| && CollectedNodes(g, n, src, keep, i, srcs, dsts)
    ensures var e := g.outs[n][i];
            var source := TargetParty(g, e.output) in src;
            CollectedNodes(g, n, src, keep, i + 1, srcs + (if source then [e.output] else []),
                           dsts + (set x | x in e.inputs && x != n) + if source then {} else {e.output})
  {
    hide Pick, Drop, SyncAt, AllInputs, TargetParty;
    var es, e := g.outs[n], g.outs[n][i];
    var xs, ps := Outputs(es), TargetParties(g, es);
    PickSnoc(xs, ps, src, i);
    InputsSnoc(es, i);
    var dropped := Drop(xs[..i], ps[..i], src);
    assert Elems(dropped + [e.output]) == Elems(dropped) + {e.output};
    assert dropped + [] == dropped;
    var s := Pick(xs[..i], ps[..i], src);
    assert ((if keep then [n] else []) + s) + [e.output] == (if keep then [n] else []) + (s + [e.output]);
  }

  lemma EdgesStep(env: Env, parties: set<Party>, g: Graph, n: NodeId, src: set<Party>, keep: bool, i: nat,
                  elim: seq<Operation>, add: seq<Operation>, srcs: seq<NodeId>, dsts: set<NodeId>)
    requires Ready(env, parties, g) && n < |g.nodes| && SharingMatch(g, n, src) && i < |g.outs[n]|
    requires Collected(g, n, src, keep, i, elim, add, srcs, dsts)
    ensures forall t :: t in MovedTo(g, n, src, i + 1) ==> IsTransit(t)
    ensures var e := g.outs[n][i];
            if MovedShare(g, e.output, src) then
              var t := g.outs[e.output][0];
              && IsTransit(t) && t.inputs[0] == e.output
              && Lists(elim + [e] + [t], OldTo(g, n, i + 1) + MovedTo(g, n, src, i + 1))
              && AllInRange(g, elim + [e] + [t])
              && Lists(add + [Flip(t)], Flips(MovedTo(g, n, src, i + 1))) && AllInRange(g, add + [Flip(t)])
            else
              && Lists(elim + [e], OldTo(g, n, i + 1) + MovedTo(g, n, src, i + 1)) && AllInRange(g, elim + [e])
              && Lists(add, Flips(MovedTo(g, n, src, i + 1)))
  {
    hide SyncAt, Coherent, WfEnv, SharingMatch, OldTo, MovedTo, CollectedNodes;
    var e, O, M := g.outs[n][i], OldTo(g, n, i), MovedTo(g, n, src, i);
    OldToStep(env, parties, g, n, src, i);
    MovedToStep(env, parties, g, n, src, i);
    assert InRange(g, e);
    assert e !in M;
    ListsSnoc(elim, O + M, e);
    assert O + M + {e} == OldTo(g, n, i + 1) + M;
    if MovedShare(g, e.output, src) {
      var t := g.outs[e.output][0];
      assert t !in OldTo(g, n, i + 1);
      ListsSnoc(elim + [e], OldTo(g, n, i + 1) + M, t);
      assert OldTo(g, n, i + 1) + M + {t} == OldTo(g, n, i + 1) + MovedTo(g, n, src, i + 1);
      FlipsSnoc(M, t);
      ListsSnoc(add, Flips(M), Flip(t));
    }
  }

  lemma FlipsSnoc(M: set<Operation>, t: Operation)
    requires (forall u :: u in M ==> IsTransit(u)) && IsTransit(t)
    requires forall u :: u in M ==> u.inputs != t.inputs
    ensures Flip(t) !in Flips(M) && Flips(M + {t}) == Flips(M) + {Flip(t)}
  {
    forall u | u in M ensures Flip(u) != Flip(t) {
      assert u.inputs[0] == t.inputs[0] ==> u.inputs == t.inputs;
    }
  }

  /** An EVAL edge from the sources to every destination, in whatever order the set is walked. */
  method NewEvaluations(srcs: seq<NodeId>, dsts: set<NodeId>, arg: nat) returns (es: seq<Operation>)
    ensures Lists(es, Evals(srcs, dsts, arg))
  {
    es := [];
    var rest := dsts;
    ghost var done: set<NodeId> := {};
    while rest != {}
      invariant rest !! done && rest + done == dsts
      invariant Lists(es, Evals(srcs, done, arg))
      decreases |rest|
    {
      var dst: NodeId :| dst in rest;
      var e := Operation(EVAL, srcs, dst, arg);
      assert Evals(srcs, done + {dst}, arg) == Evals(srcs, done, arg) + {e};
      ListsSnoc(es, Evals(srcs, done, arg), e);
      es := es + [e];
      rest := rest - {dst};
      done := done + {dst};
    }
    assert done == dsts;
  }

  lemma ListsConcat(s: seq<Operation>, t: seq<Operation>, S: set<Operation>, R: set<Operation>)
    requires Lists(s, S) && Lists(t, R) && S !! R
    ensures Lists(s + t, S + R)
  {
    forall i, j | 0 <= i < j < |s + t| ensures (s + t)[i] != (s + t)[j] {
      assert i < |s| <= j ==> s[i] in S && t[j - |s|] in R;
    }
  }

  /** The rewrite at one matched node. */
  /** Whether a share was sent to a source party, as the loop asks. */
  lemma ShareBranch(g: Graph, s: NodeId, src: set<Party>)
    requires Sync(g) && s < |g.nodes|
    ensures if Sent(g, s) then
              && g.outs[s][0].output < |g.nodes| && TargetParty(g, s) == g.nodes[g.outs[s][0].output].party
              && (MovedShare(g, s, src) <==> TargetParty(g, s) in src)
            else TargetParty(g, s) == g.nodes[s].party && !MovedShare(g, s, src)
  {
  }

  method ShareRewrite(g: Graph, n: NodeId, src: set<Party>, keep: bool, ghost env: Env, ghost parties: set<Party>)
    returns (r: Graph)
    requires SharingSetting(env, parties, g, n, src, keep)
    ensures SharingResult(g, n, src, keep, r)
  {
    hide SyncAt, Coherent, WfEnv, SharingMatch, CollectedNodes, OldTo, MovedTo, TargetParty, MovedShare;
    var es := g.outs[n];
    var elim: seq<Operation>, add: seq<Operation> := [], [];
    var srcs: seq<NodeId> := if keep then [n] else [];
    var dsts: set<NodeId> := if keep then {} else {n};
    NothingCollected(g, n, src, keep);
    for i := 0 to |es|
      invariant Collected(g, n, src, keep, i, elim, add, srcs, dsts)
    {
      var edge := es[i];
      EdgesStep(env, parties, g, n, src, keep, i, elim, add, srcs, dsts);
      NodesStep(g, n, src, keep, i, srcs, dsts);
      ShareBranch(g, edge.output, src);
      ghost var source := TargetParty(g, edge.output) in src;
      ghost var srcs', dsts' := srcs + (if source then [edge.output] else []),
        dsts + (set x | x in edge.inputs && x != n) + if source then {} else {edge.output};
      elim := elim + [edge];
      dsts := dsts + (set x | x in edge.inputs && x != n);
      var share := edge.output;
      if |g.outs[share]| == 1 && g.outs[share][0].op.TRANSIT? {
        var transit := g.outs[share][0];
        if g.nodes[transit.output].party in src {
          elim := elim + [transit];
          add := add + [Operation(TRANSIT, [transit.output], share, 0)];
          srcs := srcs + [share];
        } else {
          dsts := dsts + {share};
        }
      } else {
        if g.nodes[share].party in src {
          srcs := srcs + [share];
        } else {
          dsts := dsts + {share};
        }
      }
      assert srcs == srcs' && dsts == dsts';
    }
    AllCollected(env, parties, g, n, src, keep, elim, add, srcs, dsts);
    hide Collected;
    assert |dsts| == g.partyCnt by { SharingSizes(env, parties, g, n, src, keep); }
    MatchSize(env, parties, g, n, src);
    var evals := NewEvaluations(srcs, dsts, es[0].arg);
    ShareFinish(env, parties, g, n, src, keep, elim, add, evals);
    r := EliminateEdges(g, elim);
    RangeKept(g, r, add + evals);
    r := AddEdges(r, add + evals);
  }

  lemma RangeKept(g: Graph, r: Graph, es: seq<Operation>)
    requires AllInRange(g, es) && r.nodes == g.nodes
    ensures forall i :: 0 <= i < |es| ==> InRange(r, es[i])
  {
    forall i | 0 <= i < |es| ensures InRange(r, es[i]) { assert InRange(g, es[i]); }
  }

  lemma NothingCollected(g: Graph, n: NodeId, src: set<Party>, keep: bool)
    requires Sync(g) && n < |g.nodes|
    ensures Collected(g, n, src, keep, 0, [], [], if keep then [n] else [], if keep then {} else {n})
  {
    var h: seq<NodeId> := if keep then [n] else [];
    assert h + [] == h;
    assert AllInputs([]) == {};
    assert Elems([]) == {};
  }

  lemma AllCollected(env: Env, parties: set<Party>, g: Graph, n: NodeId, src: set<Party>, keep: bool,
                     elim: seq<Operation>, add: seq<Operation>, srcs: seq<NodeId>, dsts: set<NodeId>)
    requires SharingSetting(env, parties, g, n, src, keep)
    requires Collected(g, n, src, keep, |g.outs[n]|, elim, add, srcs, dsts)
    ensures srcs == SharingSrcs(g, n, src, keep) && dsts == SharingDsts(g, n, src, keep)
    ensures Lists(elim, ElimSet(g, n, src)) && AllInRange(g, elim) && AllInRange(g, add)
    ensures forall t :: t in MovedTransits(g, n, src) ==> IsTransit(t)
    ensures Lists(add, Flips(MovedTransits(g, n, src)))
  {
    hide SyncAt, Coherent, WfEnv, SharingMatch, Pick, Drop, AllInputs;
    var es, k := g.outs[n], |g.outs[n]|;
    assert es[..k] == es && Outputs(es)[..k] == Outputs(es) && TargetParties(g, es)[..k] == TargetParties(g, es);
    assert OldTo(g, n, k) == OldEvals(g, n) && MovedTo(g, n, src, k) == MovedTransits(g, n, src);
  }

  lemma ShareFinish(env: Env, parties: set<Party>, g: Graph, n: NodeId, src: set<Party>, keep: bool,
                    elim: seq<Operation>, add: seq<Operation>, evals: seq<Operation>)
    requires SharingSetting(env, parties, g, n, src, keep) && |g.outs[n]| > 0
    requires Lists(elim, ElimSet(g, n, src)) && AllInRange(g, elim) && AllInRange(g, add)
    requires forall t :: t in MovedTransits(g, n, src) ==> IsTransit(t)
    requires Lists(add, Flips(MovedTransits(g, n, src))) && Lists(evals, NewEvals(g, n, src, keep))
    ensures AllInRange(g, add + evals) && SharingResult(g, n, src, keep, Rewrite(g, elim, add + evals))
  {
    hide SyncAt, Coherent, WfEnv, SharingMatch, MovedTransits, SharingSrcs, SharingDsts;
    ListsConcat(add, evals, Flips(MovedTransits(g, n, src)), NewEvals(g, n, src, keep));
    forall i | 0 <= i < |add + evals| ensures InRange(g, (add + evals)[i]) {
      if i >= |add| {
        assert evals[i - |add|] in NewEvals(g, n, src, keep);
        NewEvalFacts(env, parties, g, n, src, keep, evals[i - |add|]);
      }
    }
  }

  ghost predicate MatchFor(g: Graph, n: NodeId, src: set<Party>, keep: bool)
    requires Sync(g) && n < |g.nodes|
  {
    SharingMatch(g, n, src) && (!keep ==> IsRandom(g, n))
  }

  ghost predicate NoIOTargets(g: Graph, n: NodeId, src: set<Party>)
    requires Sync(g) && n < |g.nodes|
  {
    forall k :: k in SourceTargets(g, n, src) ==> k < |g.nodes| && !g.nodes[k].IsIO()
  }

  /** A result of one of the sharing rewriters, before the filter. */
  ghost predicate SharingCandidate(g: Graph, src: set<Party>, keep: bool, c: Candidate)
    requires Sync(g)
  {
    c.node < |g.nodes| && MatchFor(g, c.node, src, keep) && SharingResult(g, c.node, src, keep, c.graph)
  }

  /**
   * The loop of both sharing rewriters: with the secret kept as a source (T source parties),
   * or only for random secrets and without it (T + 1 source parties). The filter passes
   * exactly the matches none of whose source share copies is an input or output.
   */
  method ApplySharing(g: Graph, src: set<Party>, keep: bool, ghost env: Env, ghost parties: set<Party>)
    returns (filtered: seq<Candidate>)
    requires Ready(env, parties, g) && src <= parties && |src| == g.T + if keep then 0 else 1
    ensures InNodeOrder(filtered) && OnePerNode(filtered)
    ensures forall c :: c in filtered ==> SharingCandidate(g, src, keep, c) && c.graph.randomCnt == g.randomCnt
    ensures forall n :: 0 <= n < |g.nodes| ==>
      ((exists c :: c in filtered && c.node == n) <==> MatchFor(g, n, src, keep) && NoIOTargets(g, n, src))
  {
    hide SyncAt, Coherent, WfEnv, SharingMatch, RewritableSecret, SharingResult, SourceTargets;
    var results: seq<Candidate> := [];
    for n := 0 to |g.nodes|
      invariant forall c :: c in results ==> SharingCandidate(g, src, keep, c) && c.node < n
      invariant InNodeOrder(results) && OnePerNode(results) && forall i :: 0 <= i < |results| ==> results[i].node < n
      invariant forall k :: 0 <= k < n && MatchFor(g, k, src, keep) ==> exists c :: c in results && c.node == k
    {
      ghost var before := results;
      if keep || IsRandom(g, n) {
        var rewritable := IsRewritableSecret(g, n, src);
        if rewritable && forall i | 0 <= i < |g.outs[n]| :: g.outs[n][i].op.EVAL? {
          assert SharingMatch(g, n, src) by { MatchFrom(g, n, src); }
          var r := ShareRewrite(g, n, src, keep, env, parties);
          results := results + [Candidate(n, r)];
          assert results[|before|] == Candidate(n, r);
        } else {
          assert !SharingMatch(g, n, src) by { MatchFrom(g, n, src); }
        }
      }
    }
    filtered := FilterRandom(results, g.randomCnt);
    KeptInOrder(results, g.randomCnt);
    KeptOnce(results, g.randomCnt);
    forall c | c in results ensures c.graph.randomCnt == g.randomCnt <==> NoIOTargets(g, c.node, src) {
      SharingFilter(env, parties, g, c.node, src, keep, c.graph);
    }
    forall n | 0 <= n < |g.nodes| && MatchFor(g, n, src, keep) && NoIOTargets(g, n, src)
      ensures exists c :: c in filtered && c.node == n
    {
      var c :| c in results && c.node == n;
      assert c in filtered;
    }
  }

  lemma MatchFrom(g: Graph, n: NodeId, src: set<Party>)
    requires Sync(g) && n < |g.nodes|
    ensures SharingMatch(g, n, src) <==>
      RewritableSecret(g, n, src) && forall i :: 0 <= i < |g.outs[n]| ==> g.outs[n][i].op.EVAL?
  {
  }
}
