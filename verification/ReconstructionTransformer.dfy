// The `apply` method of the reconstruction rewriter.
//
// Its loop over the reconstructed shares keeps those of the source parties as sources and
// makes the others destinations; a destination that arrived by a transit is traced back, the
// transit is turned round, and the share is evaluated where it came from. The method is
// proved to collect exactly the edges of the specified replacement.
module ReconstructionTransformer {
  import opened Graphs
  import opened Counters
  import opened Semantics
  import opened Patterns
  import opened Sharing
  import opened SharingCounts
  import opened Reconstruction
  import opened ReconstructionCounts
  import opened Transformers
  import opened SharingTransformers

  // ----- The pattern check

  ghost predicate SeenBefore(g: Graph, xs: seq<NodeId>, i: nat, q: Party)
    requires Sync(g) && AllNodes(g, xs) && i <= |xs|
  {
    exists j :: 0 <= j < i && BeforeParty(g, xs[j]) == q
  }

  lemma DistinctSnoc(g: Graph, xs: seq<NodeId>, i: nat)
    requires Sync(g) && AllNodes(g, xs) && i < |xs|
    ensures NoDup(BeforeParties(g, xs[..i + 1])) <==>
      NoDup(BeforeParties(g, xs[..i])) && !SeenBefore(g, xs, i, BeforeParty(g, xs[i]))
    ensures NoDup(BeforeParties(g, xs)) ==> NoDup(BeforeParties(g, xs[..i + 1]))
  {
    hide SyncAt, BeforeParty;
    var ps, qs := BeforeParties(g, xs[..i + 1]), BeforeParties(g, xs[..i]);
    assert forall j :: 0 <= j < i ==> ps[j] == qs[j] == BeforeParty(g, xs[j]);
    assert ps[i] == BeforeParty(g, xs[i]);
    assert forall j :: 0 <= j <= i ==> ps[j] == BeforeParties(g, xs)[j];
  }

  method IsRewritableReconstruction(g: Graph, e: Operation, src: set<Party>, ghost env: Env) returns (ok: bool)
    requires Sync(g) && Coherent(env, g) && Has(g, e) && e.op.RECONSTRUCT?
    ensures ok <==> RewritableReconstruction(g, e, src)
  {
    hide SyncAt;
    assert WellFormed(env, g, e);
    assert |e.inputs| == g.partyCnt;
    var xs := e.inputs;
    var parties: set<Party> := {};
    var randomDstCnt: nat := 0;
    for i := 0 to |xs|
      invariant forall q :: q in parties <==> SeenBefore(g, xs, i, q)
      invariant NoDup(BeforeParties(g, xs[..i]))
      invariant randomDstCnt == RandomDsts(g, xs[..i], src)
    {
      var share := xs[i];
      if |g.ins[share]| == 1 {
        var transit := g.ins[share][0];
        if transit.op.TRANSIT? {
          assert Has(g, transit) && WellFormed(env, g, transit);
          assert |transit.inputs| == 1;
          share := transit.inputs[0];
        }
      }
      assert share == Before(g, xs[i]);
      DistinctSnoc(g, xs, i);
      if g.nodes[share].party in parties { return false; }
      parties := parties + {g.nodes[share].party};
      if g.nodes[share].party !in src {
        randomDstCnt := randomDstCnt + if IsRandom(g, share) then 1 else 0;
      }
      assert xs[..i + 1][..i] == xs[..i];
    }
    assert xs[..|xs|] == xs;
    var secretWillBeRandom: nat := if |g.ins[e.output]| == 1 && !g.nodes[e.output].IsIO() then 1 else 0;
    ok := randomDstCnt == secretWillBeRandom;
  }

  // ----- The rewrite at one node

  predicate IsDst(g: Graph, s: NodeId, src: set<Party>)
    requires Sync(g) && s < |g.nodes|
  {
    BeforeParty(g, s) !in src
  }

  ghost function ArrivedTo(g: Graph, xs: seq<NodeId>, src: set<Party>): set<Operation>
    requires Sync(g) && AllNodes(g, xs)
  {
    set i | 0 <= i < |xs| && IsDst(g, xs[i], src) && Arrived(g, xs[i]) :: g.ins[xs[i]][0]
  }

  /** What the loop over the reconstructed shares has collected after a prefix xs of them. */
  ghost predicate Gathered(g: Graph, e: Operation, xs: seq<NodeId>, src: set<Party>,
                           elim: seq<Operation>, add: seq<Operation>)
    requires Sync(g) && AllNodes(g, xs)
  {
    && (forall t :: t in ArrivedTo(g, xs, src) ==> IsTransit(t))
    && Lists(elim, {e} + ArrivedTo(g, xs, src)) && AllInRange(g, elim)
    && Lists(add, Flips(ArrivedTo(g, xs, src))) && AllInRange(g, add)
  }

  lemma ArrivedStep(g: Graph, xs: seq<NodeId>, src: set<Party>, i: nat)
    requires Sync(g) && AllNodes(g, xs) && i < |xs| && NoDup(xs) && NoDup(BeforeParties(g, xs))
    ensures if IsDst(g, xs[i], src) && Arrived(g, xs[i]) then
              var t := g.ins[xs[i]][0];
              && Has(g, t) && t.output == xs[i] && t.inputs[0] == Before(g, xs[i]) && InRange(g, Flip(t))
              && ArrivedTo(g, xs[..i + 1], src) == ArrivedTo(g, xs[..i], src) + {t}
              && (forall u :: u in ArrivedTo(g, xs[..i], src) ==>
                   IsTransit(u) && u.output != t.output && u.inputs != t.inputs)
            else
              ArrivedTo(g, xs[..i + 1], src) == ArrivedTo(g, xs[..i], src)
  {
    var A, B := ArrivedTo(g, xs[..i], src), ArrivedTo(g, xs[..i + 1], src);
    assert forall j :: 0 <= j < i ==> xs[..i + 1][j] == xs[..i][j];
    assert xs[..i + 1][i] == xs[i];
    forall u | u in A
      ensures IsTransit(u) && u in B
      ensures IsDst(g, xs[i], src) && Arrived(g, xs[i]) ==> u.output != xs[i] && u.inputs[0] != Before(g, xs[i])
    {
      var j :| 0 <= j < i && IsDst(g, xs[..i][j], src) && Arrived(g, xs[..i][j]) && u == g.ins[xs[..i][j]][0];
      assert u == g.ins[xs[..i + 1][j]][0];
      assert BeforeParties(g, xs)[j] != BeforeParties(g, xs)[i];
    }
    if IsDst(g, xs[i], src) && Arrived(g, xs[i]) {
      assert g.ins[xs[..i + 1][i]][0] in B;
    }
    forall u | u in B ensures u in A || (IsDst(g, xs[i], src) && Arrived(g, xs[i]) && u == g.ins[xs[i]][0]) {
      var j :| 0 <= j < i + 1 && IsDst(g, xs[..i + 1][j], src) && Arrived(g, xs[..i + 1][j])
        && u == g.ins[xs[..i + 1][j]][0];
      if j < i { assert u == g.ins[xs[..i][j]][0]; }
    }
  }

  lemma GatheredStep(g: Graph, e: Operation, xs: seq<NodeId>, src: set<Party>, i: nat, elim: seq<Operation>,
                     add: seq<Operation>)
    requires Sync(g) && AllNodes(g, xs) && i < |xs| && NoDup(xs) && NoDup(BeforeParties(g, xs))
    requires Gathered(g, e, xs[..i], src, elim, add) && e.output !in xs
    ensures if IsDst(g, xs[i], src) && Arrived(g, xs[i]) then
              var t := g.ins[xs[i]][0];
              t.inputs[0] == Before(g, xs[i]) && t.output == xs[i]
                && Gathered(g, e, xs[..i + 1], src, elim + [t], add + [Flip(t)])
            else Gathered(g, e, xs[..i + 1], src, elim, add)
  {
    hide SyncAt, ArrivedTo, BeforeParty;
    ArrivedStep(g, xs, src, i);
    if IsDst(g, xs[i], src) && Arrived(g, xs[i]) {
      var t, A := g.ins[xs[i]][0], ArrivedTo(g, xs[..i], src);
      assert t != e;
      ListsSnoc(elim, {e} + A, t);
      assert {e} + A + {t} == {e} + (A + {t});
      FlipsSnoc(A, t);
      ListsSnoc(add, Flips(A), Flip(t));
    }
  }

  /** Shares that did not arrive from elsewhere are at the one party that reconstructs. */
  lemma OneStays(env: Env, parties: set<Party>, g: Graph, n: NodeId, src: set<Party>, s: NodeId, t: NodeId)
    requires ReconSetting(env, parties, g, n, src)
    requires s in DstShares(g, n, src) && t in DstShares(g, n, src) && s != t
    ensures s < |g.nodes| && t < |g.nodes| && (Arrived(g, s) || Arrived(g, t))
  {
    var e := g.ins[n][0];
    var xs := e.inputs;
    DstShare(env, parties, g, n, src, s);
    DstShare(env, parties, g, n, src, t);
    ReconOneParty(env, g, e);
    var i :| 0 <= i < |xs| && xs[i] == s;
    var j :| 0 <= j < |xs| && xs[j] == t;
    assert g.nodes[s].party == g.nodes[t].party;
    if BeforeParty(g, s) == BeforeParty(g, t) {
      SameOrigin(env, parties, g, n, src, s, t);
    }
  }

  ghost function ArrivedShares(g: Graph, n: NodeId, src: set<Party>): set<NodeId>
    requires Sync(g) && n < |g.nodes| && |g.ins[n]| == 1
  {
    set s | s in DstShares(g, n, src) && s < |g.nodes| && Arrived(g, s)
  }

  lemma ArrivedImage(g: Graph, n: NodeId, src: set<Party>)
    requires Sync(g) && n < |g.nodes| && |g.ins[n]| == 1
    ensures |ArrivedTransits(g, n, src)| == |ArrivedShares(g, n, src)|
  {
    hide DstShares, SyncAt;
    var ts, R := ArrivedTransits(g, n, src), ArrivedShares(g, n, src);
    forall t | t in ts ensures t.output in R && g.ins[t.output] == [t] { ArrivedHas(g, n, src, t); }
    forall s | s in R ensures exists t :: t in ts && t.output == s {
      assert g.ins[s][0] in ts && g.ins[s][0].output == s;
    }
    InjectiveImage(ts, R, (t: Operation) => t.output);
  }

  /** All destination shares but at most one arrived by a transit. */
  lemma ArrivedSize(env: Env, parties: set<Party>, g: Graph, n: NodeId, src: set<Party>)
    requires ReconSetting(env, parties, g, n, src)
    ensures |ArrivedTransits(g, n, src)| >= |DstShares(g, n, src)| - 1
  {
    hide DstShares, SyncAt, Coherent, WfEnv, ArrivedTransits;
    var R, D := ArrivedShares(g, n, src), Elems(DstShares(g, n, src));
    ArrivedImage(g, n, src);
    ReconSplit(env, parties, g, n, src);
    NoDupSize(DstShares(g, n, src));
    if R != D {
      var s :| s in D && s !in R;
      forall t | t in D && t != s ensures t in R {
        OneStays(env, parties, g, n, src, s, t);
      }
      assert D == R + {s};
    }
  }

  lemma {:induction false} ListSize(s: seq<Operation>, S: set<Operation>)
    requires Lists(s, S)
    ensures |s| == |S|
  {
    if s != [] {
      var k := |s| - 1;
      assert s == s[..k] + [s[k]] && s[k] !in s[..k];
      ListSize(s[..k], S - {s[k]});
    } else {
      assert S == {};
    }
  }

  /** The edge counts the rewriter asserts before it builds the new graph. */
  lemma EdgeCounts(env: Env, parties: set<Party>, g: Graph, n: NodeId, src: set<Party>)
    requires ReconSetting(env, parties, g, n, src)
    ensures |ReconElim(g, n, src)| >= g.partyCnt - g.T - 1
    ensures |ReconAdd(g, n, src)| >= 2 * (g.partyCnt - g.T - 1) - 1
  {
    hide DstShares, KeptShares, ArrivedTransits, SyncAt, Coherent, WfEnv;
    var ts, dsts := ArrivedTransits(g, n, src), DstShares(g, n, src);
    ReconSplit(env, parties, g, n, src);
    ArrivedSize(env, parties, g, n, src);
    ArrivedAreTransits(g, n, src);
    NoDupSize(dsts);
    ReconElimSize(env, parties, g, n, src);
    FlipsSize(env, parties, g, n, src);
    hide ReconEvals, Flips, ReconElim, ReconSetting, ReconstructionPattern;
    ReconEvalsSize(env, parties, g, n, src);
    DisjointSizes(Flips(ts), ReconEvals(g, n, src));
  }

  lemma ReconElimSize(env: Env, parties: set<Party>, g: Graph, n: NodeId, src: set<Party>)
    requires ReconSetting(env, parties, g, n, src)
    ensures |ReconElim(g, n, src)| == 1 + |ArrivedTransits(g, n, src)|
  {
    hide DstShares, ArrivedTransits, SyncAt, Coherent, WfEnv;
    ArrivedAreTransits(g, n, src);
    assert g.ins[n][0] !in ArrivedTransits(g, n, src);
  }

  lemma ReconEvalsSize(env: Env, parties: set<Party>, g: Graph, n: NodeId, src: set<Party>)
    requires ReconSetting(env, parties, g, n, src)
    ensures |ReconEvals(g, n, src)| == |Elems(DstShares(g, n, src))|
    ensures forall e :: e in ReconEvals(g, n, src) ==> e.op.EVAL?
  {
    hide DstShares, KeptShares, SyncAt, Coherent, WfEnv;
    InjectiveImage(Elems(DstShares(g, n, src)), ReconEvals(g, n, src),
                   (d: NodeId) => Operation(EVAL, [n] + KeptShares(g, n, src), d, g.ins[n][0].arg));
  }

  lemma DisjointSizes(ts: set<Operation>, es: set<Operation>)
    requires (forall e :: e in ts ==> e.op.TRANSIT?) && forall e :: e in es ==> e.op.EVAL?
    ensures |ts + es| == |ts| + |es|
  {
    assert ts !! es;
  }

  lemma FlipsSize(env: Env, parties: set<Party>, g: Graph, n: NodeId, src: set<Party>)
    requires ReconSetting(env, parties, g, n, src)
    requires forall t :: t in ArrivedTransits(g, n, src) ==> IsTransit(t)
    ensures |Flips(ArrivedTransits(g, n, src))| == |ArrivedTransits(g, n, src)|
  {
    var ts := ArrivedTransits(g, n, src);
    var f := (t: Operation) => if IsTransit(t) then Flip(t) else t;
    forall t, u | t in ts && u in ts && f(t) == f(u) ensures t == u {
      ArrivedHas(g, n, src, t);
      ArrivedHas(g, n, src, u);
    }
    forall y | y in Flips(ts) ensures exists t :: t in ts && f(t) == y {
      var t :| t in ts && Flip(t) == y;
      assert f(t) == y;
    }
    InjectiveImage(ts, Flips(ts), f);
  }

  /** The loop over the reconstructed shares. */
  method Gather(g: Graph, n: NodeId, src: set<Party>, ghost env: Env, ghost parties: set<Party>)
    returns (elim: seq<Operation>, add: seq<Operation>, srcs: seq<NodeId>, dsts: set<NodeId>)
    requires ReconSetting(env, parties, g, n, src)
    ensures InRange(g, g.ins[n][0]) && Gathered(g, g.ins[n][0], g.ins[n][0].inputs, src, elim, add)
    ensures srcs == [n] + KeptShares(g, n, src) && dsts == Elems(DstShares(g, n, src))
  {
    hide SyncAt, Coherent, WfEnv, ArrivedTo, Gathered, Pick, Drop;
    var e := g.ins[n][0];
    var xs := e.inputs;
    ReconSplit(env, parties, g, n, src);
    elim, add, srcs, dsts := [e], [], [n], {};
    NothingGathered(g, e, src);
    ghost var ps := BeforeParties(g, xs);
    PickNone(xs, ps, src);
    for i := 0 to |xs|
      invariant Gathered(g, e, xs[..i], src, elim, add)
      invariant srcs == [n] + Pick(xs[..i], ps[..i], src)
      invariant dsts == Elems(Drop(xs[..i], ps[..i], src))
    {
      var share := xs[i];
      GatheredStep(g, e, xs, src, i, elim, add);
      PickSnoc(xs, ps, src, i);
      assert Elems(Drop(xs[..i], ps[..i], src) + [share]) == dsts + {share};
      if |g.ins[share]| == 1 && g.ins[share][0].op.TRANSIT? {
        var transit := g.ins[share][0];
        assert |transit.inputs| == 1 by { TransitArity(env, g, transit); }
        var shareBefore := transit.inputs[0];
        if g.nodes[shareBefore].party in src {
          srcs := srcs + [share];
        } else {
          dsts := dsts + {share};
          elim := elim + [transit];
          add := add + [Operation(TRANSIT, [share], shareBefore, 0)];
        }
      } else {
        if g.nodes[share].party in src {
          srcs := srcs + [share];
        } else {
          dsts := dsts + {share};
        }
      }
    }
    assert xs[..|xs|] == xs && ps[..|xs|] == ps;
  }

  /** The rewrite at one matched node. */
  method ReconRewrite(g: Graph, n: NodeId, src: set<Party>, ghost env: Env,
                      ghost parties: set<Party>) returns (r: Graph)
    requires ReconSetting(env, parties, g, n, src)
    ensures ReconResult(g, n, src, r)
  {
    hide SyncAt, Coherent, WfEnv, ArrivedTo, Gathered, KeptShares, DstShares, ReconResult, ReconElim, ReconAdd;
    var elim, add, srcs, dsts := Gather(g, n, src, env, parties);
    var evals := NewEvaluations(srcs, dsts, g.ins[n][0].arg);
    ReconFinish(env, parties, g, n, src, elim, add, evals);
    EdgeCounts(env, parties, g, n, src);
    assert |elim| >= g.partyCnt - g.T - 1;
    assert |add + evals| >= 2 * (g.partyCnt - g.T - 1) - 1;
    r := EliminateEdges(g, elim);
    RangeKept(g, r, add + evals);
    r := AddEdges(r, add + evals);
  }

  lemma ReconOneParty(env: Env, g: Graph, e: Operation)
    requires Coherent(env, g) && Has(g, e) && e.op.RECONSTRUCT?
    ensures OneParty(g, e.inputs)
  {
    assert WellFormed(env, g, e);
  }

  lemma TransitArity(env: Env, g: Graph, t: Operation)
    requires Coherent(env, g) && Has(g, t) && t.op.TRANSIT?
    ensures |t.inputs| == 1
  {
    assert WellFormed(env, g, t);
  }

  lemma NothingGathered(g: Graph, e: Operation, src: set<Party>)
    requires Sync(g) && Has(g, e)
    ensures Gathered(g, e, [], src, [e], [])
  {
  }

  lemma ReconFinish(env: Env, parties: set<Party>, g: Graph, n: NodeId, src: set<Party>,
                    elim: seq<Operation>, add: seq<Operation>, evals: seq<Operation>)
    requires ReconSetting(env, parties, g, n, src)
    requires InRange(g, g.ins[n][0]) && Gathered(g, g.ins[n][0], g.ins[n][0].inputs, src, elim, add)
    requires Lists(evals, ReconEvals(g, n, src))
    ensures AllInRange(g, elim) && AllInRange(g, add + evals) && ReconResult(g, n, src, Rewrite(g, elim, add + evals))
    ensures |elim| == |ReconElim(g, n, src)| && |add + evals| == |ReconAdd(g, n, src)|
  {
    hide SyncAt, Coherent, WfEnv, BeforeParties, BeforeParty, ReconEvals, ArrivedTransits, ArrivedTo;
    ArrivedToAll(env, parties, g, n, src);
    ReconConcat(g, n, src, add, evals);
    ListSize(elim, ReconElim(g, n, src));
    ListSize(add + evals, ReconAdd(g, n, src));
    forall i | 0 <= i < |add + evals| ensures InRange(g, (add + evals)[i]) {
      if i >= |add| {
        assert evals[i - |add|] in ReconEvals(g, n, src);
        ReconNewEval(env, parties, g, n, src, evals[i - |add|]);
      }
    }
  }

  lemma ReconConcat(g: Graph, n: NodeId, src: set<Party>, add: seq<Operation>, evals: seq<Operation>)
    requires Sync(g) && n < |g.nodes| && |g.ins[n]| == 1
    requires forall t :: t in ArrivedTransits(g, n, src) ==> IsTransit(t)
    requires Lists(add, Flips(ArrivedTransits(g, n, src))) && Lists(evals, ReconEvals(g, n, src))
    ensures Lists(add + evals, ReconAdd(g, n, src))
  {
    hide SyncAt, KeptShares, DstShares, ArrivedTransits;
    var F, E := Flips(ArrivedTransits(g, n, src)), ReconEvals(g, n, src);
    assert forall e :: e in F ==> e.op.TRANSIT?;
    assert forall e :: e in E ==> e.op.EVAL?;
    ListsConcat(add, evals, F, E);
  }

  lemma ReconNewEval(env: Env, parties: set<Party>, g: Graph, n: NodeId, src: set<Party>, e: Operation)
    requires ReconSetting(env, parties, g, n, src) && e in ReconEvals(g, n, src)
    ensures InRange(g, e) && e.op.EVAL?
  {
    ReconSplit(env, parties, g, n, src);
    ReconSrcs(env, parties, g, n, src);
    ReconNodesInRange(env, parties, g, n, src);
    NewEvalForm(env, g, [n] + KeptShares(g, n, src), Elems(DstShares(g, n, src)), g.ins[n][0].arg,
                Elems(g.ins[n][0].inputs) + {n}, e);
  }

  lemma ArrivedToAll(env: Env, parties: set<Party>, g: Graph, n: NodeId, src: set<Party>)
    requires ReconSetting(env, parties, g, n, src)
    ensures AllNodes(g, g.ins[n][0].inputs) && ArrivedTo(g, g.ins[n][0].inputs, src) == ArrivedTransits(g, n, src)
  {
    hide SyncAt, Coherent, WfEnv;
    var xs := g.ins[n][0].inputs;
    var ps := BeforeParties(g, xs);
    forall t | t in ArrivedTo(g, xs, src) ensures t in ArrivedTransits(g, n, src) {
      var i :| 0 <= i < |xs| && IsDst(g, xs[i], src) && Arrived(g, xs[i]) && t == g.ins[xs[i]][0];
      PickMembers(xs, ps, src, xs[i]);
      assert ListedWith(xs, ps, xs[i], src, false);
    }
    forall t | t in ArrivedTransits(g, n, src) ensures t in ArrivedTo(g, xs, src) {
      ArrivedHas(g, n, src, t);
      DstShare(env, parties, g, n, src, t.output);
      var i :| 0 <= i < |xs| && xs[i] == t.output;
      assert g.ins[xs[i]][0] == t;
    }
  }

  // ----- The loop over all nodes

  ghost predicate ReconMatch(g: Graph, n: NodeId, src: set<Party>)
    requires Sync(g) && n < |g.nodes|
  {
    |g.ins[n]| == 1 && g.ins[n][0].op.RECONSTRUCT? && RewritableReconstruction(g, g.ins[n][0], src)
  }

  ghost predicate ReconCandidate(g: Graph, src: set<Party>, c: Candidate)
    requires Sync(g)
  {
    c.node < |g.nodes| && ReconMatch(g, c.node, src) && ReconResult(g, c.node, src, c.graph)
  }

  /**
   * A candidate is offered at a node if and only if it matches and is not one of the nodes its
   * own destination shares were sent from, or is but is an input or output.
   */
  method ApplyReconstruction(g: Graph, src: set<Party>, ghost env: Env, ghost parties: set<Party>)
    returns (filtered: seq<Candidate>)
    requires Ready(env, parties, g) && src <= parties && g.T <= |src| <= g.T + 1
    ensures InNodeOrder(filtered) && OnePerNode(filtered)
    ensures forall c :: c in filtered ==> ReconCandidate(g, src, c) && c.graph.randomCnt == g.randomCnt
    ensures forall n :: 0 <= n < |g.nodes| ==>
      ((exists c :: c in filtered && c.node == n) <==>
       ReconMatch(g, n, src) && (n !in Origins(g, n, src) || g.nodes[n].IsIO()))
  {
    hide SyncAt, Coherent, WfEnv, ReconResult, RewritableReconstruction, Origins;
    var results: seq<Candidate> := [];
    for n := 0 to |g.nodes|
      invariant forall c :: c in results ==> ReconCandidate(g, src, c) && c.node < n
      invariant InNodeOrder(results) && OnePerNode(results) && forall i :: 0 <= i < |results| ==> results[i].node < n
      invariant forall k :: 0 <= k < n && ReconMatch(g, k, src) ==> exists c :: c in results && c.node == k
    {
      ghost var before := results;
      if |g.ins[n]| == 1 && g.ins[n][0].op.RECONSTRUCT? {
        var rewritable := IsRewritableReconstruction(g, g.ins[n][0], src, env);
        if rewritable {
          assert ReconSetting(env, parties, g, n, src) by { MatchSetting(env, parties, g, n, src); }
          var r := ReconRewrite(g, n, src, env, parties);
          results := results + [Candidate(n, r)];
          assert results[|before|] == Candidate(n, r);
        }
      }
    }
    filtered := FilterRandom(results, g.randomCnt);
    KeptInOrder(results, g.randomCnt);
    KeptOnce(results, g.randomCnt);
    forall c | c in results
      ensures c.graph.randomCnt == g.randomCnt <==> c.node !in Origins(g, c.node, src) || g.nodes[c.node].IsIO()
    {
      PassesFilter(env, parties, g, src, c);
    }
    forall n | 0 <= n < |g.nodes| && ReconMatch(g, n, src) && (n !in Origins(g, n, src) || g.nodes[n].IsIO())
      ensures exists c :: c in filtered && c.node == n
    {
      var c :| c in results && c.node == n;
      assert c in filtered;
    }
  }

  lemma PassesFilter(env: Env, parties: set<Party>, g: Graph, src: set<Party>, c: Candidate)
    requires Ready(env, parties, g) && src <= parties && g.T <= |src| <= g.T + 1 && ReconCandidate(g, src, c)
    ensures c.graph.randomCnt == g.randomCnt <==> c.node !in Origins(g, c.node, src) || g.nodes[c.node].IsIO()
  {
    hide SyncAt, Coherent, WfEnv, ReconResult, Origins, RandomDsts;
    MatchSetting(env, parties, g, c.node, src);
    ReconFilter(env, parties, g, c.node, src, c.graph);
  }

  lemma MatchSetting(env: Env, parties: set<Party>, g: Graph, n: NodeId, src: set<Party>)
    requires Ready(env, parties, g) && n < |g.nodes| && ReconMatch(g, n, src)
    requires src <= parties && g.T <= |src| <= g.T + 1
    ensures ReconSetting(env, parties, g, n, src)
  {
  }
}
