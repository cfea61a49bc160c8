// The subgraph patterns the rewriters look for, what a match guarantees, and the
// pigeonhole argument that splits the matched shares among the source parties.
//
// A match of the sharing pattern is a node all of whose N out-edges evaluate one polynomial
// from the same T + 1 nodes, for N different parties; so the outputs are N different nodes,
// one per party, and those of the source parties and those of the others partition them.
module Patterns {
  import opened Graphs
  import opened Counters
  import opened Semantics

  // ----- Splitting a list of nodes by the parties that go with them

  function Pick(xs: seq<NodeId>, ps: seq<Party>, src: set<Party>): (r: seq<NodeId>)
    requires |xs| == |ps|
  {
    if xs == [] then []
    else
      var k := |xs| - 1;
      Pick(xs[..k], ps[..k], src) + if ps[k] in src then [xs[k]] else []
  }

  function Drop(xs: seq<NodeId>, ps: seq<Party>, src: set<Party>): (r: seq<NodeId>)
    requires |xs| == |ps|
  {
    if xs == [] then []
    else
      var k := |xs| - 1;
      Drop(xs[..k], ps[..k], src) + if ps[k] in src then [] else [xs[k]]
  }

  ghost function PartySet(ps: seq<Party>): set<Party> {
    set q | q in ps
  }

  lemma PartySetSnoc(ps: seq<Party>, q: Party, src: set<Party>)
    requires q !in ps
    ensures PartySet(ps + [q]) == PartySet(ps) + {q}
    ensures |PartySet(ps + [q]) * src| == |PartySet(ps) * src| + if q in src then 1 else 0
  {
    assert PartySet(ps + [q]) == PartySet(ps) + {q};
    if q in src {
      assert PartySet(ps + [q]) * src == PartySet(ps) * src + {q};
    } else {
      assert PartySet(ps + [q]) * src == PartySet(ps) * src;
    }
  }

  lemma NoParties(src: set<Party>)
    ensures PartySet([]) * src == {}
  {
  }

  /** Distinct parties: as many nodes are picked as there are parties of src in the list. */
  lemma {:induction false} PickSize(xs: seq<NodeId>, ps: seq<Party>, src: set<Party>)
    requires |xs| == |ps| && NoDup(ps)
    ensures |Pick(xs, ps, src)| == |PartySet(ps) * src|
    ensures |Pick(xs, ps, src)| + |Drop(xs, ps, src)| == |xs|
  {
    hide PartySet;
    if xs != [] {
      var k := |xs| - 1;
      PickSize(xs[..k], ps[..k], src);
      assert ps == ps[..k] + [ps[k]];
      PartySetSnoc(ps[..k], ps[k], src);
    } else {
      NoParties(src);
    }
  }

  ghost predicate ListedWith(xs: seq<NodeId>, ps: seq<Party>, n: NodeId, src: set<Party>, inside: bool)
    requires |xs| == |ps|
  {
    exists i :: 0 <= i < |xs| && xs[i] == n && (ps[i] in src) == inside
  }

  lemma ListedSnoc(xs: seq<NodeId>, ps: seq<Party>, n: NodeId, src: set<Party>, inside: bool)
    requires |xs| == |ps| && xs != []
    ensures var k := |xs| - 1;
            ListedWith(xs, ps, n, src, inside) <==>
            ListedWith(xs[..k], ps[..k], n, src, inside) || (xs[k] == n && (ps[k] in src) == inside)
  {
    var k := |xs| - 1;
    if ListedWith(xs, ps, n, src, inside) {
      var i :| 0 <= i < |xs| && xs[i] == n && (ps[i] in src) == inside;
      if i < k { assert xs[..k][i] == n && ps[..k][i] == ps[i]; }
    }
    if ListedWith(xs[..k], ps[..k], n, src, inside) {
      var i :| 0 <= i < k && xs[..k][i] == n && (ps[..k][i] in src) == inside;
      assert xs[i] == n && ps[i] == ps[..k][i];
    }
  }

  /** Pick and Drop split the list by membership of the party in src. */
  lemma {:induction false} PickMembers(xs: seq<NodeId>, ps: seq<Party>, src: set<Party>, n: NodeId)
    requires |xs| == |ps|
    ensures n in Pick(xs, ps, src) <==> ListedWith(xs, ps, n, src, true)
    ensures n in Drop(xs, ps, src) <==> ListedWith(xs, ps, n, src, false)
  {
    if xs != [] {
      var k := |xs| - 1;
      PickMembers(xs[..k], ps[..k], src, n);
      ListedSnoc(xs, ps, n, src, true);
      ListedSnoc(xs, ps, n, src, false);
    }
  }

  lemma {:induction false} PickNoDup(xs: seq<NodeId>, ps: seq<Party>, src: set<Party>)
    requires |xs| == |ps| && NoDup(xs)
    ensures NoDup(Pick(xs, ps, src)) && NoDup(Drop(xs, ps, src))
  {
    if xs != [] {
      var k := |xs| - 1;
      PickNoDup(xs[..k], ps[..k], src);
      PickMembers(xs[..k], ps[..k], src, xs[k]);
    }
  }

  lemma PickCovers(xs: seq<NodeId>, ps: seq<Party>, src: set<Party>)
    requires |xs| == |ps| && NoDup(xs)
    ensures Elems(Pick(xs, ps, src)) + Elems(Drop(xs, ps, src)) == Elems(xs)
    ensures Elems(Pick(xs, ps, src)) !! Elems(Drop(xs, ps, src))
  {
    forall n: NodeId
      ensures n in Elems(xs) <==> n in Pick(xs, ps, src) || n in Drop(xs, ps, src)
      ensures !(n in Pick(xs, ps, src) && n in Drop(xs, ps, src))
    {
      PickMembers(xs, ps, src, n);
      if n in xs {
        var i :| 0 <= i < |xs| && xs[i] == n;
        assert ListedWith(xs, ps, n, src, ps[i] in src);
      }
    }
  }

  /** N distinct parties among N are all of them. */
  lemma AllParties(ps: seq<Party>, parties: set<Party>)
    requires NoDup(ps) && |ps| == |parties| && forall i :: 0 <= i < |ps| ==> ps[i] in parties
    ensures PartySet(ps) == parties
  {
    PartySetSize(ps);
    assert PartySet(ps) <= parties;
    SubsetSize(PartySet(ps), parties);
  }

  lemma {:induction false} PartySetSize(ps: seq<Party>)
    requires NoDup(ps)
    ensures |PartySet(ps)| == |ps|
  {
    if ps != [] {
      var k := |ps| - 1;
      PartySetSize(ps[..k]);
      assert ps == ps[..k] + [ps[k]];
      assert PartySet(ps) == PartySet(ps[..k]) + {ps[k]};
      assert ps[k] !in ps[..k];
    } else {
      assert PartySet(ps) == {};
    }
  }

  // ----- The standing conditions of a run

  /** The graph keeps its invariants, and every node is held by one of the N parties. */
  ghost predicate Ready(env: Env, parties: set<Party>, g: Graph) {
    && WfEnv(env) && Good(g) && Coherent(env, g)
    && |parties| == g.partyCnt
    && forall n :: 0 <= n < |g.nodes| ==> g.nodes[n].party in parties
  }

  // ----- The sharing pattern

  /** The share computed at node s is sent on, and used for nothing else. */
  predicate Sent(g: Graph, s: NodeId)
    requires Sync(g) && s < |g.nodes|
  {
    |g.outs[s]| == 1 && g.outs[s][0].op.TRANSIT?
  }

  /** The node at which the share computed at s ends up. */
  function Target(g: Graph, s: NodeId): (t: NodeId)
    requires Sync(g) && s < |g.nodes|
    ensures t < |g.nodes|
  {
    if Sent(g, s) then g.outs[s][0].output else s
  }

  function TargetParty(g: Graph, s: NodeId): Party
    requires Sync(g) && s < |g.nodes|
  {
    g.nodes[Target(g, s)].party
  }

  ghost function AllInputs(es: seq<Operation>): set<NodeId> {
    set i, n | 0 <= i < |es| && n in es[i].inputs :: n
  }

  /** The guard of both sharing rewriters. */
  ghost predicate RewritableSecret(g: Graph, n: NodeId, src: set<Party>)
    requires Sync(g) && n < |g.nodes|
  {
    var es := g.outs[n];
    && |es| == g.partyCnt
    && (forall i :: 0 <= i < |es| ==> |es[i].inputs| == g.T + 1)
    && (forall i, j :: 0 <= i < j < |es| && es[i].op.EVAL? && es[j].op.EVAL? ==>
          TargetParty(g, es[i].output) != TargetParty(g, es[j].output))
    && (forall i :: 0 <= i < |es| && es[i].op.EVAL? && TargetParty(g, es[i].output) in src ==>
          |g.ins[Target(g, es[i].output)]| <= 1)
    && |AllInputs(es)| == g.T + 1
    && (forall s :: s in AllInputs(es) && s != n ==> s < |g.nodes| && IsRandom(g, s))
  }

  /** The guard together with the assertion that every out-edge is an evaluation. */
  ghost predicate SharingMatch(g: Graph, n: NodeId, src: set<Party>)
    requires Sync(g) && n < |g.nodes|
  {
    RewritableSecret(g, n, src) && forall i :: 0 <= i < |g.outs[n]| ==> g.outs[n][i].op.EVAL?
  }

  function Outputs(es: seq<Operation>): (r: seq<NodeId>)
    ensures |r| == |es|
  {
    seq(|es|, i requires 0 <= i < |es| => es[i].output)
  }

  function TargetParties(g: Graph, es: seq<Operation>): (r: seq<Party>)
    requires Sync(g) && forall i :: 0 <= i < |es| ==> es[i].output < |g.nodes|
    ensures |r| == |es|
  {
    seq(|es|, i requires 0 <= i < |es| => TargetParty(g, es[i].output))
  }

  /** What a match says about the edges out of the matched node. */
  lemma SharingEdges(env: Env, parties: set<Party>, g: Graph, n: NodeId, src: set<Party>)
    requires Ready(env, parties, g) && n < |g.nodes| && SharingMatch(g, n, src)
    ensures n in AllInputs(g.outs[n])
    ensures forall i :: 0 <= i < |g.outs[n]| ==> SharingEdge(env, g, n, g.outs[n][i])
    ensures InSharing(env, g.outs[n][0].arg, AllInputs(g.outs[n]) + Elems(Outputs(g.outs[n])))
  {
    hide Sync, WellFormed, RewritableSecret, SharingMatch, Outputs, AllInputs;
    var es, S := g.outs[n], AllInputs(g.outs[n]);
    MatchSize(env, parties, g, n, src);
    MatchedEdge(env, parties, g, n, src, 0);
    forall i | 0 <= i < |es| ensures SharingEdge(env, g, n, es[i]) {
      MatchedEdge(env, parties, g, n, src, i);
      SameSharing(env, S, es[i].arg, es[0].arg);
    }
    forall m | m in Elems(Outputs(es)) ensures m in env.roles[es[0].arg] {
      var i := IndexOfOutput(es, m);
      MatchedEdge(env, parties, g, n, src, i);
      assert m in S + {es[i].output};
    }
  }

  lemma IndexOfOutput(es: seq<Operation>, m: NodeId) returns (i: nat)
    requires m in Outputs(es)
    ensures i < |es| && es[i].output == m
  {
    i :| i < |Outputs(es)| && Outputs(es)[i] == m;
  }

  lemma MatchSize(env: Env, parties: set<Party>, g: Graph, n: NodeId, src: set<Party>)
    requires Ready(env, parties, g) && n < |g.nodes| && SharingMatch(g, n, src)
    ensures |g.outs[n]| == g.partyCnt >= 3 && |AllInputs(g.outs[n])| == g.T + 1 >= 2
  {
  }

  lemma MatchedEdge(env: Env, parties: set<Party>, g: Graph, n: NodeId, src: set<Party>, i: nat)
    requires Ready(env, parties, g) && n < |g.nodes| && SharingMatch(g, n, src) && i < |g.outs[n]|
    ensures var e, S := g.outs[n][i], AllInputs(g.outs[n]);
            && Has(g, e) && e.op.EVAL? && n in e.inputs && n in S && Inputs(e) == S && e.output !in S
            && InSharing(env, e.arg, S + {e.output})
  {
    var e, S := g.outs[n][i], AllInputs(g.outs[n]);
    OutEdge(g, n, e);
    assert WellFormed(env, g, e);
    NoDupSize(e.inputs);
    assert Inputs(e) <= S;
    SubsetSize(Inputs(e), S);
  }

  ghost predicate SharingEdge(env: Env, g: Graph, n: NodeId, e: Operation)
    requires Sync(g) && n < |g.nodes|
  {
    && Has(g, e) && e.op.EVAL? && Inputs(e) == AllInputs(g.outs[n])
    && e.output !in AllInputs(g.outs[n])
    && |g.outs[n]| > 0 && e.arg == g.outs[n][0].arg
  }

  /** Two or more common nodes: the same sharing. */
  lemma SameSharing(env: Env, S: set<NodeId>, a: nat, b: nat)
    requires WfEnv(env) && |S| >= 2 && InSharing(env, a, S) && InSharing(env, b, S)
    ensures a == b
  {
    var x :| x in S;
    assert S != {x};
    var y :| y in S && y != x;
  }

  /** The evaluation outputs of a match are distinct nodes, one for each party. */
  lemma SharingParties(env: Env, parties: set<Party>, g: Graph, n: NodeId, src: set<Party>)
    requires Ready(env, parties, g) && n < |g.nodes| && SharingMatch(g, n, src)
    ensures forall i :: 0 <= i < |g.outs[n]| ==> g.outs[n][i].output < |g.nodes|
    ensures NoDup(Outputs(g.outs[n])) && NoDup(TargetParties(g, g.outs[n]))
    ensures PartySet(TargetParties(g, g.outs[n])) == parties
  {
    var es := g.outs[n];
    var ps := TargetParties(g, es);
    assert forall i, j :: 0 <= i < j < |es| ==> ps[i] != ps[j];
    AllParties(ps, parties);
    forall i, j | 0 <= i < j < |es| ensures es[i].output != es[j].output {
      assert ps[i] != ps[j];
    }
  }

  lemma SharesAreNotInputs(env: Env, parties: set<Party>, g: Graph, n: NodeId, src: set<Party>)
    requires Ready(env, parties, g) && n < |g.nodes| && SharingMatch(g, n, src)
    ensures Elems(Outputs(g.outs[n])) !! AllInputs(g.outs[n])
  {
    hide SharingMatch, AllInputs, SyncAt, WfEnv, WellFormed;
    var es := g.outs[n];
    SharingEdges(env, parties, g, n, src);
    forall m | m in Outputs(es) ensures m !in AllInputs(es) {
      var i :| 0 <= i < |es| && es[i].output == m;
      assert SharingEdge(env, g, n, es[i]);
    }
  }

  /** The shares that end up at source parties, and the others, in edge order. */
  function SourceShares(g: Graph, n: NodeId, src: set<Party>): seq<NodeId>
    requires Sync(g) && n < |g.nodes|
  {
    Pick(Outputs(g.outs[n]), TargetParties(g, g.outs[n]), src)
  }

  function OtherShares(g: Graph, n: NodeId, src: set<Party>): seq<NodeId>
    requires Sync(g) && n < |g.nodes|
  {
    Drop(Outputs(g.outs[n]), TargetParties(g, g.outs[n]), src)
  }

  /** The source nodes of the new evaluations: the secret if it is kept, and the source shares. */
  function SharingSrcs(g: Graph, n: NodeId, src: set<Party>, keepSecret: bool): seq<NodeId>
    requires Sync(g) && n < |g.nodes|
  {
    (if keepSecret then [n] else []) + SourceShares(g, n, src)
  }

  /** The destination nodes: the other old inputs and the other shares. */
  ghost function SharingDsts(g: Graph, n: NodeId, src: set<Party>, keepSecret: bool): set<NodeId>
    requires Sync(g) && n < |g.nodes|
  {
    (if keepSecret then {} else {n}) + (AllInputs(g.outs[n]) - {n}) + Elems(OtherShares(g, n, src))
  }

  lemma SharingSplit(env: Env, parties: set<Party>, g: Graph, n: NodeId, src: set<Party>)
    requires Ready(env, parties, g) && n < |g.nodes| && SharingMatch(g, n, src) && src <= parties
    ensures var S, X := AllInputs(g.outs[n]), Elems(Outputs(g.outs[n]));
            var picked, dropped := SourceShares(g, n, src), OtherShares(g, n, src);
            && n in S && |S| == g.T + 1 && X !! S
            && NoDup(picked) && NoDup(dropped) && Elems(picked) !! Elems(dropped)
            && Elems(picked) + Elems(dropped) == X
            && |picked| == |src| && |picked| + |dropped| == g.partyCnt
  {
    hide Pick, Drop, SyncAt, WfEnv, Coherent, RewritableSecret, PartySet, TargetParty, AllInputs, Outputs;
    var es := g.outs[n];
    var xs, ps := Outputs(es), TargetParties(g, es);
    MatchSize(env, parties, g, n, src);
    SharingEdges(env, parties, g, n, src);
    SharingParties(env, parties, g, n, src);
    PickSize(xs, ps, src);
    PickNoDup(xs, ps, src);
    PickCovers(xs, ps, src);
    assert PartySet(ps) * src == src;
    SharesAreNotInputs(env, parties, g, n, src);
  }

  lemma SplitKept(n: NodeId, S: set<NodeId>, picked: seq<NodeId>, dropped: seq<NodeId>, X: set<NodeId>)
    requires n in S && X !! S && NoDup(picked) && NoDup(dropped)
    requires Elems(picked) + Elems(dropped) == X && Elems(picked) !! Elems(dropped)
    ensures var srcs, dsts := [n] + picked, {} + (S - {n}) + Elems(dropped);
            NoDup(srcs) && Elems(srcs) !! dsts && Elems(srcs) + dsts == S + X && |dsts| == |S| - 1 + |dropped|
  {
    var P, Q := Elems(picked), Elems(dropped);
    assert n !in P;
    assert n !in picked;
    assert Elems([n] + picked) == {n} + P;
    NoDupSize(dropped);
    assert {} + (S - {n}) + Q == (S - {n}) + Q;
    assert |S - {n}| == |S| - 1;
    assert (S - {n}) !! Q;
  }

  lemma SplitFreed(n: NodeId, S: set<NodeId>, picked: seq<NodeId>, dropped: seq<NodeId>, X: set<NodeId>)
    requires n in S && X !! S && NoDup(picked) && NoDup(dropped)
    requires Elems(picked) + Elems(dropped) == X && Elems(picked) !! Elems(dropped)
    ensures var srcs, dsts := [] + picked, {n} + (S - {n}) + Elems(dropped);
            NoDup(srcs) && Elems(srcs) !! dsts && Elems(srcs) + dsts == S + X && |dsts| == |S| + |dropped|
  {
    assert [] + picked == picked;
    NoDupSize(dropped);
    FreedUnion(n, S, Elems(picked), Elems(dropped));
  }

  lemma FreedUnion(n: NodeId, S: set<NodeId>, P: set<NodeId>, Q: set<NodeId>)
    requires n in S && S !! Q && S !! P && P !! Q
    ensures var D := {n} + (S - {n}) + Q;
            P !! D && P + D == S + (P + Q) && |D| == |S| + |Q|
  {
    assert {n} + (S - {n}) == S;
  }

  /**
   * Pigeonhole: the match has exactly one share per party, so with T source parties besides
   * the secret (or T + 1 without it) there are T + 1 distinct sources and N destinations, and
   * together they are the old inputs and the shares.
   */
  lemma SharingSizes(env: Env, parties: set<Party>, g: Graph, n: NodeId, src: set<Party>, keepSecret: bool)
    requires Ready(env, parties, g) && n < |g.nodes| && SharingMatch(g, n, src)
    requires src <= parties && |src| == g.T + if keepSecret then 0 else 1
    ensures var srcs, dsts := SharingSrcs(g, n, src, keepSecret), SharingDsts(g, n, src, keepSecret);
            && NoDup(srcs) && |srcs| == g.T + 1 && |dsts| == g.partyCnt
            && Elems(srcs) !! dsts
            && Elems(srcs) + dsts == AllInputs(g.outs[n]) + Elems(Outputs(g.outs[n]))
  {
    hide SourceShares, OtherShares, SyncAt, WfEnv, Coherent, RewritableSecret, AllInputs, Outputs, Elems, NoDup;
    var S, picked, dropped := AllInputs(g.outs[n]), SourceShares(g, n, src), OtherShares(g, n, src);
    SharingSplit(env, parties, g, n, src);
    if keepSecret {
      SplitKept(n, S, picked, dropped, Elems(Outputs(g.outs[n])));
    } else {
      SplitFreed(n, S, picked, dropped, Elems(Outputs(g.outs[n])));
    }
  }
}
