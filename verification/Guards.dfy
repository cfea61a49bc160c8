// What the guard of the sharing rewriters depends on, and what it does not.
module Guards {
  import opened Graphs
  import opened Patterns
  import opened Dealing

  /** It reads the out-list of the node, where the shares go, and whether the other inputs are random. */
  lemma GuardReads(g: Graph, h: Graph, n: NodeId, src: set<Party>)
    requires Sync(g) && Sync(h) && n < |g.nodes| && n < |h.nodes| && g.partyCnt == h.partyCnt && g.T == h.T
    requires g.outs[n] == h.outs[n]
    requires forall i :: 0 <= i < |g.outs[n]| ==>
      && TargetParty(g, g.outs[n][i].output) == TargetParty(h, h.outs[n][i].output)
      && |g.ins[Target(g, g.outs[n][i].output)]| == |h.ins[Target(h, h.outs[n][i].output)]|
    requires forall s :: s in AllInputs(g.outs[n]) && s != n ==>
      s < |g.nodes| && s < |h.nodes| && (IsRandom(g, s) <==> IsRandom(h, s))
    ensures RewritableSecret(g, n, src) <==> RewritableSecret(h, n, src)
    ensures SharingMatch(g, n, src) <==> SharingMatch(h, n, src)
  {
    hide SyncAt, Target, TargetParty, AllInputs, IsRandom;
  }

  /** Where the value of the node comes from does not matter: its in-list is not looked at. */
  lemma GuardIgnoresInList(g: Graph, h: Graph, n: NodeId, src: set<Party>)
    requires Sync(g) && Sync(h) && n < |g.nodes| && g.nodes == h.nodes && g.partyCnt == h.partyCnt && g.T == h.T
    requires g.outs[n] == h.outs[n] && forall m :: 0 <= m < |g.nodes| && m != n ==> g.ins[m] == h.ins[m]
    requires forall i :: 0 <= i < |g.outs[n]| ==>
      var s := g.outs[n][i].output; g.outs[s] == h.outs[s] && Target(g, s) != n
    requires forall s :: s in AllInputs(g.outs[n]) ==> s < |g.nodes|
    ensures RewritableSecret(g, n, src) <==> RewritableSecret(h, n, src)
    ensures SharingMatch(g, n, src) <==> SharingMatch(h, n, src)
  {
    hide SyncAt, AllInputs;
    GuardReads(g, h, n, src);
  }

  /** A dealt secret matches whatever it is computed from. */
  lemma ComputedSecretMatches(N: nat, T: nat, secret: Genre, e: Operation, src: set<Party>)
    requires N > 0 && T + 2 * N < 0x8000_0000
    requires e.output == 0 && forall k :: 0 <= k < |e.inputs| ==> T + N < e.inputs[k] < T + 2 * N
    ensures InRange(DealtGraph(N, T, secret), e) && Sync(WithEdge(DealtGraph(N, T, secret), e))
    ensures SharingMatch(WithEdge(DealtGraph(N, T, secret), e), 0, src)
  {
    hide Sync, DealtGraph, WithEdge, SharingMatch, Target, AllInputs;
    var g := DealtGraph(N, T, secret);
    DealtTargets(N, T, secret);
    assert InRange(g, e);
    WithEdgeSync(g, e);
    ComputedAlike(g, e, T + N);
    MatchHolds(N, T, secret, 0, src);
    GuardIgnoresInList(g, WithEdge(g, e), 0, src);
  }

  lemma DealtTargets(N: nat, T: nat, secret: Genre)
    requires N > 0 && T + 2 * N < 0x8000_0000
    ensures var g := DealtGraph(N, T, secret);
      && Sync(g) && Shape(g) && |g.nodes| == T + 2 * N
      && (forall i :: 0 <= i < |g.outs[0]| ==> g.outs[0][i].output <= T + N && Target(g, g.outs[0][i].output) != 0)
      && (forall s :: s in AllInputs(g.outs[0]) ==> s <= T)
  {
    var g := DealtGraph(N, T, secret);
    assert Sync(g);
    hide Sync, DealtGraph, AllInputs, Target;
    OutList(N, T, secret, 0);
    InputsHeld(N, T, secret, 0);
    forall i | 0 <= i < |g.outs[0]| ensures g.outs[0][i].output <= T + N && Target(g, g.outs[0][i].output) != 0 {
      assert g.outs[0][i] == Share(T, T + 1 + i);
      ShareTarget(N, T, secret, T + 1 + i);
    }
  }

  /** An edge into node 0 from nodes above k leaves the other in-lists and the lower out-lists as they are. */
  lemma ComputedAlike(g: Graph, e: Operation, k: nat)
    requires Shape(g) && InRange(g, e) && e.output == 0 && forall i :: 0 <= i < |e.inputs| ==> e.inputs[i] > k
    ensures var h := WithEdge(g, e);
      && h.nodes == g.nodes && h.partyCnt == g.partyCnt && h.T == g.T
      && (forall m :: 0 < m < |g.nodes| ==> h.ins[m] == g.ins[m])
      && (forall m :: 0 <= m < |g.nodes| && m <= k ==> h.outs[m] == g.outs[m])
  {
    forall m | 0 <= m < |g.nodes| && m <= k ensures WithEdge(g, e).outs[m] == g.outs[m] { NotPushed(g, e, m); }
  }

  lemma NotPushed(g: Graph, e: Operation, m: NodeId)
    requires Shape(g) && InRange(g, e) && m < |g.nodes| && m !in e.inputs
    ensures WithEdge(g, e).outs[m] == g.outs[m]
  {
    PushElsewhere(g.outs, e.inputs, e, m);
  }

  lemma {:induction false} PushElsewhere(lists: seq<seq<Operation>>, at: seq<NodeId>, e: Operation, m: NodeId)
    requires m < |lists| && (forall i :: 0 <= i < |at| ==> at[i] < |lists|) && m !in at
    ensures PushAt(lists, at, e)[m] == lists[m]
  {
    if at != [] {
      assert forall i :: 0 <= i < |at| ==> at[i] in at;
      PushElsewhere(lists, at[..|at|-1], e, m);
    }
  }
}
