// What the nodes of a built graph are for the prover: inputs, outputs, and randomness.
module BuiltStarts {
  import opened Graphs
  import opened Counters
  import opened Lowering
  import opened BuiltGraphs
  import opened Provers

  /** The node stands for a secret or a share given from outside. */
  predicate GivenNode(p: Program, s: State, n: NodeId) {
    && n < |s.owner| && s.owner[n] < |p| && p[s.owner[n]].op.INPUT?
    && (p[s.owner[n]].kind.Secret? || p[s.owner[n]].kind.Share?)
  }

  /** The node stands for a randomness of the program, or for a coefficient of a polynomial. */
  predicate DrawnNode(p: Program, s: State, n: NodeId) {
    && n < |s.owner| && s.owner[n] < |p|
    && (p[s.owner[n]].op.POLILIZE? || (p[s.owner[n]].op.INPUT? && p[s.owner[n]].kind.Randomness?))
  }

  /** Every node is given, drawn, or computed by its one in-edge. */
  lemma NodeKinds(p: Program, s: State, n: NodeId)
    requires Wf(p, s) && n < |s.nodes|
    ensures n < |s.owner| == |s.ins| && s.owner[n] < |p| && s.nodes[n].party == p[s.owner[n]].party
    ensures GivenNode(p, s, n) ==> s.ins[n] == [] && s.nodes[n].IsIO()
    ensures DrawnNode(p, s, n) ==> s.ins[n] == [] && !s.nodes[n].genre.Input?
    ensures !GivenNode(p, s, n) && !DrawnNode(p, s, n) ==> |s.ins[n]| == 1 && !s.nodes[n].genre.Input?
  {
    hide ListsOk;
    ListSizes(s);
    var x := s.owner[n];
    assert Owned(s, n) && Mirrored(p, s, x);
    if s.memo[x].PolyNode? {
      var c := p[x].kind.constTerm;
      assert WfExpr(p, x);
      if SecretCount(p, c) == 1 { assert Mirrored(p, s, c); }
      var i :| 0 <= i < |s.memo[x].inputs| && s.memo[x].inputs[i] == n;
    }
  }

  /**
   * The bubbles of a start graph are the given nodes of honest parties, and the outputs that
   * honest parties hold or that are computed for corrupted ones.
   */
  lemma StartBubbles(p: Program, s: State, partyCnt: nat, T: nat, corrupted: set<Party>, n: NodeId)
    requires Wf(p, s) && Complete(s) && |GraphOf(s).ins| == |GraphOf(s).outs| == |GraphOf(s).nodes|
    ensures var g := StartOf(GraphOf(s), partyCnt, T, corrupted);
      n in Bubbles(g) <==>
        && n < |s.nodes| && n < |s.owner| && s.owner[n] < |p|
        && (GivenNode(p, s, n) || s.nodes[n].genre.Output?)
        && (p[s.owner[n]].party in corrupted ==> !GivenNode(p, s, n) && !DrawnNode(p, s, n))
  {
    hide Wf, GivenNode, DrawnNode;
    if n < |s.nodes| { NodeKinds(p, s, n); }
  }

  /** The random nodes of a start graph are the drawn nodes that are no outputs. */
  lemma StartRandom(p: Program, s: State, partyCnt: nat, T: nat, corrupted: set<Party>, n: NodeId)
    requires Wf(p, s) && Complete(s) && |GraphOf(s).ins| == |GraphOf(s).outs| == |GraphOf(s).nodes|
    ensures var g := StartOf(GraphOf(s), partyCnt, T, corrupted);
      n in RandomNodes(g) <==> n < |s.nodes| && DrawnNode(p, s, n) && !s.nodes[n].genre.Output?
  {
    hide Wf, GivenNode, DrawnNode;
    if n < |s.nodes| { NodeKinds(p, s, n); }
  }

  /** So the prover has work to do as long as an honest party holds a secret or a given share. */
  lemma HonestInput(p: Program, s: State, partyCnt: nat, T: nat, corrupted: set<Party>, x: ExprId)
    requires Wf(p, s) && Complete(s) && |GraphOf(s).ins| == |GraphOf(s).outs| == |GraphOf(s).nodes|
    requires x in s.memo && x < |p| && p[x].op.INPUT? && (p[x].kind.Secret? || p[x].kind.Share?)
    ensures var g := StartOf(GraphOf(s), partyCnt, T, corrupted);
      && s.memo[x].NodeAt? && (s.memo[x].n in Bubbles(g) <==> p[x].party !in corrupted)
      && (p[x].party !in corrupted ==> g.bubbleCnt > 0)
  {
    hide ListsOk, Owned;
    assert Mirrored(p, s, x);
    InputGenres(p, s, x);
    StartBubbles(p, s, partyCnt, T, corrupted, s.memo[x].n);
  }
}
