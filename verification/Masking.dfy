// A dealt sharing of a random secret that is used once more: the dealer outputs its own share
// and multiplies the secret by a public constant. Its edges, and what the rewriters match in it.
module Masking {
  import opened Arith
  import opened Graphs
  import opened Counters
  import opened Semantics
  import opened Patterns
  import opened Sharing
  import opened SharingCounts
  import opened SharingTransformers
  import opened Assembly
  import opened Dealing

  /** The dealer's product of the secret with a constant. */
  function Mask(N: nat, T: nat): Operation {
    Operation(SCALARMUL, [0], T + 2 * N, 0)
  }

  function MaskedEdges(N: nat, T: nat): (es: seq<Operation>)
    requires N > 0
  {
    Shares(N, T) + Sends(N, T) + [Mask(N, T)]
  }

  /** The nodes of the dealt sharing, the dealer's own share as an output, and the product. */
  function MaskedNodes(N: nat, T: nat): (ns: seq<Node>)
    ensures |ns| == T + 2 * N + 1
  {
    seq(T + 2 * N + 1, n requires 0 <= n < T + 2 * N + 1 =>
      Node(if T + N < n < T + 2 * N then n - T - N else 0, if n == T + 1 then Output else Others))
  }

  lemma MaskedInRange(N: nat, T: nat, corrupted: set<Party>)
    requires N > 0
    ensures AllInRange(Bare(MaskedNodes(N, T), N, T, corrupted), MaskedEdges(N, T)) && PlainEdges(MaskedEdges(N, T))
  {
    hide Shares, Sends;
    var es, g := MaskedEdges(N, T), Bare(MaskedNodes(N, T), N, T, corrupted);
    forall i | 0 <= i < |es| ensures InRange(g, es[i]) && NoDup(es[i].inputs) {
      if i < N { assert es[i] == Share(T, T + 1 + i); }
      else if i < 2 * N - 1 { assert es[i] == Sending(T + 2 + i - N, T + 1 + i); }
    }
  }

  ghost function Masked(N: nat, T: nat, corrupted: set<Party>): (g: Graph)
    requires N > 0
    ensures Shape(g) && g.nodes == MaskedNodes(N, T) && g.partyCnt == N && g.T == T && g.corrupted == corrupted
    ensures T + 2 * N < 0x7FFF_FFFF ==> Good(g)
  {
    MaskedInRange(N, T, corrupted);
    AssembledGood(MaskedNodes(N, T), N, T, corrupted, MaskedEdges(N, T));
    Assembled(MaskedNodes(N, T), N, T, corrupted, MaskedEdges(N, T))
  }

  /** Between the dealt sharing and its masked form only one edge and one node differ. */
  lemma MaskedLists(N: nat, T: nat, corrupted: set<Party>, n: NodeId)
    requires N > 0 && n < T + 2 * N
    ensures Masked(N, T, corrupted).ins[n] == DealtGraph(N, T, Others).ins[n]
    ensures Masked(N, T, corrupted).outs[n] ==
      DealtGraph(N, T, Others).outs[n] + if n == 0 then [Mask(N, T)] else []
  {
    hide Shares, Sends, Assembled, Using, Into, Nodes, MaskedNodes;
    var es := Shares(N, T) + Sends(N, T);
    MaskedInRange(N, T, corrupted);
    EdgesInRange(N, T, Others);
    AssembledLists(MaskedNodes(N, T), N, T, corrupted, MaskedEdges(N, T), n);
    AssembledLists(Nodes(N, T, Others), N, T, {}, es, n);
    IntoConcat(es, [Mask(N, T)], n);
    UsingConcat(es, [Mask(N, T)], n);
    MaskLists(N, T, n);
  }

  lemma MaskLists(N: nat, T: nat, n: NodeId)
    requires n < T + 2 * N
    ensures Into([Mask(N, T)], n) == [] && Using([Mask(N, T)], n) == if n == 0 then [Mask(N, T)] else []
  {
    assert [Mask(N, T)][..0] == [];
  }

  lemma ProductLists(N: nat, T: nat, corrupted: set<Party>)
    requires N > 0 && T + 2 * N < 0x7FFF_FFFF
    ensures |Masked(N, T, corrupted).outs[T + 2 * N]| == 0 && Masked(N, T, corrupted).ins[T + 2 * N] == [Mask(N, T)]
  {
    hide Shares, Sends, Assembled, MaskedNodes;
    var es, m := Shares(N, T) + Sends(N, T), T + 2 * N;
    MaskedInRange(N, T, corrupted);
    AssembledLists(MaskedNodes(N, T), N, T, corrupted, MaskedEdges(N, T), m);
    forall i | 0 <= i < |es| ensures es[i].output != m && m !in es[i].inputs {
      if i < N { assert es[i] == Share(T, T + 1 + i); } else { assert es[i] == Sending(T + 2 + i - N, T + 1 + i); }
    }
    IntoNone(es, m);
    UsedByNone(es, m);
    assert MaskedEdges(N, T)[..|es|] == es;
  }

  lemma MaskedHas(N: nat, T: nat, corrupted: set<Party>, e: Operation)
    requires N > 0 && T + 2 * N < 0x7FFF_FFFF
    ensures Good(Masked(N, T, corrupted)) && Good(DealtGraph(N, T, Others))
    ensures Has(Masked(N, T, corrupted), e) <==> Has(DealtGraph(N, T, Others), e) || e == Mask(N, T)
  {
    hide Shares, Sends, Assembled, MaskedNodes, Nodes, Good, Has;
    MaskedInRange(N, T, corrupted);
    EdgesInRange(N, T, Others);
    AssembledGood(MaskedNodes(N, T), N, T, corrupted, MaskedEdges(N, T));
    AssembledGood(Nodes(N, T, Others), N, T, {}, Shares(N, T) + Sends(N, T));
  }

  // ----- The standing conditions

  predicate MaskFits(N: nat, T: nat, p: int) {
    FieldFits(N, T, p) && T + 2 * N < 0x7FFF_FFFF
  }

  lemma MaskedEdgeFits(N: nat, T: nat, p: int, corrupted: set<Party>, e: Operation)
    requires MaskFits(N, T, p) && Has(Masked(N, T, corrupted), e)
    ensures WellFormed(Field(N, T, p), Masked(N, T, corrupted), e)
  {
    hide Masked, DealtGraph, Field, Has;
    MaskedHas(N, T, corrupted, e);
    if e != Mask(N, T) {
      EdgesFit(N, T, p, Others, e);
      EdgeOf(N, T, Others, e);
    }
  }

  /** The standing conditions hold whoever is corrupted. */
  lemma MaskedReady(N: nat, T: nat, p: int, corrupted: set<Party>)
    requires Prime(p) && MaskFits(N, T, p)
    ensures Ready(Field(N, T, p), Everyone(N), Masked(N, T, corrupted))
  {
    hide WfEnv, WellFormed, Prime, Good, Field, Has;
    var env, g := Field(N, T, p), Masked(N, T, corrupted);
    FieldOk(N, T, p);
    assert g.T == env.T by { FieldThreshold(N, T, p); }
    forall e | Has(g, e) ensures WellFormed(env, g, e) { MaskedEdgeFits(N, T, p, corrupted, e); }
  }

  // ----- What matches

  /** A share ends up where it does in the dealt sharing. */
  lemma MaskedTarget(N: nat, T: nat, corrupted: set<Party>, s: NodeId)
    requires N > 0 && T < s <= T + N && Sync(DealtGraph(N, T, Others)) && Sync(Masked(N, T, corrupted))
    ensures var g, h := Masked(N, T, corrupted), DealtGraph(N, T, Others);
      && g.outs[s] == h.outs[s] && Sent(g, s) == Sent(h, s)
      && Target(g, s) == Target(h, s) == (if s == T + 1 then s else s + N - 1)
      && TargetParty(g, s) == TargetParty(h, s) == s - T - 1
      && |g.ins[Target(g, s)]| == 1 && (g.nodes[Target(g, s)].IsIO() <==> s == T + 1)
  {
    hide Sync, Masked, DealtGraph;
    MaskedLists(N, T, corrupted, s);
    ShareTarget(N, T, Others, s);
    MaskedLists(N, T, corrupted, Target(DealtGraph(N, T, Others), s));
  }

  /** The rewrite at a coefficient of the masked sharing replaces the edges it replaces in the dealt one. */
  lemma SameReplaced(N: nat, T: nat, corrupted: set<Party>, n: NodeId, src: set<Party>)
    requires N > 0 && 0 < n <= T && Sync(DealtGraph(N, T, Others)) && Sync(Masked(N, T, corrupted))
    ensures var g, h := Masked(N, T, corrupted), DealtGraph(N, T, Others);
      && g.outs[n] == h.outs[n] && |g.outs[n]| == N && OldEvals(g, n) == OldEvals(h, n)
      && MovedTransits(g, n, src) == MovedTransits(h, n, src) && NewEvals(g, n, src, true) == NewEvals(h, n, src, true)
  {
    hide Sync, Masked, DealtGraph, Target, TargetParty, Sent;
    var g, h := Masked(N, T, corrupted), DealtGraph(N, T, Others);
    MaskedLists(N, T, corrupted, n);
    OutList(N, T, Others, n);
    forall i | 0 <= i < N
      ensures g.outs[n][i].output == T + 1 + i
      ensures TargetParty(g, g.outs[n][i].output) == TargetParty(h, h.outs[n][i].output)
      ensures MovedShare(g, g.outs[n][i].output, src) == MovedShare(h, h.outs[n][i].output, src)
      ensures g.outs[g.outs[n][i].output] == h.outs[h.outs[n][i].output]
    {
      MaskedTarget(N, T, corrupted, T + 1 + i);
    }
    assert TargetParties(g, g.outs[n]) == TargetParties(h, h.outs[n]);
  }

  lemma MaskedRandom(N: nat, T: nat, corrupted: set<Party>, n: NodeId)
    requires N > 0 && n <= T && Sync(Masked(N, T, corrupted))
    ensures IsRandom(Masked(N, T, corrupted), n)
  {
    hide Sync, Masked, DealtGraph;
    MaskedLists(N, T, corrupted, n);
    InList(N, T, Others, n);
  }

  /** Every coefficient matches. */
  lemma CoefficientMatches(N: nat, T: nat, corrupted: set<Party>, n: NodeId, src: set<Party>)
    requires N > 0 && 0 < n <= T && Sync(DealtGraph(N, T, Others)) && Sync(Masked(N, T, corrupted))
    ensures SharingMatch(Masked(N, T, corrupted), n, src)
  {
    hide Sync, AllInputs, Target, TargetParty, DealtGraph, Masked, IsRandom;
    var g := Masked(N, T, corrupted);
    MaskedLists(N, T, corrupted, n);
    OutList(N, T, Others, n);
    InputsHeld(N, T, Others, n);
    assert g.outs[n] == DealtGraph(N, T, Others).outs[n];
    forall i | 0 <= i < N
      ensures TargetParty(g, g.outs[n][i].output) == i && |g.ins[Target(g, g.outs[n][i].output)]| == 1
    {
      MaskedTarget(N, T, corrupted, T + 1 + i);
    }
    forall s | s in AllInputs(g.outs[n]) && s != n ensures s < |g.nodes| && IsRandom(g, s) {
      MaskedRandom(N, T, corrupted, s);
    }
  }

  /** Nothing else does: the secret has one use too many. */
  lemma OnlyCoefficientsMatch(N: nat, T: nat, corrupted: set<Party>, n: NodeId, src: set<Party>)
    requires T >= 1 && N >= 2 * T + 1 && T + 2 * N < 0x7FFF_FFFF && n <= T + 2 * N
    requires Sync(Masked(N, T, corrupted)) && SharingMatch(Masked(N, T, corrupted), n, src)
    ensures 0 < n <= T
  {
    hide Sync, Masked, DealtGraph;
    if n == T + 2 * N {
      ProductLists(N, T, corrupted);
    } else {
      MaskedLists(N, T, corrupted, n);
      OutList(N, T, Others, n);
    }
  }

  /** The copies of the source shares are inputs or outputs exactly if the dealer is a source. */
  lemma MaskedFilter(N: nat, T: nat, corrupted: set<Party>, n: NodeId, src: set<Party>)
    requires N > 0 && 0 < n <= T && Sync(DealtGraph(N, T, Others)) && Sync(Masked(N, T, corrupted))
    ensures NoIOTargets(Masked(N, T, corrupted), n, src) <==> 0 !in src
  {
    hide Sync, Target, TargetParty, DealtGraph, Masked;
    var g := Masked(N, T, corrupted);
    MaskedLists(N, T, corrupted, n);
    OutList(N, T, Others, n);
    forall i | 0 <= i < N
      ensures g.outs[n][i].output == T + 1 + i && TargetParty(g, g.outs[n][i].output) == i
      ensures g.nodes[Target(g, g.outs[n][i].output)].IsIO() <==> i == 0
    {
      MaskedTarget(N, T, corrupted, T + 1 + i);
    }
    if 0 in src { assert Target(g, g.outs[n][0].output) in SourceTargets(g, n, src); }
  }
}
