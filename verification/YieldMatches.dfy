// The pre-check of the reconstruction rewriter on the graph built for a circuit: the yielded output
// is accepted exactly when its receiver was not itself sent a share by the dealer.
module YieldMatches {
  import opened Graphs
  import opened Counters
  import opened Reconstruction
  import opened ReconstructionTransformer
  import opened Expressions
  import opened Bgw
  import opened BgwCorrectness
  import opened BuiltStarts
  import opened FrontendPrograms
  import opened CircuitPrograms
  import opened ProductMatches
  import G = ProductGuards
  import L = Lowering
  import B = BuiltProtocols
  import M = BuiltMatches

  // ----- Nodes of listed expressions

  /** The expression is listed and lowered, and g is the graph that was built. */
  ghost predicate Standing(w: World, T: nat, l: Listing, s: L.State, g: Graph, e: Expression) {
    && TypedListing(w, T, l) && w.p > 0 && OfExpr(e) in l && Position(l, OfExpr(e)) in s.memo
    && B.GraphFrom(ProgramOf(l), s, SettingOf(w, T, l), g)
  }

  function LoweredNode(l: Listing, s: L.State, e: Expression): NodeId {
    var x := Position(l, OfExpr(e));
    if x in s.memo && s.memo[x].NodeAt? then s.memo[x].n else 0
  }

  /** It has a node of its own, at its holder. */
  lemma ListedNode(w: World, T: nat, l: Listing, s: L.State, g: Graph, e: Expression)
    requires Standing(w, T, l, s, g, e)
    ensures var x, n := Position(l, OfExpr(e)), LoweredNode(l, s, e);
      && x < |l| && l[x] == OfExpr(e) && s.memo[x] == L.NodeAt(n) && n < |g.nodes| == |s.nodes| == |s.owner|
      && s.owner[n] == x && g.nodes == s.nodes && g.nodes[n].party == Holder(e) && Sync(g)
      && L.Wf(ProgramOf(l), s) && B.WellTyped(ProgramOf(l), SettingOf(w, T, l))
  {
    hide TypedListing, B.WellTyped, L.Wf, L.ListsOk, L.Owned, Position, B.GraphFrom;
    var x, p, st := Position(l, OfExpr(e)), ProgramOf(l), SettingOf(w, T, l);
    M.GraphFacts(p, s, st, g);
    LoweredToNode(w, T, l, s, e);
    M.NodeOwner(p, s, st, x);
    ExprParty(l, e);
  }

  lemma LoweredToNode(w: World, T: nat, l: Listing, s: L.State, e: Expression)
    requires TypedListing(w, T, l) && OfExpr(e) in l && Position(l, OfExpr(e)) in s.memo && L.Wf(ProgramOf(l), s)
    ensures s.memo[Position(l, OfExpr(e))].NodeAt?
  {
    var x := Position(l, OfExpr(e));
    assert ItemTyped(w, T, l[x]);
    ExprYields(l, e);
    hide TypedListing, L.ListsOk, L.Owned, Position;
    assert L.Mirrored(ProgramOf(l), s, x);
  }

  predicate GivenFrom(e: Expression) {
    e.Secret? || e.Given?
  }

  /** The node of an expression has no in-edge if it is given from outside, and then is an input. */
  lemma GivenIsInput(w: World, T: nat, l: Listing, s: L.State, g: Graph, e: Expression)
    requires Standing(w, T, l, s, g, e) && GivenFrom(e)
    ensures var n := LoweredNode(l, s, e);
      n < |g.nodes| && Sync(g) && g.nodes[n].IsIO() && !IsRandom(g, n) && !Arrived(g, n)
  {
    ListedNode(w, T, l, s, g, e);
    hide TypedListing, B.WellTyped, L.Wf, Position;
    var n := LoweredNode(l, s, e);
    NodeKinds(ProgramOf(l), s, n);
    NoInEdges(w, T, l, s, g, n);
  }

  lemma NoInEdges(w: World, T: nat, l: Listing, s: L.State, g: Graph, n: NodeId)
    requires w.p > 0 && B.GraphFrom(ProgramOf(l), s, SettingOf(w, T, l), g) && n < |s.ins| && s.ins[n] == []
    ensures n < |g.nodes| && g.ins[n] == []
  {
    hide B.WellTyped, L.Mirrored, L.Owned;
    L.ListSizes(s);
  }

  /** Otherwise it has one in-edge, by the operation of the expression. */
  lemma ComputedBy(w: World, T: nat, l: Listing, s: L.State, g: Graph, e: Expression) returns (o: Operation)
    requires Standing(w, T, l, s, g, e) && !GivenFrom(e)
    ensures var n, x := LoweredNode(l, s, e), Position(l, OfExpr(e));
      && n < |g.nodes| && Sync(g) && g.ins[n] == [o] && Has(g, o) && o.output == n && x < |l|
      && o.op == ProgramOf(l)[x].op && l[x] == OfExpr(e)
      && (L.Simple(o.op) ==>
           && L.Imported(ProgramOf(l), s.memo, ProgramOf(l)[x].operands)
           && o.inputs == L.SourceNodes(ProgramOf(l), s.memo, ProgramOf(l)[x].operands))
  {
    ListedNode(w, T, l, s, g, e);
    var x, p, st := Position(l, OfExpr(e)), ProgramOf(l), SettingOf(w, T, l);
    NotGiven(w, T, l, x);
    hide TypedListing, B.WellTyped, L.Wf, Position, B.GraphFrom, L.SourceNodes, L.Imported;
    o := M.InEdgeOf(p, s, st, g, x);
    var y := B.FromFinished(p, s, st, g, o);
  }

  lemma NotGiven(w: World, T: nat, l: Listing, x: nat)
    requires TypedListing(w, T, l) && x < |l| && l[x].OfExpr? && !GivenFrom(l[x].e)
    ensures !ProgramOf(l)[x].op.INPUT?
  {
    assert ItemTyped(w, T, l[x]);
    hide TypedListing, Position;
  }

  /** No node of an expression is random in the graph as built. */
  lemma NeverRandom(w: World, T: nat, l: Listing, s: L.State, g: Graph, e: Expression)
    requires Standing(w, T, l, s, g, e)
    ensures LoweredNode(l, s, e) < |g.nodes| && Sync(g) && !IsRandom(g, LoweredNode(l, s, e))
  {
    hide Standing;
    if GivenFrom(e) {
      GivenIsInput(w, T, l, s, g, e);
    } else {
      var o := ComputedBy(w, T, l, s, g, e);
    }
  }

  // ----- Where a share comes from

  /** The expression a share was before it was sent. */
  function BeforeSending(e: Expression): Expression {
    if e.Transit? then e.source else e
  }

  lemma SourceStands(w: World, T: nat, l: Listing, s: L.State, g: Graph, e: Expression)
    requires Standing(w, T, l, s, g, e) && e.Transit?
    ensures Standing(w, T, l, s, g, e.source)
  {
    hide TypedListing, B.WellTyped, L.Wf, Position;
    assert l[Position(l, OfExpr(e))] == OfExpr(e) && Parts(OfExpr(e)) == [OfExpr(e.source)];
    G.PartReached(w, T, l, s, Position(l, OfExpr(e)), OfExpr(e.source));
  }

  lemma TransitSource(w: World, T: nat, l: Listing, s: L.State, g: Graph, e: Expression)
    requires Standing(w, T, l, s, g, e) && e.Transit?
    ensures var n := LoweredNode(l, s, e);
      n < |g.nodes| && Sync(g) && Arrived(g, n) && g.ins[n][0].inputs[0] == LoweredNode(l, s, e.source)
  {
    var o := ComputedBy(w, T, l, s, g, e);
    var x := Position(l, OfExpr(e));
    SourceOperand(w, T, l, x);
    hide Standing, Position;
    B.NodeSources(ProgramOf(l), s.memo, 0, ProgramOf(l)[x].operands);
  }

  lemma SourceOperand(w: World, T: nat, l: Listing, x: nat)
    requires TypedListing(w, T, l) && x < |l| && l[x].OfExpr? && l[x].e.Transit?
    ensures ProgramOf(l)[x].op.TRANSIT? && ProgramOf(l)[x].operands == [Position(l, OfExpr(l[x].e.source))]
    ensures B.IsNode(ProgramOf(l), Position(l, OfExpr(l[x].e.source)))
  {
    assert ItemTyped(w, T, l[x]);
    hide TypedListing, Position;
    assert Parts(l[x]) == [OfExpr(l[x].e.source)];
    PartNode(w, T, l, x, OfExpr(l[x].e.source));
  }

  /** The origin of a share is the node of the expression it was before it was sent. */
  lemma BeforeIs(w: World, T: nat, l: Listing, s: L.State, g: Graph, e: Expression)
    requires Standing(w, T, l, s, g, e)
    ensures var n := LoweredNode(l, s, e);
      && n < |g.nodes| && Sync(g) && Before(g, n) == LoweredNode(l, s, BeforeSending(e))
      && BeforeParty(g, n) == Holder(BeforeSending(e)) && !IsRandom(g, Before(g, n))
  {
    hide Standing;
    if e.Transit? {
      TransitSource(w, T, l, s, g, e);
      SourceStands(w, T, l, s, g, e);
      NodeParty(w, T, l, s, g, e.source);
      NeverRandom(w, T, l, s, g, e.source);
    } else {
      NotArrived(w, T, l, s, g, e);
      NodeParty(w, T, l, s, g, e);
      NeverRandom(w, T, l, s, g, e);
    }
  }

  lemma NodeParty(w: World, T: nat, l: Listing, s: L.State, g: Graph, e: Expression)
    requires Standing(w, T, l, s, g, e)
    ensures LoweredNode(l, s, e) < |g.nodes| && g.nodes[LoweredNode(l, s, e)].party == Holder(e)
  {
    ListedNode(w, T, l, s, g, e);
  }

  lemma NotArrived(w: World, T: nat, l: Listing, s: L.State, g: Graph, e: Expression)
    requires Standing(w, T, l, s, g, e) && !e.Transit?
    ensures LoweredNode(l, s, e) < |g.nodes| && Sync(g) && !Arrived(g, LoweredNode(l, s, e))
  {
    if GivenFrom(e) {
      GivenIsInput(w, T, l, s, g, e);
    } else {
      var o := ComputedBy(w, T, l, s, g, e);
      NoTransit(w, T, l, Position(l, OfExpr(e)));
    }
  }

  lemma NoTransit(w: World, T: nat, l: Listing, x: nat)
    requires TypedListing(w, T, l) && x < |l| && l[x].OfExpr? && !l[x].e.Transit?
    ensures !ProgramOf(l)[x].op.TRANSIT?
  {
    assert ItemTyped(w, T, l[x]);
    hide TypedListing, Position;
  }

  // ----- The yielded output

  /** The output is listed and lowered, and g is the graph that was built for it. */
  ghost predicate Yielded(w: World, T: nat, shares: seq<Expression>, to: Party, s: L.State, g: Graph) {
    && SoundShares(w, T, shares) && to in w.parties && NoDup(w.parties)
    && Standing(w, T, YieldListing(shares, to), s, g, Reconstruct(SentTo(shares, to), to))
  }

  /** Its in-edge is the reconstruction from the nodes of the shares sent to the receiver. */
  lemma YieldedBy(w: World, T: nat, shares: seq<Expression>, to: Party, s: L.State, g: Graph) returns (o: Operation)
    requires Yielded(w, T, shares, to, s, g)
    ensures var l, es := YieldListing(shares, to), SentTo(shares, to);
      var n := LoweredNode(l, s, Reconstruct(es, to));
      && n < |g.nodes| && Sync(g) && g.ins[n] == [o] && Has(g, o) && o.output == n && o.op.RECONSTRUCT?
      && |o.inputs| == |es| && AllNodes(g, o.inputs)
      && forall i :: 0 <= i < |es| ==> Standing(w, T, l, s, g, es[i]) && o.inputs[i] == LoweredNode(l, s, es[i])
  {
    hide YieldListing, SoundShares;
    var l, es := YieldListing(shares, to), SentTo(shares, to);
    var e := Reconstruct(es, to);
    o := ComputedBy(w, T, l, s, g, e);
    var x := Position(l, OfExpr(e));
    assert TypedListing(w, T, l);
    ShareOperands(w, T, l, x);
    hide Standing, Position, L.SourceNodes, L.Imported, ProgramOf;
    B.NodeSources(ProgramOf(l), s.memo, 0, ProgramOf(l)[x].operands);
    forall i | 0 <= i < |es|
      ensures Standing(w, T, l, s, g, es[i]) && o.inputs[i] == LoweredNode(l, s, es[i]) && o.inputs[i] < |g.nodes|
    {
      ShareStands(w, T, l, s, g, e, es[i]);
    }
  }

  lemma ShareStands(w: World, T: nat, l: Listing, s: L.State, g: Graph, e: Expression, d: Expression)
    requires Standing(w, T, l, s, g, e)
    requires OfExpr(d) in l && Position(l, OfExpr(d)) in s.memo
    ensures Standing(w, T, l, s, g, d) && LoweredNode(l, s, d) < |g.nodes|
  {
    hide TypedListing, Position, B.GraphFrom;
    ListedNode(w, T, l, s, g, d);
  }

  lemma ShareOperands(w: World, T: nat, l: Listing, x: nat)
    requires TypedListing(w, T, l) && x < |l| && l[x].OfExpr? && l[x].e.Reconstruct?
    ensures var p, es := ProgramOf(l), l[x].e.shares;
      && p[x].op.RECONSTRUCT? && |p[x].operands| == |es| && forall i :: 0 <= i < |es| ==>
           OfExpr(es[i]) in l && p[x].operands[i] == Position(l, OfExpr(es[i])) && B.IsNode(p, p[x].operands[i])
  {
    assert ItemTyped(w, T, l[x]);
    hide TypedListing, Position, B.IsNode;
    var es := l[x].e.shares;
    forall i | 0 <= i < |es| ensures OfExpr(es[i]) in l && B.IsNode(ProgramOf(l), Position(l, OfExpr(es[i]))) {
      assert Parts(l[x])[i] == OfExpr(es[i]);
      PartNode(w, T, l, x, OfExpr(es[i]));
    }
  }

  /** Who held the shares before they were sent to the receiver. */
  function Senders(shares: seq<Expression>, to: Party): (r: seq<Party>)
    ensures |r| == |shares|
  {
    seq(|shares|, i requires 0 <= i < |shares| => Holder(BeforeSending(Transfer(shares[i], to))))
  }

  /** All different, unless the receiver was sent its own share by another party. */
  lemma SendersApart(w: World, T: nat, shares: seq<Expression>, to: Party, k: nat)
    requires SoundShares(w, T, shares) && NoDup(w.parties) && k < |w.parties| && w.parties[k] == to
    ensures NoDup(Senders(shares, to)) <==> Holder(BeforeSending(shares[k])) == to
  {
    var r, q := Senders(shares, to), Holder(BeforeSending(shares[k]));
    assert Sound(w, T, shares[k]);
    forall i | 0 <= i < |r| ensures r[i] == if i == k then q else w.parties[i] {
      assert IsShare(shares[i], w.parties[i]);
    }
    if q == to {
      assert r == w.parties;
    } else {
      SenderInside(w, T, shares[k]);
      var j :| 0 <= j < |w.parties| && w.parties[j] == q;
      assert r[j] == r[k];
    }
  }

  lemma SenderInside(w: World, T: nat, e: Expression)
    requires Sound(w, T, e)
    ensures Holder(BeforeSending(e)) in w.parties
  {
  }

  lemma {:induction false} NoRandomOrigins(g: Graph, xs: seq<NodeId>, src: set<Party>)
    requires Sync(g) && AllNodes(g, xs) && forall i :: 0 <= i < |xs| ==> !IsRandom(g, Before(g, xs[i]))
    ensures RandomDsts(g, xs, src) == 0
  {
    if xs != [] { NoRandomOrigins(g, xs[..|xs| - 1], src); }
  }

  /** The pre-check: accepted if and only if all senders differ and the output is marked as one. */
  lemma YieldAccepted(w: World, T: nat, shares: seq<Expression>, to: Party, s: L.State, g: Graph, src: set<Party>)
    requires Yielded(w, T, shares, to, s, g)
    ensures var n := LoweredNode(YieldListing(shares, to), s, Reconstruct(SentTo(shares, to), to));
      && n < |g.nodes| && Sync(g)
      && (ReconMatch(g, n, src) <==> NoDup(Senders(shares, to)) && g.nodes[n].IsIO())
  {
    hide YieldListing, SoundShares;
    var l, es := YieldListing(shares, to), SentTo(shares, to);
    var o := YieldedBy(w, T, shares, to, s, g);
    hide Standing;
    forall i | 0 <= i < |es|
      ensures BeforeParty(g, o.inputs[i]) == Senders(shares, to)[i] && !IsRandom(g, Before(g, o.inputs[i]))
    {
      BeforeIs(w, T, l, s, g, es[i]);
    }
    assert BeforeParties(g, o.inputs) == Senders(shares, to);
    NoRandomOrigins(g, o.inputs, src);
  }

  // ----- Circuits

  /** Only the shares of a secret that is dealt and not computed with are sent by their dealer. */
  lemma SentByDealer(w: World, T: nat, c: Circuit, k: nat)
    requires |w.parties| > 0 && FromSecrets(w, c) && k < |w.parties|
    ensures Built(w.parties, T, c, 0, 0).Ok?
    ensures Holder(BeforeSending(Built(w.parties, T, c, 0, 0).value.shares[k])) ==
      if c.Shared? then Holder(c.secret) else w.parties[k]
  {
    hide SoundShares, Sound, ProductUpTo, SumUpTo;
    BuiltSound(w, T, c, 0, 0);
    var shares := Built(w.parties, T, c, 0, 0).value.shares;
    assert IsShare(shares[k], w.parties[k]) by { ShareAt(w, T, shares, k); }
    match c
    case Shared(_) =>
    case FromInput(_) =>
    case Scale(a, _) =>
    case Sum(a, b) => SumNotSent(w, T, a, b, k);
    case Product(a, b) => ProductNotSent(w, T, a, b, k);
  }

  lemma ShareAt(w: World, T: nat, shares: seq<Expression>, k: nat)
    requires SoundShares(w, T, shares) && k < |w.parties|
    ensures IsShare(shares[k], w.parties[k])
  {
  }

  lemma SumNotSent(w: World, T: nat, a: Circuit, b: Circuit, k: nat)
    requires |w.parties| > 0 && FromSecrets(w, Sum(a, b)) && k < |w.parties|
    requires Built(w.parties, T, Sum(a, b), 0, 0).Ok?
    ensures Built(w.parties, T, Sum(a, b), 0, 0).value.shares[k].Binary?
  {
    hide SoundShares, Sound, SumUpTo, ProductUpTo;
    var l := Built(w.parties, T, a, 0, 0).value;
    var r := Built(w.parties, T, b, l.polys, l.muls).value;
    BuiltSound(w, T, a, 0, 0);
    BuiltSound(w, T, b, l.polys, l.muls);
    SameHolders(w, T, l.shares, r.shares);
    SumSucceeds(l.shares, r.shares, |w.parties|);
  }

  lemma SameHolders(w: World, T: nat, l: seq<Expression>, r: seq<Expression>)
    requires SoundShares(w, T, l) && SoundShares(w, T, r)
    ensures forall j :: 0 <= j < |l| ==> Holder(l[j]) == Holder(r[j])
  {
  }

  lemma ProductNotSent(w: World, T: nat, a: Circuit, b: Circuit, k: nat)
    requires |w.parties| > 0 && FromSecrets(w, Product(a, b)) && k < |w.parties|
    requires Built(w.parties, T, Product(a, b), 0, 0).Ok?
    ensures !Built(w.parties, T, Product(a, b), 0, 0).value.shares[k].Transit?
  {
    hide SoundShares, Sound, SumUpTo, ProductUpTo;
    var l := Built(w.parties, T, a, 0, 0).value;
    var r := Built(w.parties, T, b, l.polys, l.muls).value;
    BuiltSound(w, T, a, 0, 0);
    BuiltSound(w, T, b, l.polys, l.muls);
    ShareIsSum(w, T, r.polys, r.muls, l.shares, r.shares, |w.parties|, k);
  }

  /**
   * In the graph built for a circuit, whoever is corrupted, the pre-check accepts the output
   * yielded to a party, for every set of source parties, exactly if it is marked as an output and
   * is not a secret dealt by another party and yielded as it is: then the receiver's own share
   * comes from the dealer, as does the dealer's.
   */
  lemma CircuitYieldAccepted(w: World, T: nat, c: Circuit, to: Party, s: L.State, g: Graph, src: set<Party>)
    requires WfWorld(w) && w.p > 0 && T >= 1 && |w.parties| >= 2 * T + 1 && FromSecrets(w, c) && to in w.parties
    requires var l := CircuitListing(w.parties, T, c, to);
      B.GraphFrom(ProgramOf(l), s, SettingOf(w, T, l), g) && OutputOf(w.parties, T, c, to) in s.memo
    ensures var x := OutputOf(w.parties, T, c, to);
      && s.memo[x].NodeAt? && s.memo[x].n < |g.nodes| && Sync(g)
      && (ReconMatch(g, s.memo[x].n, src) <==>
          g.nodes[s.memo[x].n].IsIO() && !(c.Shared? && Holder(c.secret) != to))
  {
    hide SoundShares, YieldListing, TypedListing, B.GraphFrom, ReconMatch, WfWorld, Senders;
    var k :| 0 <= k < |w.parties| && w.parties[k] == to;
    SentByDealer(w, T, c, k);
    BuiltSound(w, T, c, 0, 0);
    CircuitTyped(w, T, c, to);
    WorldParties(w);
    var shares := Built(w.parties, T, c, 0, 0).value.shares;
    OutputListed(w.parties, T, c, to);
    hide Built;
    YieldAccepted(w, T, shares, to, s, g, src);
    SendersApart(w, T, shares, to, k);
    ListedNode(w, T, YieldListing(shares, to), s, g, Reconstruct(SentTo(shares, to), to));
  }
}
