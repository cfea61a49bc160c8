// How the rewriting loop chooses the next graph among the candidates of the five rewriters.
//
// The lists of candidates come in an unspecified order, because the rewriters iterate over
// hash sets; whether a candidate is acceptable depends only on its potential and its key,
// which are the same for all results of one replacement. So whenever some rewrite of the
// graph is acceptable, a candidate in one of the lists is.
module Selection {
  import opened Graphs
  import opened Counters
  import opened Semantics
  import opened Patterns
  import opened Sharing
  import opened SharingCounts
  import opened Reconstruction
  import opened ReconstructionCounts
  import opened Transformers
  import opened SharingTransformers
  import opened ReconstructionTransformer
  import opened Rewriting
  import opened Potentials
  import opened Hashing
  import opened Results

  // ----- A rewrite is determined up to list order

  lemma {:induction false} AddedLists(g: Graph, es: seq<Operation>, n: NodeId, x: Operation)
    requires Shape(g) && AllInRange(g, es) && n < |g.nodes|
    ensures multiset(WithEdges(g, es).ins[n])[x] == multiset(g.ins[n])[x] + if x.output == n then multiset(es)[x] else 0
  {
    if es != [] {
      var k := |es| - 1;
      assert es == es[..k] + [es[k]];
      assert InRange(g, es[k]);
      AddedLists(g, es[..k], n, x);
    }
  }

  lemma {:induction false} RemovedLists(g: Graph, es: seq<Operation>, n: NodeId, x: Operation)
    requires Good(g) && AllPresent(g, es) && n < |g.nodes|
    ensures multiset(WithoutEdges(g, es).ins[n])[x] + (if x.output == n then multiset(es)[x] else 0)
         == multiset(g.ins[n])[x]
  {
    hide SyncAt;
    if es != [] {
      var k := |es| - 1;
      assert es == es[..k] + [es[k]];
      RemovedLists(g, es[..k], n, x);
      WithoutEdgesGood(g, es[..k]);
      var m := WithoutEdges(g, es[..k]);
      assert Has(g, es[k]) && es[k] !in es[..k];
      assert Has(m, es[k]);
      RemoveFirstCount(m.ins[es[k].output], es[k]);
    }
  }

  lemma {:induction false} ListCount(s: seq<Operation>, S: set<Operation>, x: Operation)
    requires Lists(s, S)
    ensures multiset(s)[x] == if x in S then 1 else 0
  {
    if s != [] {
      var k := |s| - 1;
      assert s == s[..k] + [s[k]] && s[k] !in s[..k];
      ListCount(s[..k], S - {s[k]}, x);
    }
  }

  lemma ReplacedGood(g: Graph, elim: set<Operation>, add: set<Operation>, r: Graph)
    requires Good(g) && Replaced(g, elim, add, r) && forall e :: e in elim ==> Has(g, e)
    ensures Good(r) && r.nodes == g.nodes && r.live == g.live && r.corrupted == g.corrupted
  {
    hide SyncAt;
    var es, fs :|
      Lists(es, elim) && Lists(fs, add) && AllInRange(g, es) && AllInRange(g, fs) && r == Rewrite(g, es, fs);
    forall i | 0 <= i < |es| ensures Has(g, es[i]) { assert es[i] in elim; }
    RewriteGood(g, es, fs);
  }

  lemma ReplacedLists(g: Graph, elim: set<Operation>, add: set<Operation>, r: Graph, n: NodeId, x: Operation)
    requires Good(g) && Replaced(g, elim, add, r) && n < |g.nodes| && forall e :: e in elim ==> Has(g, e)
    requires Good(r) && r.nodes == g.nodes
    ensures multiset(r.ins[n])[x] + (if x.output == n && x in elim then 1 else 0)
         == multiset(g.ins[n])[x] + (if x.output == n && x in add then 1 else 0)
  {
    hide SyncAt;
    var es, fs :|
      Lists(es, elim) && Lists(fs, add) && AllInRange(g, es) && AllInRange(g, fs) && r == Rewrite(g, es, fs);
    forall i | 0 <= i < |es| ensures Has(g, es[i]) { assert es[i] in elim; }
    RemovedLists(g, es, n, x);
    var m := WithoutEdges(g, es);
    assert AllInRange(m, fs) by {
      forall i | 0 <= i < |fs| ensures InRange(m, fs[i]) { assert InRange(g, fs[i]); }
    }
    AddedLists(m, fs, n, x);
    ListCount(es, elim, x);
    ListCount(fs, add, x);
  }

  /** Two results of the same replacement differ in list order only. */
  lemma SameReplacement(g: Graph, elim: set<Operation>, add: set<Operation>, r: Graph, s: Graph)
    requires Good(g) && Replaced(g, elim, add, r) && Replaced(g, elim, add, s) && forall e :: e in elim ==> Has(g, e)
    ensures Good(r) && Good(s) && PotentialOf(r) == PotentialOf(s) && KeyOf(r) == KeyOf(s)
  {
    hide SyncAt, Replaced, PotentialOf;
    ReplacedGood(g, elim, add, r);
    ReplacedGood(g, elim, add, s);
    forall n | 0 <= n < |g.nodes| ensures multiset(r.ins[n]) == multiset(s.ins[n]) {
      forall x ensures multiset(r.ins[n])[x] == multiset(s.ins[n])[x] {
        ReplacedLists(g, elim, add, r, n, x);
        ReplacedLists(g, elim, add, s, n, x);
      }
    }
    OrderIrrelevant(r, s);
  }

  // ----- Acceptable candidates

  /** Strictly smaller potential, and not a graph the loop has been at. */
  ghost predicate Acceptable(g: Graph, considered: set<Key>, r: Graph)
    requires Sync(g) && Sync(r)
  {
    Less(PotentialOf(r), PotentialOf(g)) && KeyOf(r) !in considered
  }

  ghost predicate Offers(g: Graph, src: Sources, cs: seq<Candidate>)
    requires Sync(g)
  {
    forall i :: 0 <= i < |cs| ==>
      Offered(g, src, cs[i].node, cs[i].graph) && Good(cs[i].graph) && cs[i].graph.randomCnt == g.randomCnt
  }

  /** The first acceptable candidate of a list. */
  ghost predicate FirstAcceptable(g: Graph, considered: set<Key>, cs: seq<Candidate>, i: nat)
    requires Sync(g) && i < |cs| && forall j :: 0 <= j < |cs| ==> Sync(cs[j].graph)
  {
    && Acceptable(g, considered, cs[i].graph)
    && forall j :: 0 <= j < i ==> !Acceptable(g, considered, cs[j].graph)
  }

  /** The chosen graph is no worse than the first acceptable candidate of this list. */
  ghost predicate NoWorse(g: Graph, considered: set<Key>, best: Option<Candidate>, cs: seq<Candidate>)
    requires Sync(g)
  {
    && (forall j :: 0 <= j < |cs| ==> Sync(cs[j].graph))
    && (best.Some? ==> Sync(best.value.graph))
    && (forall i :: 0 <= i < |cs| && FirstAcceptable(g, considered, cs, i) ==>
          best.Some? && !Less(PotentialOf(cs[i].graph), PotentialOf(best.value.graph)))
  }

  ghost predicate IsChoice(g: Graph, src: Sources, considered: set<Key>, best: Option<Candidate>)
    requires Sync(g)
  {
    best.Some? ==>
      && Offered(g, src, best.value.node, best.value.graph) && Good(best.value.graph)
      && best.value.graph.randomCnt == g.randomCnt && Acceptable(g, considered, best.value.graph)
  }

  /** The new choice is the old one or strictly better. */
  ghost predicate Improves(current: Option<Candidate>, best: Option<Candidate>)
    requires (current.Some? ==> Sync(current.value.graph)) && (best.Some? ==> Sync(best.value.graph))
  {
    || best == current
    || (best.Some? && (current.Some? ==> Less(PotentialOf(best.value.graph), PotentialOf(current.value.graph))))
  }

  /** The candidate is acceptable and strictly better than the choice so far. */
  ghost predicate Beats(g: Graph, considered: set<Key>, current: Option<Candidate>, c: Candidate)
    requires Sync(g)
  {
    && Sync(c.graph) && Acceptable(g, considered, c.graph)
    && (current.Some? ==> Sync(current.value.graph) && Less(PotentialOf(c.graph), PotentialOf(current.value.graph)))
  }

  /** The first candidate of the list that beats the choice so far, which stands if none does. */
  ghost function Taken(g: Graph, considered: set<Key>, current: Option<Candidate>,
                       cs: seq<Candidate>): Option<Candidate>
    requires Sync(g)
  {
    if cs == [] then current
    else if Beats(g, considered, current, cs[0]) then Some(cs[0])
    else Taken(g, considered, current, cs[1..])
  }

  /** The choice after the first k lists in turn. */
  ghost function RoundChoice(g: Graph, considered: set<Key>, lists: seq<seq<Candidate>>, k: nat): Option<Candidate>
    requires Sync(g) && k <= |lists|
  {
    if k == 0 then None
    else Taken(g, considered, RoundChoice(g, considered, lists, k - 1), lists[k - 1])
  }

  /** The loop over one rewriter's candidates: it takes the first that beats the choice so far. */
  method Consider(g: Graph, src: Sources, considered: set<Key>, current: Option<Candidate>, cs: seq<Candidate>)
    returns (best: Option<Candidate>)
    requires Good(g) && Offers(g, src, cs) && IsChoice(g, src, considered, current)
    ensures best == Taken(g, considered, current, cs)
    ensures IsChoice(g, src, considered, best) && Improves(current, best) && NoWorse(g, considered, best, cs)
  {
    hide SyncAt, Offered, PotentialOf;
    var gp := ComputePotential(g);
    best := current;
    for i := 0 to |cs|
      invariant best == current && Taken(g, considered, current, cs) == Taken(g, considered, current, cs[i..])
      invariant forall j :: 0 <= j < i ==>
        !(Acceptable(g, considered, cs[j].graph)
          && (current.None? || Less(PotentialOf(cs[j].graph), PotentialOf(current.value.graph))))
    {
      var p := ComputePotential(cs[i].graph);
      var key := KeyFor(cs[i].graph);
      var better := true;
      if current.Some? {
        var q := ComputePotential(current.value.graph);
        better := Less(p, q);
      }
      if Less(p, gp) && better && key !in considered {
        best := Some(cs[i]);
        return;
      }
    }
  }

  method KeyFor(g: Graph) returns (k: Key)
    ensures k == KeyOf(g)
  {
    var h := HashGraph(g.ins);
    k := Key(h, g.randomCnt, g.bubbleCnt);
  }

  /** A better choice stays no worse than everything the old one was no worse than. */
  lemma StillNoWorse(g: Graph, src: Sources, considered: set<Key>, current: Option<Candidate>, best: Option<Candidate>,
                     cs: seq<Candidate>)
    requires Good(g) && Offers(g, src, cs) && IsChoice(g, src, considered, current)
    requires IsChoice(g, src, considered, best)
    requires Improves(current, best) && NoWorse(g, considered, current, cs)
    ensures NoWorse(g, considered, best, cs)
  {
    hide SyncAt, Offered, PotentialOf;
  }

  // ----- The candidate lists cover every possible step

  ghost predicate CoversAddition(g: Graph, cs: seq<Candidate>)
    requires Sync(g)
  {
    && AllAdditionResults(g, cs) && InNodeOrder(cs)
    && forall n, e, first :: 0 <= n < |g.nodes| && e in g.ins[n] && IsAddition(g, e) ==>
         AdditionGraph(g, e, first).randomCnt == g.randomCnt ==> Candidate(n, AdditionGraph(g, e, first)) in cs
  }

  ghost predicate CoversSharing(g: Graph, src: set<Party>, keep: bool, cs: seq<Candidate>)
    requires Sync(g)
  {
    && InNodeOrder(cs) && OnePerNode(cs)
    && (forall c :: c in cs ==> SharingCandidate(g, src, keep, c))
    && (forall n :: 0 <= n < |g.nodes| ==>
          ((exists c :: c in cs && c.node == n) <==> MatchFor(g, n, src, keep) && NoIOTargets(g, n, src)))
  }

  ghost predicate CoversRecon(g: Graph, src: set<Party>, cs: seq<Candidate>)
    requires Sync(g)
  {
    && InNodeOrder(cs) && OnePerNode(cs)
    && (forall c :: c in cs ==> ReconCandidate(g, src, c))
    && (forall n :: 0 <= n < |g.nodes| && ReconMatch(g, n, src) && (n !in Origins(g, n, src) || g.nodes[n].IsIO()) ==>
          exists c :: c in cs && c.node == n)
  }

  /** Some candidate of the list is the same step, up to list order. */
  ghost predicate Represents(cs: seq<Candidate>, r: Graph)
    requires Sync(r)
  {
    exists i ::
      0 <= i < |cs| && Sync(cs[i].graph) && PotentialOf(cs[i].graph) == PotentialOf(r) && KeyOf(cs[i].graph) == KeyOf(r)
  }

  lemma AdditionCovered(env: Env, parties: set<Party>, g: Graph, n: NodeId, r: Graph, cs: seq<Candidate>)
    requires Ready(env, parties, g) && n < |g.nodes| && AdditionResult(g, n, r) && r.randomCnt == g.randomCnt
    requires CoversAddition(g, cs)
    ensures Sync(r) && Represents(cs, r)
  {
    hide SyncAt, PotentialOf, KeyOf, Coherent, WfEnv, AdditionGraph, Replaced;
    var e, first :| e in g.ins[n] && e.op.ADD? && |e.inputs| == 2 && Replaced(g, {e}, {Reversed(e, first)}, r);
    assert Has(g, e) && IsAddition(g, e);
    SameAddition(g, n, e, first, r);
    var c := AdditionGraph(g, e, first);
    assert Candidate(n, c) in cs;
    var i :| 0 <= i < |cs| && cs[i] == Candidate(n, c);
    assert cs[i].graph == c;
  }

  lemma SameAddition(g: Graph, n: NodeId, e: Operation, first: bool, r: Graph)
    requires Good(g) && n < |g.nodes| && e in g.ins[n] && IsAddition(g, e) && Replaced(g, {e}, {Reversed(e, first)}, r)
    ensures var c := AdditionGraph(g, e, first);
            Good(r) && Good(c) && PotentialOf(c) == PotentialOf(r) && KeyOf(c) == KeyOf(r) && c.randomCnt == r.randomCnt
  {
    hide SyncAt, PotentialOf, KeyOf, Replaced, WithEdge, WithoutEdge;
    var c := AdditionGraph(g, e, first);
    Singleton(g, e, Reversed(e, first));
    AdditionGraphResult(g, n, e, first);
    SameReplacement(g, {e}, {Reversed(e, first)}, r, c);
    SameRandom(r, c);
  }

  lemma SameRandom(r: Graph, c: Graph)
    requires KeyOf(r) == KeyOf(c)
    ensures r.randomCnt == c.randomCnt
  {
    hide GraphHash;
  }

  lemma SharingCovered(env: Env, parties: set<Party>, g: Graph, src: set<Party>, keep: bool, n: NodeId, r: Graph,
                       cs: seq<Candidate>)
    requires Ready(env, parties, g) && src <= parties && |src| == g.T + if keep then 0 else 1
    requires SharingCandidate(g, src, keep, Candidate(n, r)) && r.randomCnt == g.randomCnt
    requires CoversSharing(g, src, keep, cs)
    ensures Sync(r) && Represents(cs, r)
  {
    hide SyncAt, PotentialOf, KeyOf, Coherent, WfEnv, SharingMatch, ElimSet, AddSet, SourceTargets, Replaced;
    SharingFilter(env, parties, g, n, src, keep, r);
    assert exists c :: c in cs && c.node == n;
    var c :| c in cs && c.node == n;
    ElimPresent(env, parties, g, n, src);
    SharingSame(g, n, src, keep, r, c.graph);
    var i :| 0 <= i < |cs| && cs[i] == c;
    assert cs[i].graph == c.graph;
  }

  lemma SharingSame(g: Graph, n: NodeId, src: set<Party>, keep: bool, r: Graph, s: Graph)
    requires Good(g) && n < |g.nodes| && SharingResult(g, n, src, keep, r) && SharingResult(g, n, src, keep, s)
    requires forall e :: e in ElimSet(g, n, src) ==> Has(g, e)
    ensures Good(r) && Good(s) && PotentialOf(r) == PotentialOf(s) && KeyOf(r) == KeyOf(s)
  {
    hide SyncAt, PotentialOf, KeyOf, OldEvals, MovedTransits, NewEvals, Replaced;
    SameReplacement(g, ElimSet(g, n, src), AddSet(g, n, src, keep), r, s);
  }

  lemma ReconCovered(env: Env, parties: set<Party>, g: Graph, src: set<Party>, n: NodeId, r: Graph, cs: seq<Candidate>)
    requires Ready(env, parties, g) && src <= parties && g.T <= |src| <= g.T + 1
    requires ReconCandidate(g, src, Candidate(n, r)) && r.randomCnt == g.randomCnt && CoversRecon(g, src, cs)
    ensures Sync(r) && Represents(cs, r)
  {
    hide SyncAt, PotentialOf, KeyOf, Coherent, WfEnv, RewritableReconstruction, ReconElim, ReconAdd, Replaced, Origins;
    MatchSetting(env, parties, g, n, src);
    ReconAdmissible(env, parties, g, n, src);
    PassesFilter(env, parties, g, src, Candidate(n, r));
    var c :| c in cs && ReconCandidate(g, src, c) && c.node == n;
    SameReplacement(g, ReconElim(g, n, src), ReconAdd(g, n, src), r, c.graph);
    var i :| 0 <= i < |cs| && cs[i] == c;
  }

  /** Five lists, one for each rewriter, with everything they promise. */
  ghost predicate CoveringLists(g: Graph, src: Sources, lists: seq<seq<Candidate>>)
    requires Sync(g)
  {
    && |lists| == 5 && (forall k :: 0 <= k < 5 ==> Offers(g, src, lists[k]))
    && CoversAddition(g, lists[0])
    && CoversSharing(g, src.some, true, lists[1]) && CoversSharing(g, src.more, false, lists[2])
    && CoversRecon(g, src.some, lists[3]) && CoversRecon(g, src.more, lists[4])
  }

  lemma StepCovered(env: Env, parties: set<Party>, g: Graph, src: Sources, lists: seq<seq<Candidate>>, r: Graph)
    requires Ready(env, parties, g) && GoodSources(parties, g.T, src) && CoveringLists(g, src, lists)
    requires RewriteStep(g, src, r)
    ensures Sync(r) && exists k :: 0 <= k < 5 && Represents(lists[k], r)
  {
    hide SyncAt, Coherent, WfEnv, AdditionResult, SharingCandidate, ReconCandidate, Represents;
    hide CoversAddition, CoversSharing, CoversRecon, Offers;
    var n :| Offered(g, src, n, r);
    if AdditionResult(g, n, r) {
      AdditionCovered(env, parties, g, n, r, lists[0]);
    } else if SharingCandidate(g, src.some, true, Candidate(n, r)) {
      SharingCovered(env, parties, g, src.some, true, n, r, lists[1]);
    } else if SharingCandidate(g, src.more, false, Candidate(n, r)) {
      SharingCovered(env, parties, g, src.more, false, n, r, lists[2]);
    } else if ReconCandidate(g, src.some, Candidate(n, r)) {
      ReconCovered(env, parties, g, src.some, n, r, lists[3]);
    } else {
      ReconCovered(env, parties, g, src.more, n, r, lists[4]);
    }
  }

  /** No step at all is acceptable if no candidate is. */
  lemma NothingAcceptable(env: Env, parties: set<Party>, g: Graph, src: Sources, considered: set<Key>,
                          lists: seq<seq<Candidate>>)
    requires Ready(env, parties, g) && GoodSources(parties, g.T, src) && CoveringLists(g, src, lists)
    requires forall k :: 0 <= k < 5 ==> NoWorse(g, considered, None, lists[k])
    ensures forall r :: RewriteStep(g, src, r) ==> Sync(r) && !Acceptable(g, considered, r)
  {
    hide SyncAt, Coherent, WfEnv, PotentialOf, KeyOf, RewriteStep, NoWorse, Offers;
    hide CoversAddition, CoversSharing, CoversRecon;
    forall r | RewriteStep(g, src, r) ensures Sync(r) && !Acceptable(g, considered, r) {
      StepCovered(env, parties, g, src, lists, r);
      var k :| 0 <= k < 5 && Represents(lists[k], r);
      var i :| 0 <= i < |lists[k]| && Sync(lists[k][i].graph)
        && PotentialOf(lists[k][i].graph) == PotentialOf(r) && KeyOf(lists[k][i].graph) == KeyOf(r);
      NoneFirst(g, src, considered, lists[k], i);
    }
  }

  lemma {:induction false} NoneFirst(g: Graph, src: Sources, considered: set<Key>, cs: seq<Candidate>, i: nat)
    requires Good(g) && Offers(g, src, cs) && NoWorse(g, considered, None, cs) && i < |cs|
    ensures Sync(cs[i].graph) && forall j :: 0 <= j <= i ==> !Acceptable(g, considered, cs[j].graph)
  {
    hide SyncAt, PotentialOf, KeyOf, Offered;
    if i > 0 { NoneFirst(g, src, considered, cs, i - 1); }
    assert !FirstAcceptable(g, considered, cs, i);
  }

  /**
   * One round: the candidates of the five rewriters in turn. The graph chosen is acceptable
   * and no worse than the first acceptable candidate of each rewriter; none is chosen only
   * when no rewrite of the graph is acceptable.
   */
  method PickBest(g: Graph, src: Sources, considered: set<Key>, ghost env: Env, ghost parties: set<Party>)
    returns (best: Option<Candidate>, ghost lists: seq<seq<Candidate>>)
    requires Ready(env, parties, g) && GoodSources(parties, g.T, src)
    ensures IsChoice(g, src, considered, best)
    ensures CoveringLists(g, src, lists) && best == RoundChoice(g, considered, lists, 5)
    ensures forall k :: 0 <= k < 5 ==> NoWorse(g, considered, best, lists[k])
    ensures best.None? ==> forall r :: RewriteStep(g, src, r) ==> Sync(r) && !Acceptable(g, considered, r)
  {
    hide SyncAt, Coherent, WfEnv, AdditionResult, SharingCandidate, ReconCandidate, RewriteStep, PotentialOf, KeyOf;
    hide CoversAddition, CoversSharing, CoversRecon, NoWorse, Acceptable, Offered, Offers, IsChoice, Improves, Taken;
    hide RoundChoice;
    var c0 := Additions(g, src, env, parties);
    var b0 := Consider(g, src, considered, NoChoice(g, src, considered), c0);
    var c1 := Sharings(g, src, true, env, parties);
    var b1 := Consider(g, src, considered, b0, c1);
    var c2 := Sharings(g, src, false, env, parties);
    var b2 := Consider(g, src, considered, b1, c2);
    var c3 := Reconstructions(g, src, false, env, parties);
    var b3 := Consider(g, src, considered, b2, c3);
    var c4 := Reconstructions(g, src, true, env, parties);
    best := Consider(g, src, considered, b3, c4);
    lists := [c0, c1, c2, c3, c4];
    FiveRounds(g, considered, lists);
    StillNoWorse(g, src, considered, b0, b1, c0);
    StillNoWorse(g, src, considered, b1, b2, c0);
    StillNoWorse(g, src, considered, b2, b3, c0);
    StillNoWorse(g, src, considered, b3, best, c0);
    StillNoWorse(g, src, considered, b1, b2, c1);
    StillNoWorse(g, src, considered, b2, b3, c1);
    StillNoWorse(g, src, considered, b3, best, c1);
    StillNoWorse(g, src, considered, b2, b3, c2);
    StillNoWorse(g, src, considered, b3, best, c2);
    StillNoWorse(g, src, considered, b3, best, c3);
    if best.None? {
      assert forall k :: 0 <= k < 5 ==> NoWorse(g, considered, None, lists[k]);
      NothingAcceptable(env, parties, g, src, considered, lists);
    }
  }

  lemma FiveRounds(g: Graph, considered: set<Key>, lists: seq<seq<Candidate>>)
    requires Sync(g) && |lists| == 5
    ensures RoundChoice(g, considered, lists, 5) ==
      Taken(g, considered, Taken(g, considered, Taken(g, considered, Taken(g, considered, Taken(g, considered,
        None, lists[0]), lists[1]), lists[2]), lists[3]), lists[4])
  {
    hide Taken, Sync;
    NextRound(g, considered, lists, 0);
    NextRound(g, considered, lists, 1);
    NextRound(g, considered, lists, 2);
    NextRound(g, considered, lists, 3);
    NextRound(g, considered, lists, 4);
  }

  lemma NextRound(g: Graph, considered: set<Key>, lists: seq<seq<Candidate>>, k: nat)
    requires Sync(g) && k < |lists|
    ensures RoundChoice(g, considered, lists, k + 1) ==
      Taken(g, considered, RoundChoice(g, considered, lists, k), lists[k])
  {
    hide Taken, Sync;
  }

  function NoChoice(g: Graph, ghost src: Sources, ghost considered: set<Key>): (best: Option<Candidate>)
    requires Sync(g)
    ensures best.None? && IsChoice(g, src, considered, best)
  {
    None
  }

  method Additions(g: Graph, ghost src: Sources, ghost env: Env, ghost parties: set<Party>) returns (cs: seq<Candidate>)
    requires Ready(env, parties, g) && GoodSources(parties, g.T, src)
    ensures Offers(g, src, cs) && CoversAddition(g, cs)
  {
    hide SyncAt, Coherent, WfEnv, AdditionResult;
    cs := ApplyAddition(g, env, parties);
    forall i | 0 <= i < |cs| ensures Offered(g, src, cs[i].node, cs[i].graph) && Good(cs[i].graph) {
      assert cs[i] in cs;
      StepReady(env, parties, g, src, cs[i].node, cs[i].graph);
    }
  }

  method Sharings(g: Graph, src: Sources, keep: bool, ghost env: Env,
                  ghost parties: set<Party>) returns (cs: seq<Candidate>)
    requires Ready(env, parties, g) && GoodSources(parties, g.T, src)
    ensures Offers(g, src, cs) && CoversSharing(g, if keep then src.some else src.more, keep, cs)
  {
    hide SyncAt, Coherent, WfEnv, SharingCandidate, MatchFor, NoIOTargets;
    cs := ApplySharing(g, if keep then src.some else src.more, keep, env, parties);
    forall i | 0 <= i < |cs| ensures Offered(g, src, cs[i].node, cs[i].graph) && Good(cs[i].graph) {
      assert cs[i] in cs;
      assert cs[i] == Candidate(cs[i].node, cs[i].graph);
      InRangeCandidate(g, if keep then src.some else src.more, keep, cs[i]);
      StepReady(env, parties, g, src, cs[i].node, cs[i].graph);
    }
  }

  lemma InRangeCandidate(g: Graph, src: set<Party>, keep: bool, c: Candidate)
    requires Sync(g) && SharingCandidate(g, src, keep, c)
    ensures c.node < |g.nodes|
  {
  }

  method Reconstructions(g: Graph, src: Sources, more: bool, ghost env: Env,
                         ghost parties: set<Party>) returns (cs: seq<Candidate>)
    requires Ready(env, parties, g) && GoodSources(parties, g.T, src)
    ensures Offers(g, src, cs) && CoversRecon(g, if more then src.more else src.some, cs)
  {
    hide SyncAt, Coherent, WfEnv, ReconMatch, ReconResult, Origins;
    cs := ApplyReconstruction(g, if more then src.more else src.some, env, parties);
    forall i | 0 <= i < |cs| ensures Offered(g, src, cs[i].node, cs[i].graph) && Good(cs[i].graph) {
      assert cs[i] in cs;
      assert cs[i] == Candidate(cs[i].node, cs[i].graph);
      StepReady(env, parties, g, src, cs[i].node, cs[i].graph);
    }
  }
}
