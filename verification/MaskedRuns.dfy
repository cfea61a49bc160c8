// The rewriting loop on a masked sharing whose corrupted parties are the source parties: its
// first move is the rewrite at the linear coefficient, whatever that does to the solutions.
module MaskedRuns {
  import opened Arith
  import opened Polynomials
  import opened Graphs
  import opened Counters
  import opened Semantics
  import opened Patterns
  import opened Sharing
  import opened SharingCounts
  import opened Transformers
  import opened SharingTransformers
  import opened ReconstructionTransformer
  import opened Rewriting
  import opened Potentials
  import opened Hashing
  import opened Results
  import opened Selection
  import opened SourceParties
  import opened Runs
  import opened Dealing
  import opened DealtRewrites
  import opened Masking
  import opened MaskedRewrites

  /** T parties are corrupted, and the dealer is honest. */
  ghost predicate HonestDealer(N: nat, T: nat, p: int, corrupted: set<Party>) {
    KeptRewrite(N, T, p, Others, 1, corrupted) && MaskFits(N, T, p) && 0 !in corrupted
  }

  lemma DealerFacts(N: nat, T: nat, p: int, corrupted: set<Party>)
    requires HonestDealer(N, T, p, corrupted)
    ensures p > 0 && T >= 1 && N >= 2 * T + 1 && T + 2 * N < 0x7FFF_FFFF && 0 !in corrupted && |corrupted| == T
  {
    hide Prime, Everyone;
  }

  /** All parties in order, the dealer first. */
  function PartyList(N: nat): (qs: seq<Party>)
    ensures |qs| == N && forall i :: 0 <= i < N ==> qs[i] == i
  {
    seq(N, i requires 0 <= i < N => i)
  }

  /** The source parties of an attempt: the corrupted ones, and the dealer as one more. */
  lemma DealerIsNext(N: nat, T: nat, p: int, corrupted: set<Party>)
    requires HonestDealer(N, T, p, corrupted)
    ensures SourcesOf(PartyList(N), corrupted, T) == Sources(corrupted, corrupted + {0})
    ensures PartySet(PartyList(N)) == Everyone(N) && GoodSources(Everyone(N), T, Sources(corrupted, corrupted + {0}))
  {
    hide Prime, HonestOf, WithFirst, PartyList;
    var parties := PartyList(N);
    assert PartySet(parties) == Everyone(N) by {
      forall q | q in Everyone(N) ensures q in parties { assert parties[q] == q; }
    }
    HonestSize(parties, corrupted);
    DealerFirst(N, corrupted);
  }

  lemma DealerFirst(N: nat, corrupted: set<Party>)
    requires N > 0 && 0 !in corrupted
    ensures |HonestOf(PartyList(N), corrupted)| > 0
    ensures WithFirst(PartyList(N), corrupted, 0) == corrupted
    ensures WithFirst(PartyList(N), corrupted, 1) == corrupted + {0}
  {
    hide PartyList;
    var parties := PartyList(N);
    HonestSnoc(parties, corrupted, 0);
    NoneTaken(parties, corrupted);
    HonestPrefix(parties, corrupted, 1);
    hide HonestOf;
    WithNext(parties, corrupted, 0);
    assert parties[..0 + 1] == parties[..1];
    assert HonestOf(parties, corrupted)[0] == 0;
  }

  // ----- The rewrite at the linear coefficient is acceptable

  lemma NothingReaches(g: Graph)
    requires Sync(g) && forall n :: 0 <= n < |g.nodes| && AtCorrupted(g, n) ==> |g.ins[n]| == 0
    ensures HonestReaching(g) == {}
  {
    hide SyncAt;
    forall n: NodeId | n < |g.nodes| && !AtCorrupted(g, n) ensures !Reaches(g, n) {
      if Reaches(g, n) { var m := LastStep(g, n); }
    }
  }

  lemma LastStep(g: Graph, n: NodeId) returns (m: NodeId)
    requires Sync(g) && n < |g.nodes| && !AtCorrupted(g, n) && Reaches(g, n)
    ensures m < |g.nodes| && AtCorrupted(g, m) && |g.ins[m]| > 0
  {
    hide SyncAt;
    var ns :| Path(g, ns) && ns[0] == n && ns[|ns|-1] < |g.nodes| && AtCorrupted(g, ns[|ns|-1]);
    m := ns[|ns|-1];
    assert Feeds(g, ns[|ns| - 2], ns[|ns| - 2 + 1]);
  }

  lemma CopyIsTarget(N: nat, T: nat, corrupted: set<Party>, i: nat)
    requires 0 < i < N && i in corrupted && T >= 1
    requires Sync(Masked(N, T, corrupted)) && Sync(DealtGraph(N, T, Others))
    ensures T + N + i in SourceTargets(Masked(N, T, corrupted), 1, corrupted)
  {
    hide Sync, Masked, DealtGraph, Target, TargetParty, Sent;
    var g := Masked(N, T, corrupted);
    MaskedLists(N, T, corrupted, 1);
    OutList(N, T, Others, 1);
    MaskedTarget(N, T, corrupted, T + 1 + i);
    assert g.outs[1][i].output == T + 1 + i;
  }

  /** The nodes of corrupted parties are the copies of their shares. */
  lemma CorruptedCopies(N: nat, T: nat, p: int, corrupted: set<Party>, n: NodeId)
    requires HonestDealer(N, T, p, corrupted) && n <= T + 2 * N && AtCorrupted(Masked(N, T, corrupted), n)
    ensures T + N < n < T + 2 * N && n - T - N in corrupted
  {
    hide Masked, Prime, Everyone;
  }

  lemma SomeReaches(N: nat, T: nat, p: int, corrupted: set<Party>)
    requires HonestDealer(N, T, p, corrupted) && Sync(Masked(N, T, corrupted))
    ensures HonestReaching(Masked(N, T, corrupted)) != {}
  {
    hide Masked, HonestReaching, HonestDealer, Feeds, SyncAt, Reaches;
    var i := SomeCorrupted(N, T, p, corrupted);
    ShareFeeds(N, T, corrupted, i);
    FeederCounts(Masked(N, T, corrupted), T + 1 + i, T + N + i);
  }

  lemma FeederCounts(g: Graph, s: NodeId, t: NodeId)
    requires Sync(g) && s < |g.nodes| && t < |g.nodes| && Feeds(g, s, t) && !AtCorrupted(g, s) && AtCorrupted(g, t)
    ensures HonestReaching(g) != {}
  {
    hide Reaches, SyncAt, Feeds;
    CorruptedReaches(g, t);
    FeederReaches(g, s, t);
    assert s in HonestReaching(g);
  }

  lemma ShareFeeds(N: nat, T: nat, corrupted: set<Party>, i: nat)
    requires 0 < i < N && i in corrupted && 0 !in corrupted
    ensures var g := Masked(N, T, corrupted);
      && T + 1 + i < T + N + i < |g.nodes| && Feeds(g, T + 1 + i, T + N + i)
      && !AtCorrupted(g, T + 1 + i) && AtCorrupted(g, T + N + i)
  {
    hide Masked, DealtGraph;
    MaskedLists(N, T, corrupted, T + N + i);
    InList(N, T, Others, T + N + i);
    assert Sending(T + 1 + i, T + N + i) in Masked(N, T, corrupted).ins[T + N + i];
  }

  lemma SomeCorrupted(N: nat, T: nat, p: int, corrupted: set<Party>) returns (i: nat)
    requires HonestDealer(N, T, p, corrupted)
    ensures 0 < i < N && i in corrupted && 0 !in corrupted
  {
    hide Prime;
    i :| i in corrupted;
  }

  lemma MaskedSetting(N: nat, T: nat, p: int, corrupted: set<Party>)
    requires HonestDealer(N, T, p, corrupted)
    ensures Good(Masked(N, T, corrupted)) && Sync(DealtGraph(N, T, Others))
    ensures Ready(Field(N, T, p), Everyone(N), Masked(N, T, corrupted))
    ensures SharingSetting(Field(N, T, p), Everyone(N), Masked(N, T, corrupted), 1, corrupted, true)
    ensures MatchFor(Masked(N, T, corrupted), 1, corrupted, true) && NoIOTargets(Masked(N, T, corrupted), 1, corrupted)
  {
    hide SyncAt, Masked, DealtGraph, Prime, SharingMatch, NoIOTargets, Coherent, WfEnv;
    MaskedHas(N, T, corrupted, Mask(N, T));
    MaskedReady(N, T, p, corrupted);
    CoefficientMatches(N, T, corrupted, 1, corrupted);
    MaskedFilter(N, T, corrupted, 1, corrupted);
  }

  /** Whatever has the nodes and exact counters of the masked sharing has its one bubble. */
  lemma OneBubble(N: nat, T: nat, corrupted: set<Party>, g: Graph)
    requires N > 0 && 0 !in corrupted && Good(g) && g.nodes == MaskedNodes(N, T) && g.corrupted == corrupted
    ensures g.bubbleCnt == 1
  {
    hide SyncAt;
    forall n: NodeId | n < |g.nodes| ensures IsBubble(g, n) <==> n == T + 1 {}
    assert Bubbles(g) == {T + 1};
  }

  lemma FirstMoveRandom(N: nat, T: nat, p: int, corrupted: set<Party>, r: Graph)
    requires HonestDealer(N, T, p, corrupted) && Sync(Masked(N, T, corrupted))
    requires SharingResult(Masked(N, T, corrupted), 1, corrupted, true, r)
    ensures r.randomCnt == Masked(N, T, corrupted).randomCnt
  {
    hide SyncAt, Masked, DealtGraph, Prime, SharingMatch, Coherent, WfEnv, SharingResult, SourceTargets, Everyone;
    hide Field;
    MaskedSetting(N, T, p, corrupted);
    SharingFilter(Field(N, T, p), Everyone(N), Masked(N, T, corrupted), 1, corrupted, true, r);
  }

  lemma FirstMoveDescends(N: nat, T: nat, p: int, corrupted: set<Party>, r: Graph)
    requires HonestDealer(N, T, p, corrupted) && Good(Masked(N, T, corrupted))
    requires SharingResult(Masked(N, T, corrupted), 1, corrupted, true, r)
    ensures Good(r) && Less(PotentialOf(r), PotentialOf(Masked(N, T, corrupted)))
  {
    ReadyStep(N, T, p, corrupted, r);
    assert Sync(Masked(N, T, corrupted)) && Sync(r) && |r.nodes| == |Masked(N, T, corrupted).nodes|;
    hide Masked, HonestReaching, Good, HonestDealer, Sync, SharingResult;
    DealerFacts(N, T, p, corrupted);
    NothingReachesAfter(N, T, p, corrupted, r);
    SomeReaches(N, T, p, corrupted);
    OneBubble(N, T, corrupted, Masked(N, T, corrupted));
    OneBubble(N, T, corrupted, r);
  }

  lemma NothingReachesAfter(N: nat, T: nat, p: int, corrupted: set<Party>, r: Graph)
    requires HonestDealer(N, T, p, corrupted) && Good(Masked(N, T, corrupted))
    requires SharingResult(Masked(N, T, corrupted), 1, corrupted, true, r)
    requires Good(r) && r.nodes == MaskedNodes(N, T) && r.corrupted == corrupted
    ensures HonestReaching(r) == {}
  {
    hide SyncAt, Masked, DealtGraph, Prime, SharingMatch, NoIOTargets, Coherent, WfEnv, SharingResult, SourceTargets;
    hide Everyone, Field;
    var env, g := Field(N, T, p), Masked(N, T, corrupted);
    MaskedSetting(N, T, p, corrupted);
    forall n | 0 <= n < |r.nodes| && AtCorrupted(r, n) ensures |r.ins[n]| == 0 {
      CorruptedCopies(N, T, p, corrupted, n);
      CopyIsTarget(N, T, corrupted, n - T - N);
      SharingDegree(env, Everyone(N), g, 1, corrupted, true, r, n);
    }
    NothingReaches(r);
  }

  lemma ReadyStep(N: nat, T: nat, p: int, corrupted: set<Party>, r: Graph)
    requires HonestDealer(N, T, p, corrupted) && Good(Masked(N, T, corrupted))
    requires SharingResult(Masked(N, T, corrupted), 1, corrupted, true, r)
    ensures Good(r) && r.nodes == MaskedNodes(N, T) && r.corrupted == corrupted
  {
    hide SyncAt, Masked, DealtGraph, Prime, SharingMatch, NoIOTargets, Coherent, WfEnv, SharingResult, Everyone, Field;
    var S := Sources(corrupted, corrupted + {0});
    MaskedSetting(N, T, p, corrupted);
    DealerIsNext(N, T, p, corrupted);
    assert SharingCandidate(Masked(N, T, corrupted), S.some, true, Candidate(1, r));
    FieldThreshold(N, T, p);
    StepReady(Field(N, T, p), Everyone(N), Masked(N, T, corrupted), S, 1, r);
  }

  // ----- The lists of candidates

  lemma MaskedOperators(N: nat, T: nat, p: int, corrupted: set<Party>, n: NodeId, e: Operation)
    requires HonestDealer(N, T, p, corrupted) && Sync(Masked(N, T, corrupted)) && n <= T + 2 * N
    requires e in Masked(N, T, corrupted).ins[n]
    ensures !e.op.ADD? && !e.op.RECONSTRUCT?
  {
    hide Masked, DealtGraph, Prime, Everyone;
    MaskedHas(N, T, corrupted, e);
    EdgeOf(N, T, Others, e);
  }

  lemma NoAddition(N: nat, T: nat, p: int, corrupted: set<Party>, n: NodeId, r: Graph)
    requires HonestDealer(N, T, p, corrupted) && Sync(Masked(N, T, corrupted)) && n <= T + 2 * N
    ensures !AdditionResult(Masked(N, T, corrupted), n, r)
  {
    hide Masked, Sync, HonestDealer, Replaced;
    DealerFacts(N, T, p, corrupted);
    forall e | e in Masked(N, T, corrupted).ins[n] ensures !e.op.ADD? { MaskedOperators(N, T, p, corrupted, n, e); }
  }

  lemma NoReconstruction(N: nat, T: nat, p: int, corrupted: set<Party>, n: NodeId, src: set<Party>)
    requires HonestDealer(N, T, p, corrupted) && Sync(Masked(N, T, corrupted)) && n <= T + 2 * N
    ensures !ReconMatch(Masked(N, T, corrupted), n, src)
  {
    hide Masked, Sync, HonestDealer;
    DealerFacts(N, T, p, corrupted);
    forall e | e in Masked(N, T, corrupted).ins[n]
      ensures !e.op.RECONSTRUCT?
    {
      MaskedOperators(N, T, p, corrupted, n, e);
    }
  }

  /** The dealer's own share is an output: no rewrite without a kept node passes the filter. */
  lemma DealerBlocks(N: nat, T: nat, p: int, corrupted: set<Party>, n: NodeId)
    requires HonestDealer(N, T, p, corrupted) && Good(Masked(N, T, corrupted)) && n <= T + 2 * N
    ensures var g, src := Masked(N, T, corrupted), corrupted + {0};
      !(MatchFor(g, n, src, false) && NoIOTargets(g, n, src))
  {
    hide Masked, SharingMatch, NoIOTargets, Prime, Everyone;
    MaskedSetting(N, T, p, corrupted);
    if SharingMatch(Masked(N, T, corrupted), n, corrupted + {0}) {
      OnlyCoefficientsMatch(N, T, corrupted, n, corrupted + {0});
      MaskedFilter(N, T, corrupted, n, corrupted + {0});
    }
  }

  /** What the five lists look like: one after the other, coefficients 1 to T in the second, nothing else. */
  ghost predicate CoefficientLists(N: nat, T: nat, corrupted: set<Party>, lists: seq<seq<Candidate>>)
    requires N > 0 && Sync(Masked(N, T, corrupted))
  {
    && |lists| == 5 && lists[0] == [] && lists[2] == [] && lists[3] == [] && lists[4] == []
    && |lists[1]| > 0 && lists[1][0].node == 1
    && SharingResult(Masked(N, T, corrupted), 1, corrupted, true, lists[1][0].graph)
  }

  lemma ListsForced(N: nat, T: nat, p: int, corrupted: set<Party>, lists: seq<seq<Candidate>>)
    requires HonestDealer(N, T, p, corrupted) && Good(Masked(N, T, corrupted))
    requires CoveringLists(Masked(N, T, corrupted), Sources(corrupted, corrupted + {0}), lists)
    ensures CoefficientLists(N, T, corrupted, lists)
  {
    OthersEmpty(N, T, p, corrupted, lists);
    SecondList(N, T, p, corrupted, lists[1]);
  }

  lemma OthersEmpty(N: nat, T: nat, p: int, corrupted: set<Party>, lists: seq<seq<Candidate>>)
    requires HonestDealer(N, T, p, corrupted) && Good(Masked(N, T, corrupted))
    requires CoveringLists(Masked(N, T, corrupted), Sources(corrupted, corrupted + {0}), lists)
    ensures lists[0] == [] && lists[2] == [] && lists[3] == [] && lists[4] == []
  {
    hide Masked, HonestDealer, SyncAt, AdditionResult, ReconMatch, MatchFor, NoIOTargets, SharingResult, Offers;
    DealerFacts(N, T, p, corrupted);
    var g := Masked(N, T, corrupted);
    if lists[0] != [] { NoAddition(N, T, p, corrupted, lists[0][0].node, lists[0][0].graph); }
    if lists[2] != [] {
      assert lists[2][0] in lists[2];
      DealerBlocks(N, T, p, corrupted, lists[2][0].node);
    }
    if lists[3] != [] {
      assert lists[3][0] in lists[3];
      NoReconstruction(N, T, p, corrupted, lists[3][0].node, corrupted);
    }
    if lists[4] != [] {
      assert lists[4][0] in lists[4];
      NoReconstruction(N, T, p, corrupted, lists[4][0].node, corrupted + {0});
    }
  }

  lemma SecondList(N: nat, T: nat, p: int, corrupted: set<Party>, cs: seq<Candidate>)
    requires HonestDealer(N, T, p, corrupted) && Good(Masked(N, T, corrupted))
    requires CoversSharing(Masked(N, T, corrupted), corrupted, true, cs)
    ensures |cs| > 0 && cs[0].node == 1 && SharingResult(Masked(N, T, corrupted), 1, corrupted, true, cs[0].graph)
  {
    hide Masked, SyncAt, Prime, Everyone, NoIOTargets, SharingMatch, SharingResult;
    var g := Masked(N, T, corrupted);
    MaskedSetting(N, T, p, corrupted);
    var c :| c in cs && c.node == 1;
    var i :| 0 <= i < |cs| && cs[i] == c;
    assert cs[0] in cs;
    OnlyCoefficientsMatch(N, T, corrupted, cs[0].node, corrupted);
  }

  // ----- Such lists exist

  lemma SomeRewrite(N: nat, T: nat, p: int, corrupted: set<Party>, n: NodeId) returns (r: Graph)
    requires HonestDealer(N, T, p, corrupted) && Good(Masked(N, T, corrupted)) && 0 < n <= T
    ensures SharingCandidate(Masked(N, T, corrupted), corrupted, true, Candidate(n, r))
    ensures Good(r) && r.randomCnt == Masked(N, T, corrupted).randomCnt
  {
    hide Masked, DealtGraph, Prime, SharingMatch, SourceTargets, SyncAt, WfEnv, WellFormed, MovedTransits, OldEvals;
    hide NewEvals, Replaced;
    var env, g := Field(N, T, p), Masked(N, T, corrupted);
    MaskedSetting(N, T, p, corrupted);
    FieldThreshold(N, T, p);
    CoefficientMatches(N, T, corrupted, n, corrupted);
    MaskedFilter(N, T, corrupted, n, corrupted);
    SameReplaced(N, T, corrupted, n, corrupted);
    SharingAdmissible(env, Everyone(N), g, n, corrupted, true);
    r := ReplacedExists(g, ElimSet(g, n, corrupted), AddSet(g, n, corrupted, true));
    SharingFilter(env, Everyone(N), g, n, corrupted, true, r);
  }

  lemma SomeCandidate(N: nat, T: nat, p: int, corrupted: set<Party>, n: NodeId) returns (c: Candidate)
    requires HonestDealer(N, T, p, corrupted) && Good(Masked(N, T, corrupted)) && 0 < n <= T
    ensures CoefficientCandidate(N, T, corrupted, c, n)
  {
    hide Masked, HonestDealer, SharingCandidate, SyncAt;
    var r := SomeRewrite(N, T, p, corrupted, n);
    c := Candidate(n, r);
  }

  /** One candidate for each of the first k coefficients. */
  ghost predicate FirstCoefficients(N: nat, T: nat, corrupted: set<Party>, cs: seq<Candidate>, k: nat)
    requires N > 0 && Sync(Masked(N, T, corrupted))
  {
    |cs| == k <= T && forall i :: 0 <= i < k ==> CoefficientCandidate(N, T, corrupted, cs[i], i + 1)
  }

  ghost predicate CoefficientCandidate(N: nat, T: nat, corrupted: set<Party>, c: Candidate, n: NodeId)
    requires N > 0 && Sync(Masked(N, T, corrupted))
  {
    && c.node == n && SharingCandidate(Masked(N, T, corrupted), corrupted, true, c)
    && Good(c.graph) && c.graph.randomCnt == Masked(N, T, corrupted).randomCnt
  }

  lemma {:induction false} SomeCandidates(N: nat, T: nat, p: int, corrupted: set<Party>,
                                          k: nat) returns (cs: seq<Candidate>)
    requires HonestDealer(N, T, p, corrupted) && Good(Masked(N, T, corrupted)) && k <= T
    ensures FirstCoefficients(N, T, corrupted, cs, k)
  {
    hide Masked, HonestDealer, Sync, Counted, AllLive, Small, CoefficientCandidate;
    DealerFacts(N, T, p, corrupted);
    cs := [];
    if k > 0 {
      var front := SomeCandidates(N, T, p, corrupted, k - 1);
      var c := SomeCandidate(N, T, p, corrupted, k);
      cs := front + [c];
    }
  }

  lemma SomeLists(N: nat, T: nat, p: int, corrupted: set<Party>) returns (lists: seq<seq<Candidate>>)
    requires HonestDealer(N, T, p, corrupted) && Good(Masked(N, T, corrupted))
    ensures CoveringLists(Masked(N, T, corrupted), Sources(corrupted, corrupted + {0}), lists)
  {
    hide Masked, HonestDealer, SyncAt, CoversSharing, CoversAddition, CoversRecon, Offered, SharingCandidate;
    hide FirstCoefficients;
    DealerFacts(N, T, p, corrupted);
    var g, src := Masked(N, T, corrupted), Sources(corrupted, corrupted + {0});
    var cs := SomeCandidates(N, T, p, corrupted, T);
    lists := [[], cs, [], [], []];
    CandidatesCover(N, T, p, corrupted, cs);
    NothingElse(N, T, p, corrupted);
    assert Offers(g, src, []);
  }

  lemma CoefficientsOnly(N: nat, T: nat, p: int, corrupted: set<Party>, n: NodeId)
    requires HonestDealer(N, T, p, corrupted) && Good(Masked(N, T, corrupted)) && n <= T + 2 * N
    ensures var g := Masked(N, T, corrupted);
      MatchFor(g, n, corrupted, true) && NoIOTargets(g, n, corrupted) <==> 0 < n <= T
  {
    hide Masked, HonestDealer, SharingMatch, NoIOTargets, SyncAt;
    DealerFacts(N, T, p, corrupted);
    MaskedSetting(N, T, p, corrupted);
    if SharingMatch(Masked(N, T, corrupted), n, corrupted) { OnlyCoefficientsMatch(N, T, corrupted, n, corrupted); }
    if 0 < n <= T {
      CoefficientMatches(N, T, corrupted, n, corrupted);
      MaskedFilter(N, T, corrupted, n, corrupted);
    }
  }

  lemma CandidatesCover(N: nat, T: nat, p: int, corrupted: set<Party>, cs: seq<Candidate>)
    requires HonestDealer(N, T, p, corrupted) && Good(Masked(N, T, corrupted))
    requires FirstCoefficients(N, T, corrupted, cs, T)
    ensures CoversSharing(Masked(N, T, corrupted), corrupted, true, cs)
    ensures Offers(Masked(N, T, corrupted), Sources(corrupted, corrupted + {0}), cs)
  {
    hide Masked, HonestDealer, MatchFor, NoIOTargets, SharingResult, SyncAt, AdditionResult;
    DealerFacts(N, T, p, corrupted);
    var g := Masked(N, T, corrupted);
    forall n | 0 <= n < |g.nodes|
      ensures (exists c :: c in cs && c.node == n) <==> MatchFor(g, n, corrupted, true) && NoIOTargets(g, n, corrupted)
    {
      CoefficientsOnly(N, T, p, corrupted, n);
      if 0 < n <= T { assert cs[n - 1] in cs; }
    }
    forall i | 0 <= i < |cs| ensures Offered(g, Sources(corrupted, corrupted + {0}), cs[i].node, cs[i].graph) {
      assert cs[i] == Candidate(cs[i].node, cs[i].graph);
    }
  }

  lemma NothingElse(N: nat, T: nat, p: int, corrupted: set<Party>)
    requires HonestDealer(N, T, p, corrupted) && Good(Masked(N, T, corrupted))
    ensures var g := Masked(N, T, corrupted);
      && CoversAddition(g, []) && CoversSharing(g, corrupted + {0}, false, [])
      && CoversRecon(g, corrupted, []) && CoversRecon(g, corrupted + {0}, [])
  {
    hide Masked, HonestDealer, SyncAt, ReconMatch, MatchFor, NoIOTargets, AdditionGraph;
    DealerFacts(N, T, p, corrupted);
    var g := Masked(N, T, corrupted);
    forall n, e | 0 <= n < |g.nodes| && e in g.ins[n] ensures !e.op.ADD? { MaskedOperators(N, T, p, corrupted, n, e); }
    forall n | 0 <= n < |g.nodes|
      ensures !(MatchFor(g, n, corrupted + {0}, false) && NoIOTargets(g, n, corrupted + {0}))
      ensures !ReconMatch(g, n, corrupted) && !ReconMatch(g, n, corrupted + {0})
    {
      DealerBlocks(N, T, p, corrupted, n);
      NoReconstruction(N, T, p, corrupted, n, corrupted);
      NoReconstruction(N, T, p, corrupted, n, corrupted + {0});
    }
  }

  // ----- The loop

  /** With such lists the round takes the rewrite at the linear coefficient. */
  lemma RoundTakesFirst(N: nat, T: nat, p: int, corrupted: set<Party>, lists: seq<seq<Candidate>>)
    requires HonestDealer(N, T, p, corrupted) && Good(Masked(N, T, corrupted))
    requires CoefficientLists(N, T, corrupted, lists)
    ensures RoundChoice(Masked(N, T, corrupted), {}, lists, 5) == Some(lists[1][0])
    ensures Good(lists[1][0].graph) && Acceptable(Masked(N, T, corrupted), {}, lists[1][0].graph)
  {
    hide Masked, HonestDealer, SyncAt, SharingResult, KeyOf, PotentialOf, RoundChoice;
    DealerFacts(N, T, p, corrupted);
    var g, c := Masked(N, T, corrupted), lists[1][0];
    FirstMoveDescends(N, T, p, corrupted, c.graph);
    assert Beats(g, {}, None, c);
    FiveRounds(g, {}, lists);
    assert Taken(g, {}, None, []) == None && Taken(g, {}, None, lists[1]) == Some(c) && Taken(g, {}, Some(c),
                 []) == Some(c);
  }

  /** The first move of the loop is the rewrite at the linear coefficient. */
  lemma FirstMove(N: nat, T: nat, p: int, corrupted: set<Party>, next: Graph)
    requires HonestDealer(N, T, p, corrupted) && Good(Masked(N, T, corrupted))
    requires Chosen(Masked(N, T, corrupted), Sources(corrupted, corrupted + {0}), {}, next)
    ensures SharingResult(Masked(N, T, corrupted), 1, corrupted, true, next)
  {
    hide Masked, HonestDealer, SyncAt, SharingResult, CoveringLists, IsChoice, NoWorse, RoundChoice;
    DealerFacts(N, T, p, corrupted);
    var g, src := Masked(N, T, corrupted), Sources(corrupted, corrupted + {0});
    var n, lists :| ChosenFrom(g, src, {}, n, next, lists);
    ListsForced(N, T, p, corrupted, lists);
    RoundTakesFirst(N, T, p, corrupted, lists);
  }

  /** And the loop does move. */
  lemma SomeMove(N: nat, T: nat, p: int, corrupted: set<Party>) returns (next: Graph)
    requires HonestDealer(N, T, p, corrupted) && Good(Masked(N, T, corrupted))
    ensures Chosen(Masked(N, T, corrupted), Sources(corrupted, corrupted + {0}), {}, next)
    ensures Good(next) && Acceptable(Masked(N, T, corrupted), {}, next)
    ensures SharingResult(Masked(N, T, corrupted), 1, corrupted, true, next)
  {
    hide Masked, HonestDealer, SyncAt, SharingResult, CoveringLists, RoundChoice, Acceptable;
    DealerFacts(N, T, p, corrupted);
    var g, src := Masked(N, T, corrupted), Sources(corrupted, corrupted + {0});
    var lists := SomeLists(N, T, p, corrupted);
    ListsForced(N, T, p, corrupted, lists);
    RoundTakesFirst(N, T, p, corrupted, lists);
    var c := lists[1][0];
    next := c.graph;
    FirstIsChoice(g, src, lists, c);
    assert ChosenFrom(g, src, {}, c.node, next, lists);
  }

  lemma FirstIsChoice(g: Graph, src: Sources, lists: seq<seq<Candidate>>, c: Candidate)
    requires Sync(g) && CoveringLists(g, src, lists) && |lists[1]| > 0 && c == lists[1][0] && Acceptable(g, {}, c.graph)
    requires lists[0] == [] && lists[2] == [] && lists[3] == [] && lists[4] == []
    ensures IsChoice(g, src, {}, Some(c)) && forall k :: 0 <= k < 5 ==> NoWorse(g, {}, Some(c), lists[k])
  {
    hide SyncAt, Offered, PotentialOf, KeyOf, CoversAddition, CoversSharing, CoversRecon;
    forall i | 0 <= i < |lists[1]| && i > 0 ensures !FirstAcceptable(g, {}, lists[1], i) {
      assert Acceptable(g, {}, lists[1][0].graph);
    }
    assert !Less(PotentialOf(c.graph), PotentialOf(c.graph));
  }

  lemma NothingSeen(trace: seq<Graph>)
    requires |trace| > 0 && forall i :: 0 <= i < |trace| ==> Sync(trace[i])
    ensures Seen(trace[..1]) == {} && (|trace| == 1 ==> Seen(trace) == {})
  {
    hide Sync, KeyOf;
  }

  lemma MoveIsStep(N: nat, T: nat, p: int, corrupted: set<Party>, r: Graph)
    requires HonestDealer(N, T, p, corrupted) && Good(Masked(N, T, corrupted))
    requires SharingResult(Masked(N, T, corrupted), 1, corrupted, true, r)
    ensures RewriteStep(Masked(N, T, corrupted), Sources(corrupted, corrupted + {0}), r)
  {
    hide Masked, HonestDealer, SyncAt, SharingResult, SharingMatch, NoIOTargets;
    DealerFacts(N, T, p, corrupted);
    MaskedSetting(N, T, p, corrupted);
    FirstMoveRandom(N, T, p, corrupted, r);
    assert SharingCandidate(Masked(N, T, corrupted), corrupted, true, Candidate(1, r));
    assert Offered(Masked(N, T, corrupted), Sources(corrupted, corrupted + {0}), 1, r);
  }

  /** A complete run of the loop on a masked sharing, with the source parties the prover chooses. */
  ghost predicate CompleteRun(N: nat, T: nat, corrupted: set<Party>, trace: seq<Graph>)
    requires N > 0
  {
    var src := Sources(corrupted, corrupted + {0});
    IsRun(src, trace) && trace[0] == Masked(N, T, corrupted) && Greedy(src, trace) && Exhausted(src, trace)
  }

  /** Every complete run starts with the rewrite at the linear coefficient. */
  lemma RunStarts(N: nat, T: nat, p: int, corrupted: set<Party>, trace: seq<Graph>)
    requires HonestDealer(N, T, p, corrupted) && CompleteRun(N, T, corrupted, trace)
    ensures |trace| > 1 && Sync(trace[0]) && SharingResult(trace[0], 1, corrupted, true, trace[1])
  {
    hide Masked, HonestDealer, Sync, SharingResult, Chosen, RewriteStep, Acceptable, Seen;
    DealerFacts(N, T, p, corrupted);
    var g, src := Masked(N, T, corrupted), Sources(corrupted, corrupted + {0});
    MaskedSetting(N, T, p, corrupted);
    NothingSeen(trace);
    if |trace| == 1 {
      var next := SomeMove(N, T, p, corrupted);
      MoveIsStep(N, T, p, corrupted, next);
      OneBubble(N, T, corrupted, g);
    } else {
      assert Chosen(trace[0], src, Seen(trace[..0 + 1]), trace[0 + 1]);
      FirstMove(N, T, p, corrupted, trace[1]);
    }
  }

  /**
   * The hypothesis of the run theorems is needed. For every number of parties, threshold and
   * set of T corrupted parties without the dealer, the first move of every complete run on the
   * masked sharing keeps the solutions if and only if the linear coefficient of the monic
   * polynomial with the corrupted parties' points as roots is nonzero.
   */
  lemma RunExact(N: nat, T: nat, p: int, corrupted: set<Party>, trace: seq<Graph>)
    requires HonestDealer(N, T, p, corrupted) && CompleteRun(N, T, corrupted, trace)
    ensures |trace| > 1 && Shape(trace[0]) && Shape(trace[1]) && |PointList(N, corrupted)| == T
    ensures SameSolutions(Field(N, T, p), trace[0], trace[1]) <==> !Cong(p, Monic(PointList(N, corrupted))[1], 0)
  {
    RunStarts(N, T, p, corrupted, trace);
    MaskedRewriteExact(N, T, p, corrupted, 1, corrupted, trace[1]);
  }

  lemma CompleteRunFacts(N: nat, T: nat, corrupted: set<Party>, trace: seq<Graph>)
    requires N > 0 && CompleteRun(N, T, corrupted, trace)
    ensures IsRun(Sources(corrupted, corrupted + {0}), trace) && trace[0] == Masked(N, T, corrupted)
    ensures |trace| > 0 && forall i :: 0 <= i < |trace| ==> Sync(trace[i])
  {
  }

  /** So without that condition the sources of some step do not fix the polynomial it rewrites. */
  lemma FixedRunExact(N: nat, T: nat, p: int, corrupted: set<Party>, trace: seq<Graph>)
    requires HonestDealer(N, T, p, corrupted) && CompleteRun(N, T, corrupted, trace)
    ensures Field(N, T, p).p > 0 && |trace| > 0 && forall i :: 0 <= i < |trace| ==> Sync(trace[i])
    ensures Ready(Field(N, T, p), Everyone(N), trace[0]) && |PointList(N, corrupted)| == T
    ensures FixedRun(Field(N, T, p), Sources(corrupted, corrupted + {0}), trace) ==>
      !Cong(p, Monic(PointList(N, corrupted))[1], 0)
  {
    hide Masked, SameSolutions, HonestDealer, CompleteRun, IsRun, Ready, FixedRun, Field, Monic, PointList, Cong, Sync;
    DealerFacts(N, T, p, corrupted);
    FieldThreshold(N, T, p);
    CompleteRunFacts(N, T, corrupted, trace);
    MaskedSetting(N, T, p, corrupted);
    DealerIsNext(N, T, p, corrupted);
    RunExact(N, T, p, corrupted, trace);
    if FixedRun(Field(N, T, p), Sources(corrupted, corrupted + {0}), trace) {
      RunKeeps(Field(N, T, p), Everyone(N), Sources(corrupted, corrupted + {0}), trace, 1);
    }
  }

  lemma OneMove(src: Sources, g: Graph, next: Graph) returns (trace: seq<Graph>)
    requires Sync(g) && Sync(next) && g.bubbleCnt > 0 && Chosen(g, src, {}, next) && RewriteStep(g, src, next)
    requires Acceptable(g, {}, next)
    ensures |trace| == 2 && trace[0] == g && IsRun(src, trace) && Greedy(src, trace)
  {
    hide Sync, Chosen, RewriteStep, KeyOf, PotentialOf, Seen, Greedy;
    StartsGreedy(src, g);
    RunSnoc(src, [g], next);
    GreedySnoc(src, [g], next);
    trace := [g] + [next];
  }

  /** The loop can make that move. */
  lemma SomeRun(N: nat, T: nat, p: int, corrupted: set<Party>) returns (trace: seq<Graph>)
    requires HonestDealer(N, T, p, corrupted)
    ensures |trace| == 2 && trace[0] == Masked(N, T, corrupted) && trace[0].bubbleCnt > 0
    ensures IsRun(Sources(corrupted, corrupted + {0}), trace) && Greedy(Sources(corrupted, corrupted + {0}), trace)
  {
    hide Masked, HonestDealer, SyncAt, SharingResult, Chosen, RewriteStep, Acceptable, IsRun, Greedy;
    DealerFacts(N, T, p, corrupted);
    var g, src := Masked(N, T, corrupted), Sources(corrupted, corrupted + {0});
    MaskedSetting(N, T, p, corrupted);
    OneBubble(N, T, corrupted, g);
    var next := SomeMove(N, T, p, corrupted);
    MoveIsStep(N, T, p, corrupted, next);
    trace := OneMove(src, g, next);
  }
}
