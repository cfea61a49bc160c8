// Concrete protocols on which a rewrite or a prediction fails, and the same ones where it holds.
module Cases {
  import opened Arith
  import opened Polynomials
  import opened Graphs
  import opened Counters
  import opened Semantics
  import opened Patterns
  import opened Sharing
  import opened Reconstruction
  import opened ReconstructionCounts
  import opened Assembly
  import opened Dealing
  import opened DealtRewrites
  import opened GeneralPosition
  import opened Hashing
  import opened Rewriting
  import opened Runs
  import opened Masking
  import opened MaskedRuns

  // ----- A sharing rewrite that changes the meaning

  lemma SevenIsPrime()
    ensures Prime(7)
  {
    assert 7 % 2 != 0 && 7 % 3 != 0 && 7 % 4 != 0 && 7 % 5 != 0 && 7 % 6 != 0;
  }

  lemma ElevenIsPrime()
    ensures Prime(11)
  {
    assert 11 % 2 != 0 && 11 % 3 != 0 && 11 % 4 != 0 && 11 % 5 != 0 && 11 % 6 != 0;
    assert 11 % 7 != 0 && 11 % 8 != 0 && 11 % 9 != 0 && 11 % 10 != 0;
  }

  lemma TwoAndFive()
    ensures PointList(5, {1, 4}) == [2, 5] && Monic([2, 5])[1] == -7
  {
    assert PointList(0, {1, 4}) == [];
    assert PointList(1, {1, 4}) == [];
    assert PointList(2, {1, 4}) == [2];
    assert PointList(3, {1, 4}) == [2];
    assert PointList(4, {1, 4}) == [2];
    MonicOfTwo(2, 5);
  }

  lemma SourcesOfTwo(p: int)
    requires Prime(p) && p > 5
    ensures KeptRewrite(5, 2, p, Others, 1, {1, 4})
  {
    assert {1, 4} <= Everyone(5);
  }

  /**
   * Five parties, threshold two, points 1 to 5, a random secret: the rewrite at the node of the
   * linear coefficient with the parties at the points 2 and 5 as sources has results, and each
   * of them has other solutions than the protocol, modulo 7.
   */
  lemma MeaningChanges()
    ensures Prime(7) && KeptRewrite(5, 2, 7, Others, 1, {1, 4})
    ensures exists r :: SharingResult(DealtGraph(5, 2, Others), 1, {1, 4}, true, r)
    ensures forall r :: SharingResult(DealtGraph(5, 2, Others), 1, {1, 4}, true, r) ==>
      Shape(r) && !SameSolutions(Field(5, 2, 7), DealtGraph(5, 2, Others), r)
  {
    hide SharingResult, SameSolutions, KeptRewrite, Monic, Prime, PointList;
    SevenIsPrime();
    SourcesOfTwo(7);
    var s := SomeResult(5, 2, 7, Others, 1, {1, 4});
    TwoAndFive();
    forall r | SharingResult(DealtGraph(5, 2, Others), 1, {1, 4}, true, r)
      ensures Shape(r) && !SameSolutions(Field(5, 2, 7), DealtGraph(5, 2, Others), r)
    {
      DealtRewriteExact(5, 2, 7, Others, 1, {1, 4}, r);
      assert Cong(7, -7, 0);
    }
  }

  /**
   * The same with the two parties corrupted, where the dealer outputs its own share and uses the
   * secret once more: every complete run of the loop changes the solutions with its first move.
   */
  lemma RunChanges(trace: seq<Graph>)
    requires CompleteRun(5, 2, {1, 4}, trace)
    ensures Ready(Field(5, 2, 7), Everyone(5), trace[0])
    ensures |trace| > 1 && Shape(trace[1]) && !SameSolutions(Field(5, 2, 7), trace[0], trace[1])
    ensures !FixedRun(Field(5, 2, 7), Sources({1, 4}, {1, 4} + {0}), trace)
  {
    hide Masked, SameSolutions, Monic, Prime, PointList, CompleteRun, Ready, FixedRun, Field, HonestDealer;
    TwoCorrupted();
    TwoAndFive();
    assert Cong(7, -7, 0);
    RunExact(5, 2, 7, {1, 4}, trace);
    FixedRunExact(5, 2, 7, {1, 4}, trace);
  }

  lemma TwoCorrupted()
    ensures HonestDealer(5, 2, 7, {1, 4})
  {
    SevenIsPrime();
    hide Prime;
    SourcesOfTwo(7);
  }

  /** The loop can make that move. */
  lemma RunExists() returns (trace: seq<Graph>)
    ensures |trace| == 2 && trace[0] == Masked(5, 2, {1, 4}) && trace[0].bubbleCnt > 0
    ensures IsRun(Sources({1, 4}, {1, 4} + {0}), trace) && Greedy(Sources({1, 4}, {1, 4} + {0}), trace)
  {
    hide Masked, HonestDealer, IsRun, Greedy;
    TwoCorrupted();
    trace := SomeRun(5, 2, 7, {1, 4});
  }

  /** Modulo 11 the same points are in general position, and the same rewrite keeps the meaning. */
  lemma MeaningKept(r: Graph)
    requires SharingResult(DealtGraph(5, 2, Others), 1, {1, 4}, true, r)
    ensures Prime(11) && Ready(Field(5, 2, 11), Everyone(5), DealtGraph(5, 2, Others)) && Generic(Field(5, 2, 11))
    ensures Shape(r) && SameSolutions(Field(5, 2, 11), DealtGraph(5, 2, Others), r)
  {
    hide SharingResult, SameSolutions, Monic, Prime, PointList, Ready, Generic, Field;
    ElevenIsPrime();
    SourcesOfTwo(11);
    StandingConditions(5, 2, 11, Others);
    DealtGeneric(5, 11);
    TwoAndFive();
    DealtRewriteExact(5, 2, 11, Others, 1, {1, 4}, r);
    assert !Cong(11, -7, 0);
  }

  // ----- A prediction that fails

  /** Node 0 is reconstructed at party 0 from three shares, one of which is node 0 itself, sent there. */
  function EchoEdges(): seq<Operation> {
    [Operation(RECONSTRUCT, [1, 2, 3], 0, 0), Sending(0, 1), Sending(4, 3)]
  }

  function EchoNodes(origin: Genre): seq<Node> {
    [Node(1, Others), Node(0, Others), Node(0, Others), Node(0, Others), Node(2, origin)]
  }

  lemma EchoInRange(origin: Genre)
    ensures AllInRange(Bare(EchoNodes(origin), 3, 1, {}), EchoEdges()) && PlainEdges(EchoEdges())
  {
  }

  ghost function Echo(origin: Genre): (g: Graph)
    ensures Good(g) && g.nodes == EchoNodes(origin) && g.partyCnt == 3 && g.T == 1
    ensures forall e :: Has(g, e) <==> e in EchoEdges()
  {
    EchoInRange(origin);
    AssembledGood(EchoNodes(origin), 3, 1, {}, EchoEdges());
    Assembled(EchoNodes(origin), 3, 1, {}, EchoEdges())
  }

  lemma EchoLists(origin: Genre)
    ensures Echo(origin).ins[0] == [EchoEdges()[0]] && Echo(origin).ins[1] == [Sending(0, 1)]
    ensures Echo(origin).ins[2] == [] && Echo(origin).ins[3] == [Sending(4, 3)] && Echo(origin).ins[4] == []
  {
    EchoInRange(origin);
    var es := EchoEdges();
    forall n | 0 <= n < 5 ensures Echo(origin).ins[n] == Into(es, n) {
      AssembledLists(EchoNodes(origin), 3, 1, {}, es, n);
    }
    IntoOne(es, 0, 0);
    IntoOne(es, 1, 1);
    IntoNone(es, 2);
    IntoOne(es, 3, 2);
    IntoNone(es, 4);
  }

  ghost function EchoField(): Env {
    Env(5, 1, map[0 := map[0 := Coef(0), 1 := At(2), 2 := At(1), 3 := At(3)]], _ => 0, (_, _, _) => 0)
  }

  lemma FiveIsPrime()
    ensures Prime(5)
  {
    assert 5 % 2 != 0 && 5 % 3 != 0 && 5 % 4 != 0;
  }

  lemma EchoFieldOk()
    ensures WfEnv(EchoField())
  {
    hide Prime;
    FiveIsPrime();
    assert forall a :: a in EchoField().roles ==> a == 0;
    assert Injective(EchoField().roles[0]);
  }

  lemma GatherFits(g: Graph)
    requires g.partyCnt == 3 && exists origin :: g.nodes == EchoNodes(origin)
    ensures WellFormed(EchoField(), g, EchoEdges()[0])
  {
    var e := EchoEdges()[0];
    assert e.inputs == [1, 2, 3];
    assert g.nodes[1].party == g.nodes[2].party == g.nodes[3].party;
    assert Inputs(e) + {0} <= {0, 1, 2, 3};
    assert EchoField().roles[0].Keys == {0, 1, 2, 3};
  }

  lemma EchoFits(origin: Genre, e: Operation)
    requires Has(Echo(origin), e)
    ensures WellFormed(EchoField(), Echo(origin), e)
  {
    hide Echo, EchoField;
    if e == EchoEdges()[0] {
      GatherFits(Echo(origin));
    } else {
      assert e.op.TRANSIT? && |e.inputs| == 1;
    }
  }

  lemma EchoReady(origin: Genre)
    ensures Ready(EchoField(), Everyone(3), Echo(origin))
  {
    hide WfEnv, WellFormed, Good;
    EchoFieldOk();
    var env, g := EchoField(), Echo(origin);
    forall e | Has(g, e) ensures WellFormed(env, g, e) { EchoFits(origin, e); }
  }

  lemma EchoBefore(origin: Genre)
    ensures Sync(Echo(origin)) && Before(Echo(origin), 1) == 0 && Before(Echo(origin), 2) == 2
    ensures Before(Echo(origin), 3) == 4
    ensures Arrived(Echo(origin), 1)
  {
    hide Sync, Good;
    assert Sync(Echo(origin)) by { GoodSync(Echo(origin)); }
    EchoLists(origin);
  }

  lemma EchoSetting(origin: Genre)
    ensures ReconSetting(EchoField(), Everyone(3), Echo(origin), 0, {0})
  {
    hide Sync, Good, WfEnv, WellFormed, Before, Ready, Echo;
    EchoReady(origin);
    EchoBefore(origin);
    EchoLists(origin);
    var g := Echo(origin);
    var ps := BeforeParties(g, [1, 2, 3]);
    assert ps == [1, 0, 2] by {
      assert ps[0] == BeforeParty(g, 1) && ps[1] == BeforeParty(g, 2) && ps[2] == BeforeParty(g, 3);
    }
    assert {0} <= Everyone(3);
  }

  lemma EchoCounts(origin: Genre)
    ensures Sync(Echo(origin)) && Echo(origin).ins[0] == [EchoEdges()[0]]
    ensures 0 in Origins(Echo(origin), 0, {0})
    ensures RandomDsts(Echo(origin), [1, 2, 3], {0}) == if origin.Input? || origin.Output? then 0 else 1
  {
    hide Sync, Good, Before, Echo, Arrived;
    EchoBefore(origin);
    EchoLists(origin);
    var g, xs := Echo(origin), [1, 2, 3];
    var ps := BeforeParties(g, xs);
    assert ps[0] == BeforeParty(g, 1) == 1;
    assert ListedWith(xs, ps, 1, {0}, false);
    PickMembers(xs, ps, {0}, 1);
    assert 1 in DstShares(g, 0, {0});
    RandomThree(g, {0});
  }

  lemma RandomThree(g: Graph, src: set<Party>)
    requires Sync(g) && |g.nodes| > 3
    ensures RandomDsts(g, [1, 2, 3], src) ==
        (if BeforeParty(g, 1) !in src && IsRandom(g, Before(g, 1)) then 1 else 0)
      + (if BeforeParty(g, 2) !in src && IsRandom(g, Before(g, 2)) then 1 else 0)
      + (if BeforeParty(g, 3) !in src && IsRandom(g, Before(g, 3)) then 1 else 0)
  {
    hide SyncAt, BeforeParty, Before, IsRandom;
    assert [1, 2, 3][..2] == [1, 2] && [1, 2][..1] == [1];
    assert RandomDsts(g, [1], src) == if BeforeParty(g, 1) !in src && IsRandom(g, Before(g, 1)) then 1 else 0;
  }

  lemma EchoResult(origin: Genre) returns (r: Graph)
    ensures ReconResult(Echo(origin), 0, {0}, r)
  {
    hide Sync, Good, WfEnv, WellFormed, Before, Ready, Replaced, ReconElim, ReconAdd;
    EchoSetting(origin);
    EchoLists(origin);
    var g := Echo(origin);
    assert Sync(g) by { GoodSync(g); }
    ReconAdmissible(EchoField(), Everyone(3), g, 0, {0});
    r := ReplacedExists(g, ReconElim(g, 0, {0}), ReconAdd(g, 0, {0}));
  }

  /** On this cyclic graph the pre-check lets a rewrite pass that the filter drops. */
  lemma PredictionFails()
    ensures ReconSetting(EchoField(), Everyone(3), Echo(Others), 0, {0})
    ensures InRange(Echo(Others), Echo(Others).ins[0][0])
    ensures RewritableReconstruction(Echo(Others), Echo(Others).ins[0][0], {0})
    ensures exists r :: ReconResult(Echo(Others), 0, {0}, r)
    ensures forall r :: ReconResult(Echo(Others), 0, {0}, r) ==> r.randomCnt != Echo(Others).randomCnt
  {
    hide Sync, Good, Echo, Origins, RandomDsts, ReconResult, EchoField, Everyone, Ready;
    EchoSetting(Others);
    EchoCounts(Others);
    var s := EchoResult(Others);
    ReconPrediction(EchoField(), Everyone(3), Echo(Others), 0, {0}, s);
    forall r | ReconResult(Echo(Others), 0, {0}, r) ensures r.randomCnt != Echo(Others).randomCnt {
      ReconFilter(EchoField(), Everyone(3), Echo(Others), 0, {0}, r);
    }
  }

  // ----- Two graphs the record of considered graphs takes for one

  /** Node 2 is the difference of nodes 0 and 1, or of nodes 1 and 0. */
  function Difference(swapped: bool): Operation {
    Operation(SUB, if swapped then [1, 0] else [0, 1], 2, 0)
  }

  function ThreeNodes(): (ns: seq<Node>)
    ensures |ns| == 3
  {
    seq(3, _ => Node(0, Others))
  }

  ghost function DifferenceGraph(swapped: bool): (g: Graph)
    ensures Shape(g) && Good(g) && g.nodes == ThreeNodes() && g.corrupted == {}
    ensures forall e :: Has(g, e) <==> e == Difference(swapped)
  {
    AssembledGood(ThreeNodes(), 1, 0, {}, [Difference(swapped)]);
    Assembled(ThreeNodes(), 1, 0, {}, [Difference(swapped)])
  }

  lemma DifferenceLists(swapped: bool)
    ensures DifferenceGraph(swapped).ins == [[], [], [Difference(swapped)]]
  {
    hide Good, WithEdges, Bare;
    var es, g := [Difference(swapped)], DifferenceGraph(swapped);
    AssembledLists(ThreeNodes(), 1, 0, {}, es, 0);
    AssembledLists(ThreeNodes(), 1, 0, {}, es, 1);
    AssembledLists(ThreeNodes(), 1, 0, {}, es, 2);
    hide DifferenceGraph, Assembled, Difference;
    IntoNone(es, 0);
    IntoNone(es, 1);
    IntoOne(es, 2, 0);
  }

  lemma DifferenceLive(swapped: bool)
    ensures DifferenceGraph(swapped).live == [true, true, true]
  {
    assert AllLive(DifferenceGraph(swapped));
  }

  lemma DifferenceValues(env: Env)
    requires env.p > 2
    ensures Holds(env, Difference(false), [1, 0, 1]) && !Holds(env, Difference(true), [1, 0, 1])
  {
    var v := [1, 0, 1];
    assert InputValues(Difference(false), v) == [1, 0] && InputValues(Difference(true), v) == [0, 1];
  }

  lemma DifferentSolutions(env: Env)
    requires env.p > 2
    ensures !SameSolutions(env, DifferenceGraph(false), DifferenceGraph(true))
  {
    var g, h, v := DifferenceGraph(false), DifferenceGraph(true), [1, 0, 1];
    assert Has(h, Difference(true));
    hide Good, DifferenceGraph, Holds, Has;
    DifferenceValues(env);
    assert Sat(env, g, v) && !Sat(env, h, v);
  }

  lemma SameDifference()
    ensures SumGuids(Difference(false).inputs) == SumGuids(Difference(true).inputs)
  {
    assert [0, 1][..1] == [0] && [1, 0][..1] == [1] && [0][..0] == [] && [1][..0] == [];
  }

  lemma DifferencesAlike()
    ensures SameSums(DifferenceGraph(false), DifferenceGraph(true))
  {
    hide Good, DifferenceGraph, SumGuids, Has;
    DifferenceLists(false);
    DifferenceLists(true);
    DifferenceLive(false);
    DifferenceLive(true);
    SameDifference();
  }

  /** a - b and b - a into one node: two graphs with one key, and with different solutions. */
  lemma DifferencesCollide(env: Env)
    requires env.p > 2
    ensures KeyOf(DifferenceGraph(false)) == KeyOf(DifferenceGraph(true))
    ensures !SameSolutions(env, DifferenceGraph(false), DifferenceGraph(true))
  {
    hide Good, DifferenceGraph, KeyOf, SameSums, Has, SameSolutions;
    DifferencesAlike();
    KeysCollide(DifferenceGraph(false), DifferenceGraph(true));
    DifferentSolutions(env);
  }
}
