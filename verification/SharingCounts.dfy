// What a sharing rewrite does to the number of random nodes: it trades the old random inputs
// for the source share copies, and the filter asks whether none of those is an input or output.
module SharingCounts {
  import opened Graphs
  import opened Counters
  import opened Semantics
  import opened Patterns
  import opened Sharing
  import opened Degrees

  lemma {:induction false} InjectiveImage<A(!new), B(!new)>(S: set<A>, R: set<B>, f: A -> B)
    requires forall x :: x in S ==> f(x) in R
    requires forall y :: y in R ==> exists x :: x in S && f(x) == y
    requires forall x, z :: x in S && z in S && f(x) == f(z) ==> x == z
    ensures |S| == |R|
  {
    if S != {} {
      var x :| x in S;
      var S', R' := S - {x}, R - {f(x)};
      forall y | y in R' ensures exists z :: z in S' && f(z) == y {
        var z :| z in S && f(z) == y;
        assert z in S';
      }
      InjectiveImage(S', R', f);
    } else {
      assert R == {};
    }
  }

  /** Where the source shares end up. */
  ghost function SourceTargets(g: Graph, n: NodeId, src: set<Party>): set<NodeId>
    requires Sync(g) && n < |g.nodes|
  {
    set i | 0 <= i < |g.outs[n]| && TargetParty(g, g.outs[n][i].output) in src :: Target(g, g.outs[n][i].output)
  }

  /** The inputs that become destinations. */
  ghost function Spent(g: Graph, n: NodeId, keepSecret: bool): set<NodeId>
    requires Sync(g) && n < |g.nodes|
  {
    if keepSecret then AllInputs(g.outs[n]) - {n} else AllInputs(g.outs[n])
  }

  lemma SourceTarget(g: Graph, n: NodeId, src: set<Party>, k: NodeId) returns (i: nat)
    requires Sync(g) && n < |g.nodes| && k in SourceTargets(g, n, src)
    ensures i < |g.outs[n]| && TargetParty(g, g.outs[n][i].output) in src && k == Target(g, g.outs[n][i].output)
    ensures k < |g.nodes| && g.nodes[k].party == TargetParty(g, g.outs[n][i].output)
  {
    i :| i < |g.outs[n]| && TargetParty(g, g.outs[n][i].output) in src && k == Target(g, g.outs[n][i].output);
  }

  lemma TargetOf(env: Env, parties: set<Party>, g: Graph, n: NodeId, src: set<Party>, q: Party) returns (k: NodeId)
    requires Ready(env, parties, g) && n < |g.nodes| && SharingMatch(g, n, src) && src <= parties && q in src
    ensures k in SourceTargets(g, n, src) && k < |g.nodes| && g.nodes[k].party == q
  {
    hide SharingMatch, Coherent, WfEnv, SyncAt;
    var es := g.outs[n];
    SharingParties(env, parties, g, n, src);
    var ps := TargetParties(g, es);
    assert q in PartySet(ps);
    var i :| 0 <= i < |ps| && ps[i] == q;
    k := Target(g, es[i].output);
  }

  lemma SameTarget(env: Env, parties: set<Party>, g: Graph, n: NodeId, src: set<Party>, x: NodeId, z: NodeId)
    requires Ready(env, parties, g) && n < |g.nodes| && SharingMatch(g, n, src)
    requires x in SourceTargets(g, n, src) && z in SourceTargets(g, n, src)
    requires x < |g.nodes| && z < |g.nodes| && g.nodes[x].party == g.nodes[z].party
    ensures x == z
  {
    hide SharingMatch, Coherent, WfEnv, SyncAt;
    var i := SourceTarget(g, n, src, x);
    var j := SourceTarget(g, n, src, z);
    SharingParties(env, parties, g, n, src);
    var ps := TargetParties(g, g.outs[n]);
    assert ps[i] == ps[j];
  }

  lemma TargetSize(env: Env, parties: set<Party>, g: Graph, n: NodeId, src: set<Party>)
    requires Ready(env, parties, g) && n < |g.nodes| && SharingMatch(g, n, src) && src <= parties
    ensures |SourceTargets(g, n, src)| == |src|
  {
    hide SharingMatch, SourceTargets;
    var A := SourceTargets(g, n, src);
    var f := (k: NodeId) => if k < |g.nodes| then g.nodes[k].party else 0;
    forall x | x in A ensures f(x) in src {
      var i := SourceTarget(g, n, src, x);
    }
    forall y | y in src ensures exists x :: x in A && f(x) == y {
      var k := TargetOf(env, parties, g, n, src, y);
      assert f(k) == y;
    }
    forall x, z | x in A && z in A && f(x) == f(z) ensures x == z {
      var i := SourceTarget(g, n, src, x);
      var j := SourceTarget(g, n, src, z);
      SameTarget(env, parties, g, n, src, x, z);
    }
    InjectiveImage(A, src, f);
  }

  /** A source share copy has exactly one in-edge: its transit, or its evaluation if it stays put. */
  lemma TargetDegree(env: Env, parties: set<Party>, g: Graph, n: NodeId, src: set<Party>, i: nat)
    requires Ready(env, parties, g) && n < |g.nodes| && SharingMatch(g, n, src)
    requires i < |g.outs[n]| && TargetParty(g, g.outs[n][i].output) in src
    ensures var s := g.outs[n][i].output;
            g.ins[Target(g, s)] == [if Sent(g, s) then g.outs[s][0] else g.outs[n][i]]
  {
    assert Sync(g);
    MatchedShare(g, n, src, i);
    hide Ready, RewritableSecret, SyncAt;
    var s := g.outs[n][i].output;
    OutEdge(g, n, g.outs[n][i]);
    if Sent(g, s) { OutEdge(g, s, g.outs[s][0]); }
    Single(g.ins[Target(g, s)], if Sent(g, s) then g.outs[s][0] else g.outs[n][i]);
  }

  lemma Single(es: seq<Operation>, e: Operation)
    requires e in es && |es| <= 1
    ensures es == [e]
  {
  }

  lemma MatchedShare(g: Graph, n: NodeId, src: set<Party>, i: nat)
    requires Sync(g) && n < |g.nodes| && SharingMatch(g, n, src)
    requires i < |g.outs[n]| && TargetParty(g, g.outs[n][i].output) in src
    ensures g.outs[n][i].op.EVAL? && |g.ins[Target(g, g.outs[n][i].output)]| <= 1
  {
    hide SyncAt, Target, TargetParty;
  }

  ghost function ElimSet(g: Graph, n: NodeId, src: set<Party>): set<Operation>
    requires Sync(g) && n < |g.nodes|
  {
    OldEvals(g, n) + MovedTransits(g, n, src)
  }

  ghost function AddSet(g: Graph, n: NodeId, src: set<Party>, keepSecret: bool): set<Operation>
    requires Sync(g) && n < |g.nodes| && |g.outs[n]| > 0
    requires forall t :: t in MovedTransits(g, n, src) ==> IsTransit(t)
  {
    Flips(MovedTransits(g, n, src)) + NewEvals(g, n, src, keepSecret)
  }

  /** The eliminated edges go to the shares, and to the targets of the moved source shares. */
  lemma ElimHits(env: Env, parties: set<Party>, g: Graph, n: NodeId, src: set<Party>)
    requires Ready(env, parties, g) && n < |g.nodes| && SharingMatch(g, n, src)
    ensures DistinctOutputs(ElimSet(g, n, src))
    ensures forall k: NodeId :: Hits(ElimSet(g, n, src), k) <==>
      k in Elems(Outputs(g.outs[n])) || k in SourceTargets(g, n, src)
  {
    hide ElimSet, SourceTargets, Outputs, SharingMatch;
    forall e, f | e in ElimSet(g, n, src) && f in ElimSet(g, n, src) && e != f ensures e.output != f.output {
      ElimPair(env, parties, g, n, src, e, f);
    }
    forall k: NodeId
      ensures Hits(ElimSet(g, n, src), k) <==> k in Elems(Outputs(g.outs[n])) || k in SourceTargets(g, n, src)
    {
      if Hits(ElimSet(g, n, src), k) {
        var e :| e in ElimSet(g, n, src) && e.output == k;
        ElimHit(g, n, src, e);
      }
      if k in Elems(Outputs(g.outs[n])) || k in SourceTargets(g, n, src) {
        var e := HitElim(g, n, src, k);
      }
    }
  }

  lemma ElimHit(g: Graph, n: NodeId, src: set<Party>, e: Operation)
    requires Sync(g) && n < |g.nodes| && e in ElimSet(g, n, src)
    ensures e.output in Elems(Outputs(g.outs[n])) || e.output in SourceTargets(g, n, src)
  {
    var es := g.outs[n];
    if e in OldEvals(g, n) {
      var i :| 0 <= i < |es| && es[i] == e;
      assert Outputs(es)[i] == e.output;
    } else {
      var i :| 0 <= i < |es| && MovedShare(g, es[i].output, src) && e == g.outs[es[i].output][0];
      assert Target(g, es[i].output) == e.output;
    }
  }

  lemma HitElim(g: Graph, n: NodeId, src: set<Party>, k: NodeId) returns (e: Operation)
    requires Sync(g) && n < |g.nodes|
    requires k in Elems(Outputs(g.outs[n])) || k in SourceTargets(g, n, src)
    ensures e in ElimSet(g, n, src) && e.output == k
  {
    var es := g.outs[n];
    if k in Elems(Outputs(es)) {
      var i := IndexOfOutput(es, k);
      e := es[i];
    } else {
      var i := SourceTarget(g, n, src, k);
      assert Outputs(es)[i] == es[i].output;
      assert MovedShare(g, es[i].output, src);
      e := g.outs[es[i].output][0];
    }
  }

  lemma OldPair(env: Env, parties: set<Party>, g: Graph, n: NodeId, src: set<Party>, e: Operation, f: Operation)
    requires Ready(env, parties, g) && n < |g.nodes| && SharingMatch(g, n, src)
    requires e in OldEvals(g, n) && f in OldEvals(g, n) && e != f
    ensures e.output != f.output
  {
    hide SharingMatch, Coherent, WfEnv, SyncAt, TargetParties;
    var es := g.outs[n];
    SharingParties(env, parties, g, n, src);
    var i :| 0 <= i < |es| && es[i] == e;
    var j :| 0 <= j < |es| && es[j] == f;
    assert Outputs(es)[i] == e.output && Outputs(es)[j] == f.output;
  }

  /** A moved transit is the only edge into its target. */
  lemma TransitAlone(env: Env, parties: set<Party>, g: Graph, n: NodeId, src: set<Party>, t: Operation)
    requires Ready(env, parties, g) && n < |g.nodes| && SharingMatch(g, n, src)
    requires t in MovedTransits(g, n, src)
    ensures t.output < |g.nodes| && g.ins[t.output] == [t]
  {
    var es := g.outs[n];
    var i :| 0 <= i < |es| && MovedShare(g, es[i].output, src) && t == g.outs[es[i].output][0];
    TargetDegree(env, parties, g, n, src, i);
  }

  lemma ElimPair(env: Env, parties: set<Party>, g: Graph, n: NodeId, src: set<Party>, e: Operation, f: Operation)
    requires Ready(env, parties, g) && n < |g.nodes| && SharingMatch(g, n, src)
    requires e in ElimSet(g, n, src) && f in ElimSet(g, n, src) && e != f
    ensures e.output != f.output
  {
    hide SharingMatch, Coherent, WfEnv, SyncAt, OldEvals, MovedTransits;
    ElimPresent(env, parties, g, n, src);
    if e in OldEvals(g, n) && f in OldEvals(g, n) {
      OldPair(env, parties, g, n, src, e, f);
    } else {
      var t, u := if e in OldEvals(g, n) then f else e, if e in OldEvals(g, n) then e else f;
      TransitAlone(env, parties, g, n, src, t);
      assert Has(g, u);
    }
  }

  lemma MovedFacts(env: Env, parties: set<Party>, g: Graph, n: NodeId, src: set<Party>, keepSecret: bool, t: Operation)
    requires SharingSetting(env, parties, g, n, src, keepSecret) && t in MovedTransits(g, n, src)
    ensures IsTransit(t) && t.inputs[0] < |g.nodes| && g.outs[t.inputs[0]] == [t]
    ensures t.inputs[0] in SourceShares(g, n, src) && Sent(g, t.inputs[0])
    ensures t.inputs[0] !in SharingDsts(g, n, src, keepSecret)
  {
    MovedTransitFacts(env, parties, g, n, src, t);
    MovedIsSource(g, n, src, t.inputs[0]);
    SharingSizes(env, parties, g, n, src, keepSecret);
    assert t.inputs[0] in Elems(SharingSrcs(g, n, src, keepSecret));
  }

  /** The added edges go to the moved source shares and to the destinations. */
  lemma AddHits(env: Env, parties: set<Party>, g: Graph, n: NodeId, src: set<Party>, keepSecret: bool)
    requires SharingSetting(env, parties, g, n, src, keepSecret) && |g.outs[n]| > 0
    ensures forall t :: t in MovedTransits(g, n, src) ==> IsTransit(t)
    ensures DistinctOutputs(AddSet(g, n, src, keepSecret))
    ensures forall k: NodeId :: Hits(AddSet(g, n, src, keepSecret), k) <==>
      (k < |g.nodes| && k in SourceShares(g, n, src) && Sent(g, k)) || k in SharingDsts(g, n, src, keepSecret)
  {
    hide MovedTransits, SharingDsts, SourceShares, SharingSrcs, SharingMatch;
    forall t | t in MovedTransits(g, n, src)
      ensures IsTransit(t) && t.inputs[0] < |g.nodes| && g.outs[t.inputs[0]] == [t]
      ensures t.inputs[0] !in SharingDsts(g, n, src, keepSecret)
    {
      MovedFacts(env, parties, g, n, src, keepSecret, t);
    }
    forall e, f | e in AddSet(g, n, src, keepSecret) && f in AddSet(g, n, src, keepSecret) && e != f
      ensures e.output != f.output
    {
      AddPair(g, n, src, keepSecret, e, f);
    }
    forall k: NodeId
      ensures Hits(AddSet(g, n, src, keepSecret), k) <==>
        (k < |g.nodes| && k in SourceShares(g, n, src) && Sent(g, k)) || k in SharingDsts(g, n, src, keepSecret)
    {
      if Hits(AddSet(g, n, src, keepSecret), k) {
        var e :| e in AddSet(g, n, src, keepSecret) && e.output == k;
        if e in Flips(MovedTransits(g, n, src)) {
          var t :| t in MovedTransits(g, n, src) && e == Flip(t);
          MovedFacts(env, parties, g, n, src, keepSecret, t);
        }
      }
      if (k < |g.nodes| && k in SourceShares(g, n, src) && Sent(g, k)) || k in SharingDsts(g, n, src, keepSecret) {
        var e := HitAdd(env, parties, g, n, src, keepSecret, k);
      }
    }
  }

  lemma HitAdd(env: Env, parties: set<Party>, g: Graph, n: NodeId, src: set<Party>, keepSecret: bool,
               k: NodeId) returns (e: Operation)
    requires SharingSetting(env, parties, g, n, src, keepSecret) && |g.outs[n]| > 0
    requires forall t :: t in MovedTransits(g, n, src) ==> IsTransit(t)
    requires (k < |g.nodes| && k in SourceShares(g, n, src) && Sent(g, k)) || k in SharingDsts(g, n, src, keepSecret)
    ensures e in AddSet(g, n, src, keepSecret) && e.output == k
  {
    hide SharingDsts, SourceShares, SharingSrcs, SharingMatch;
    if k in SharingDsts(g, n, src, keepSecret) {
      e := Operation(EVAL, SharingSrcs(g, n, src, keepSecret), k, g.outs[n][0].arg);
    } else {
      SourceIsMoved(g, n, src, k);
      OutEdge(g, k, g.outs[k][0]);
      e := Flip(g.outs[k][0]);
    }
  }

  lemma MovedIsSource(g: Graph, n: NodeId, src: set<Party>, s: NodeId)
    requires Sync(g) && n < |g.nodes| && s in Elems(Outputs(g.outs[n])) && s < |g.nodes| && MovedShare(g, s, src)
    ensures s in SourceShares(g, n, src)
  {
    var es := g.outs[n];
    var i := IndexOfOutput(es, s);
    PickMembers(Outputs(es), TargetParties(g, es), src, s);
    assert Outputs(es)[i] == s && TargetParties(g, es)[i] in src;
  }

  lemma SourceIsMoved(g: Graph, n: NodeId, src: set<Party>, s: NodeId)
    requires Sync(g) && n < |g.nodes| && s in SourceShares(g, n, src)
    ensures s in Outputs(g.outs[n]) && s < |g.nodes| && TargetParty(g, s) in src
    ensures Sent(g, s) ==> g.outs[s][0] in MovedTransits(g, n, src)
  {
    var es := g.outs[n];
    PickMembers(Outputs(es), TargetParties(g, es), src, s);
    var i :| 0 <= i < |es| && Outputs(es)[i] == s && (TargetParties(g, es)[i] in src) == true;
    assert es[i].output == s;
  }

  lemma AddPair(g: Graph, n: NodeId, src: set<Party>, keepSecret: bool, e: Operation, f: Operation)
    requires Sync(g) && n < |g.nodes| && |g.outs[n]| > 0
    requires forall t :: t in MovedTransits(g, n, src) ==>
      IsTransit(t) && t.inputs[0] < |g.nodes| && g.outs[t.inputs[0]] == [t]
        && t.inputs[0] !in SharingDsts(g, n, src, keepSecret)
    requires e in AddSet(g, n, src, keepSecret) && f in AddSet(g, n, src, keepSecret) && e != f
    ensures e.output != f.output
  {
    if e in Flips(MovedTransits(g, n, src)) && f in Flips(MovedTransits(g, n, src)) {
      var t :| t in MovedTransits(g, n, src) && e == Flip(t);
      var u :| u in MovedTransits(g, n, src) && f == Flip(u);
      assert t != u;
    }
  }

  /** In-degrees after a sharing rewrite. */
  lemma SharingDegree(env: Env, parties: set<Party>, g: Graph, n: NodeId, src: set<Party>, keepSecret: bool, r: Graph,
                      k: NodeId)
    requires SharingSetting(env, parties, g, n, src, keepSecret) && SharingResult(g, n, src, keepSecret, r)
    requires k < |g.nodes|
    requires !keepSecret ==> IsRandom(g, n)
    ensures r.nodes == g.nodes && r.live == g.live && Good(r)
    ensures k in Spent(g, n, keepSecret) ==> |g.ins[k]| == 0 && !g.nodes[k].IsIO() && |r.ins[k]| == 1
    ensures k in SourceTargets(g, n, src) ==> |g.ins[k]| == 1 && |r.ins[k]| == 0
    ensures k !in Spent(g, n, keepSecret) && k !in SourceTargets(g, n, src) ==> |r.ins[k]| == |g.ins[k]|
  {
    hide SyncAt, WfEnv, Coherent, AllInputs, Outputs, TargetParty, Replaced, SharingDsts, SharingSrcs, MovedTransits;
    hide NewEvals, OldEvals;
    ElimHits(env, parties, g, n, src);
    AddHits(env, parties, g, n, src, keepSecret);
    ElimPresent(env, parties, g, n, src);
    DegreeReplaced(g, ElimSet(g, n, src), AddSet(g, n, src, keepSecret), r, k);
    SharingRegions(env, parties, g, n, src, keepSecret, k);
  }

  lemma ElimPresent(env: Env, parties: set<Party>, g: Graph, n: NodeId, src: set<Party>)
    requires Ready(env, parties, g) && n < |g.nodes|
    ensures forall e :: e in ElimSet(g, n, src) ==> Has(g, e)
  {
    forall e | e in ElimSet(g, n, src) ensures Has(g, e) {
      if e in OldEvals(g, n) { OutEdge(g, n, e); } else { MovedTransitFacts(env, parties, g, n, src, e); }
    }
  }

  /** Which nodes the eliminated and the added edges reach. */
  lemma SharingRegions(env: Env, parties: set<Party>, g: Graph, n: NodeId, src: set<Party>, keepSecret: bool, k: NodeId)
    requires SharingSetting(env, parties, g, n, src, keepSecret) && k < |g.nodes|
    requires !keepSecret ==> IsRandom(g, n)
    ensures var X, targets, spent := Elems(Outputs(g.outs[n])), SourceTargets(g, n, src), Spent(g, n, keepSecret);
            var shares, dsts := SourceShares(g, n, src), SharingDsts(g, n, src, keepSecret);
            && (k in spent ==> k !in X && k !in targets && k in dsts && k !in shares && IsRandom(g, k))
            && (k in targets ==> |g.ins[k]| == 1 && k !in dsts && (k in shares ==> !Sent(g, k)))
            && (k in X && k !in targets ==> (k in shares && Sent(g, k)) != (k in dsts))
            && (k !in X && k !in targets && k !in spent ==> k !in dsts && k !in shares)
  {
    SharingSplit(env, parties, g, n, src);
    var S, X := AllInputs(g.outs[n]), Elems(Outputs(g.outs[n]));
    assert k in SourceShares(g, n, src) ==> k in Elems(SourceShares(g, n, src));
    if k in SourceTargets(g, n, src) {
      TargetRegion(env, parties, g, n, src, k);
    }
    if k in SourceShares(g, n, src) {
      SourceIsMoved(g, n, src, k);
      var i := IndexOfOutput(g.outs[n], k);
      if !Sent(g, k) {
        assert Target(g, g.outs[n][i].output) in SourceTargets(g, n, src);
      }
    }
    assert k in S && k != n ==> IsRandom(g, k);
  }

  lemma TargetRegion(env: Env, parties: set<Party>, g: Graph, n: NodeId, src: set<Party>, k: NodeId)
    requires Ready(env, parties, g) && n < |g.nodes| && SharingMatch(g, n, src) && src <= parties
    requires k in SourceTargets(g, n, src)
    ensures k < |g.nodes| && |g.ins[k]| == 1
    ensures k in Elems(Outputs(g.outs[n])) ==> k in SourceShares(g, n, src) && !Sent(g, k)
    ensures k !in OtherShares(g, n, src)
  {
    var es := g.outs[n];
    var i :| 0 <= i < |es| && TargetParty(g, es[i].output) in src && k == Target(g, es[i].output);
    TargetDegree(env, parties, g, n, src, i);
    SharingSplit(env, parties, g, n, src);
    if k in Outputs(es) {
      var j := IndexOfOutput(es, k);
      OutEdge(g, n, es[j]);
      assert es[j] in g.ins[k];
      assert !Sent(g, es[i].output);
      PickMembers(Outputs(es), TargetParties(g, es), src, k);
      assert Outputs(es)[i] == k && TargetParties(g, es)[i] in src;
      assert k in Elems(SourceShares(g, n, src));
    } else {
      assert k !in Elems(Outputs(es));
      assert k !in Elems(OtherShares(g, n, src));
    }
  }

  /**
   * The filter of a sharing rewriter: the number of random nodes is unchanged exactly when no
   * source share copy is an input or output of the protocol.
   */
  lemma SharingFilter(env: Env, parties: set<Party>, g: Graph, n: NodeId, src: set<Party>, keepSecret: bool, r: Graph)
    requires SharingSetting(env, parties, g, n, src, keepSecret) && SharingResult(g, n, src, keepSecret, r)
    requires !keepSecret ==> IsRandom(g, n)
    ensures Good(g) && Good(r)
    ensures r.randomCnt == g.randomCnt <==>
      forall k :: k in SourceTargets(g, n, src) ==> k < |g.nodes| && !g.nodes[k].IsIO()
  {
    hide SyncAt, SharingMatch, SharingResult, SourceTargets, Spent, RandomNodes, Coherent, WfEnv;
    var spent, targets := Spent(g, n, keepSecret), SourceTargets(g, n, src);
    SpentSize(env, parties, g, n, src, keepSecret);
    SpentInRange(env, parties, g, n, src, keepSecret);
    var freed := set k | k in targets && k < |g.nodes| && !g.nodes[k].IsIO();
    SharingRandom(env, parties, g, n, src, keepSecret, r, freed);
    SubsetSize(freed, targets);
    assert r.randomCnt == g.randomCnt <==> freed == targets;
    if forall k :: k in targets ==> k < |g.nodes| && !g.nodes[k].IsIO() {
      assert freed == targets;
    }
  }

  /** The random nodes after the rewrite: the spent inputs are gone, the freed copies are new. */
  lemma SharingRandom(env: Env, parties: set<Party>, g: Graph, n: NodeId, src: set<Party>, keepSecret: bool, r: Graph,
                      freed: set<NodeId>)
    requires SharingSetting(env, parties, g, n, src, keepSecret) && SharingResult(g, n, src, keepSecret, r)
    requires !keepSecret ==> IsRandom(g, n)
    requires forall k :: k in freed <==> k in SourceTargets(g, n, src) && k < |g.nodes| && !g.nodes[k].IsIO()
    ensures Good(r) && RandomNodes(r) == (RandomNodes(g) - Spent(g, n, keepSecret)) + freed
    ensures |RandomNodes(r)| == |RandomNodes(g)| - |Spent(g, n, keepSecret)| + |freed|
  {
    hide SharingMatch, SharingResult, SourceTargets, Spent, SyncAt, WfEnv, WellFormed;
    var spent := Spent(g, n, keepSecret);
    SharingDegree(env, parties, g, n, src, keepSecret, r, n);
    forall k: NodeId | k < |g.nodes|
      ensures k in RandomNodes(r) <==> k in (RandomNodes(g) - spent) + freed
      ensures k in spent ==> k in RandomNodes(g)
      ensures k in freed ==> k !in RandomNodes(g)
    {
      SharingDegree(env, parties, g, n, src, keepSecret, r, k);
    }
    SpentInRange(env, parties, g, n, src, keepSecret);
    assert RandomNodes(r) == (RandomNodes(g) - spent) + freed;
  }

  lemma SpentSize(env: Env, parties: set<Party>, g: Graph, n: NodeId, src: set<Party>, keepSecret: bool)
    requires SharingSetting(env, parties, g, n, src, keepSecret)
    ensures |Spent(g, n, keepSecret)| == |SourceTargets(g, n, src)| == |src| && Good(g)
  {
    SharingSplit(env, parties, g, n, src);
    TargetSize(env, parties, g, n, src);
  }

  lemma SpentInRange(env: Env, parties: set<Party>, g: Graph, n: NodeId, src: set<Party>, keepSecret: bool)
    requires SharingSetting(env, parties, g, n, src, keepSecret)
    ensures NodesIn(Spent(g, n, keepSecret), |g.nodes|) && NodesIn(SourceTargets(g, n, src), |g.nodes|)
  {
    SharingNodesInRange(env, parties, g, n, src);
    forall k | k in Spent(g, n, keepSecret) ensures k < |g.nodes| {
      assert k in AllInputs(g.outs[n]) + Elems(Outputs(g.outs[n]));
    }
  }
}
