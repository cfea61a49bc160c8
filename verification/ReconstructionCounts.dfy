// What the reconstruction rewrite does to the number of random nodes: the pre-check of the
// pattern predicts the later filter.
module ReconstructionCounts {
  import opened Graphs
  import opened Counters
  import opened Semantics
  import opened Patterns
  import opened Sharing
  import opened Degrees
  import opened Potentials
  import opened Tails
  import opened Reconstruction

  /** The nodes the arrived destination shares were sent from. */
  ghost function Origins(g: Graph, n: NodeId, src: set<Party>): set<NodeId>
    requires Sync(g) && n < |g.nodes| && |g.ins[n]| == 1
  {
    set s | s in DstShares(g, n, src) && s < |g.nodes| && Arrived(g, s) :: Before(g, s)
  }

  lemma SameOrigin(env: Env, parties: set<Party>, g: Graph, n: NodeId, src: set<Party>, s: NodeId, t: NodeId)
    requires ReconSetting(env, parties, g, n, src)
    requires s in g.ins[n][0].inputs && t in g.ins[n][0].inputs && s < |g.nodes| && t < |g.nodes|
    requires BeforeParty(g, s) == BeforeParty(g, t)
    ensures s == t
  {
    var xs := g.ins[n][0].inputs;
    var ps := BeforeParties(g, xs);
    var i :| 0 <= i < |xs| && xs[i] == s;
    var j :| 0 <= j < |xs| && xs[j] == t;
    assert ps[i] == ps[j];
  }

  lemma DstShare(env: Env, parties: set<Party>, g: Graph, n: NodeId, src: set<Party>, s: NodeId)
    requires ReconSetting(env, parties, g, n, src) && s in DstShares(g, n, src)
    ensures s in g.ins[n][0].inputs && s != n && s < |g.nodes| && BeforeParty(g, s) !in src
  {
    var xs := g.ins[n][0].inputs;
    ReconSplit(env, parties, g, n, src);
    assert s in Elems(DstShares(g, n, src));
    assert s in Elems(xs);
    PickMembers(xs, BeforeParties(g, xs), src, s);
    var i :| 0 <= i < |xs| && xs[i] == s && (BeforeParties(g, xs)[i] in src) == false;
  }

  lemma ReconElimInto(env: Env, parties: set<Party>, g: Graph, n: NodeId, src: set<Party>, k: NodeId)
    requires ReconSetting(env, parties, g, n, src) && k < |g.nodes|
    ensures forall e :: e in ReconElim(g, n, src) ==> Has(g, e)
    ensures |HeadedTo(ReconElim(g, n, src), k)| ==
      if k == n || (k in DstShares(g, n, src) && Arrived(g, k)) then 1 else 0
  {
    ReconSplit(env, parties, g, n, src);
    var S := ReconElim(g, n, src);
    forall e | e in S ensures Has(g, e) && g.ins[e.output] == [e] {
      if e != g.ins[n][0] { ArrivedHas(g, n, src, e); }
    }
    forall e, f | e in S && f in S && e != f ensures e.output != f.output {
      assert g.ins[e.output] == [e] && g.ins[f.output] == [f];
    }
    IntoHits(S, k);
    if k == n {
      assert g.ins[n][0] in S;
    } else if k in DstShares(g, n, src) && Arrived(g, k) {
      assert g.ins[k][0] in S;
    } else if Hits(S, k) {
      var e :| e in S && e.output == k;
      ArrivedHas(g, n, src, e);
    }
  }

  lemma FlipsInto(env: Env, parties: set<Party>, g: Graph, n: NodeId, src: set<Party>, k: NodeId)
    requires ReconSetting(env, parties, g, n, src)
    requires forall t :: t in ArrivedTransits(g, n, src) ==> IsTransit(t)
    ensures |HeadedTo(Flips(ArrivedTransits(g, n, src)), k)| == if k in Origins(g, n, src) then 1 else 0
  {
    var ts := ArrivedTransits(g, n, src);
    forall e, f | e in Flips(ts) && f in Flips(ts) && e != f ensures e.output != f.output {
      var t :| t in ts && e == Flip(t);
      var u :| u in ts && f == Flip(u);
      ArrivedHas(g, n, src, t);
      ArrivedHas(g, n, src, u);
      DstShare(env, parties, g, n, src, t.output);
      DstShare(env, parties, g, n, src, u.output);
      if e.output == f.output {
        SameOrigin(env, parties, g, n, src, t.output, u.output);
      }
    }
    IntoHits(Flips(ts), k);
    if k in Origins(g, n, src) {
      var s :| s in DstShares(g, n, src) && s < |g.nodes| && Arrived(g, s) && k == Before(g, s);
      assert Flip(g.ins[s][0]) in Flips(ts) && Flip(g.ins[s][0]).output == k;
    }
    if Hits(Flips(ts), k) {
      var e :| e in Flips(ts) && e.output == k;
      var t :| t in ts && e == Flip(t);
      ArrivedHas(g, n, src, t);
    }
  }

  lemma ReconAddInto(env: Env, parties: set<Party>, g: Graph, n: NodeId, src: set<Party>, k: NodeId)
    requires ReconSetting(env, parties, g, n, src)
    ensures |HeadedTo(ReconAdd(g, n, src), k)| ==
      (if k in Origins(g, n, src) then 1 else 0) + if k in DstShares(g, n, src) then 1 else 0
  {
    hide Origins, DstShares, KeptShares;
    ArrivedAreTransits(g, n, src);
    var F, E := Flips(ArrivedTransits(g, n, src)), ReconEvals(g, n, src);
    assert F !! E by {
      assert forall e :: e in F ==> e.op.TRANSIT?;
      assert forall e :: e in E ==> e.op.EVAL?;
    }
    IntoUnion(F, E, k);
    FlipsInto(env, parties, g, n, src, k);
    IntoHits(E, k);
    if k in DstShares(g, n, src) {
      assert Operation(EVAL, [n] + KeptShares(g, n, src), k, g.ins[n][0].arg) in E;
    }
  }

  /** In-degrees after a reconstruction rewrite. */
  lemma ReconDegree(env: Env, parties: set<Party>, g: Graph, n: NodeId, src: set<Party>, r: Graph, k: NodeId)
    requires ReconSetting(env, parties, g, n, src) && ReconResult(g, n, src, r) && k < |g.nodes|
    ensures r.nodes == g.nodes && r.live == g.live && Good(r)
    ensures |r.ins[k]| == |g.ins[k]|
      - (if k == n || (k in DstShares(g, n, src) && Arrived(g, k)) then 1 else 0)
      + (if k in Origins(g, n, src) then 1 else 0) + if k in DstShares(g, n, src) then 1 else 0
  {
    hide Origins, DstShares, KeptShares;
    ReconElimInto(env, parties, g, n, src, k);
    ReconAddInto(env, parties, g, n, src, k);
    DegreeInto(g, ReconElim(g, n, src), ReconAdd(g, n, src), r, k);
  }

  /** The random nodes among those the destination shares come from. */
  ghost function LostRandom(g: Graph, xs: seq<NodeId>, src: set<Party>): set<NodeId>
    requires Sync(g) && AllNodes(g, xs)
  {
    set i | 0 <= i < |xs| && BeforeParty(g, xs[i]) !in src && IsRandom(g, Before(g, xs[i])) :: Before(g, xs[i])
  }

  lemma {:induction false} RandomDstsSize(g: Graph, xs: seq<NodeId>, src: set<Party>)
    requires Sync(g) && AllNodes(g, xs) && NoDup(BeforeParties(g, xs))
    ensures RandomDsts(g, xs, src) == |LostRandom(g, xs, src)|
  {
    if xs != [] {
      var k := |xs| - 1;
      var front, ps := xs[..k], BeforeParties(g, xs);
      forall i, j | 0 <= i < j < |front| ensures BeforeParties(g, front)[i] != BeforeParties(g, front)[j] {
        assert ps[i] != ps[j];
      }
      RandomDstsSize(g, front, src);
      LostSnoc(g, xs, src);
    } else {
      assert LostRandom(g, xs, src) == {};
    }
  }

  ghost predicate LostAt(g: Graph, xs: seq<NodeId>, src: set<Party>, i: nat, b: NodeId)
    requires Sync(g) && AllNodes(g, xs) && i < |xs|
  {
    b == Before(g, xs[i]) && BeforeParty(g, xs[i]) !in src && IsRandom(g, b)
  }

  lemma LostMember(g: Graph, xs: seq<NodeId>, src: set<Party>, b: NodeId)
    requires Sync(g) && AllNodes(g, xs)
    ensures b in LostRandom(g, xs, src) <==> exists i :: 0 <= i < |xs| && LostAt(g, xs, src, i, b)
  {
    if exists i :: 0 <= i < |xs| && LostAt(g, xs, src, i, b) {
      var i :| 0 <= i < |xs| && LostAt(g, xs, src, i, b);
      assert Before(g, xs[i]) in LostRandom(g, xs, src);
    }
    if b in LostRandom(g, xs, src) {
      var i :| 0 <= i < |xs| && BeforeParty(g, xs[i]) !in src && IsRandom(g, Before(g, xs[i])) && b == Before(g, xs[i]);
      assert LostAt(g, xs, src, i, b);
    }
  }

  lemma LostStep(g: Graph, xs: seq<NodeId>, src: set<Party>, b: NodeId)
    requires Sync(g) && AllNodes(g, xs) && xs != []
    ensures var k := |xs| - 1;
            b in LostRandom(g, xs, src) <==> b in LostRandom(g, xs[..k], src) || LostAt(g, xs, src, k, b)
  {
    var k := |xs| - 1;
    LostMember(g, xs, src, b);
    LostMember(g, xs[..k], src, b);
    if exists i :: 0 <= i < k && LostAt(g, xs[..k], src, i, b) {
      var i :| 0 <= i < k && LostAt(g, xs[..k], src, i, b);
      assert LostAt(g, xs, src, i, b);
    }
    if exists i :: 0 <= i < |xs| && LostAt(g, xs, src, i, b) {
      var i :| 0 <= i < |xs| && LostAt(g, xs, src, i, b);
      assert i < k ==> LostAt(g, xs[..k], src, i, b);
    }
  }

  lemma LostSnoc(g: Graph, xs: seq<NodeId>, src: set<Party>)
    requires Sync(g) && AllNodes(g, xs) && NoDup(BeforeParties(g, xs)) && xs != []
    ensures var k := |xs| - 1;
            |LostRandom(g, xs, src)| == |LostRandom(g, xs[..k], src)|
              + if BeforeParty(g, xs[k]) !in src && IsRandom(g, Before(g, xs[k])) then 1 else 0
  {
    hide LostRandom, SyncAt;
    var k := |xs| - 1;
    var A, b := LostRandom(g, xs[..k], src), Before(g, xs[k]);
    LostMember(g, xs[..k], src, b);
    forall i | 0 <= i < k ensures !LostAt(g, xs[..k], src, i, b) {
      assert BeforeParties(g, xs)[i] != BeforeParties(g, xs)[k];
    }
    var lost: set<NodeId> := if LostAt(g, xs, src, k, b) then {b} else {};
    forall c ensures c in LostRandom(g, xs, src) <==> c in A + lost { LostStep(g, xs, src, c); }
    assert LostRandom(g, xs, src) == A + lost;
  }

  /** Whether node k is random after the rewrite. */
  lemma ReconRandom(env: Env, parties: set<Party>, g: Graph, n: NodeId, src: set<Party>, r: Graph, k: NodeId)
    requires ReconSetting(env, parties, g, n, src) && ReconResult(g, n, src, r) && k < |g.nodes|
    requires Shape(r) && r.nodes == g.nodes
    ensures AllNodes(g, g.ins[n][0].inputs)
    ensures IsRandom(r, k) <==>
      (IsRandom(g, k) && k !in LostRandom(g, g.ins[n][0].inputs, src))
      || (k == n && !g.nodes[n].IsIO() && n !in Origins(g, n, src))
  {
    var xs := g.ins[n][0].inputs;
    ReconDegree(env, parties, g, n, src, r, k);
    if k in DstShares(g, n, src) { DstShare(env, parties, g, n, src, k); }
    if k in LostRandom(g, xs, src) {
      var i :| 0 <= i < |xs| && BeforeParty(g, xs[i]) !in src && k == Before(g, xs[i]);
      PickMembers(xs, BeforeParties(g, xs), src, xs[i]);
      assert xs[i] in DstShares(g, n, src);
    }
    if k in Origins(g, n, src) {
      var s :| s in DstShares(g, n, src) && s < |g.nodes| && Arrived(g, s) && k == Before(g, s);
      LostOrigin(env, parties, g, n, src, s);
    }
    if k in DstShares(g, n, src) && !Arrived(g, k) {
      LostOrigin(env, parties, g, n, src, k);
    }
  }

  lemma LostOrigin(env: Env, parties: set<Party>, g: Graph, n: NodeId, src: set<Party>, s: NodeId)
    requires ReconSetting(env, parties, g, n, src) && s in DstShares(g, n, src)
    ensures s < |g.nodes| && AllNodes(g, g.ins[n][0].inputs)
    ensures IsRandom(g, Before(g, s)) ==> Before(g, s) in LostRandom(g, g.ins[n][0].inputs, src)
  {
    var xs := g.ins[n][0].inputs;
    DstShare(env, parties, g, n, src, s);
    var i :| 0 <= i < |xs| && xs[i] == s;
  }

  /**
   * The filter, exactly: the number of random nodes is unchanged if and only if as many
   * destination shares come from random nodes as the reconstructed node makes random nodes,
   * which it does unless it is an input or output or is sent back as one of the shares.
   */
  lemma ReconFilter(env: Env, parties: set<Party>, g: Graph, n: NodeId, src: set<Party>, r: Graph)
    requires ReconSetting(env, parties, g, n, src) && ReconResult(g, n, src, r)
    ensures Good(r) && AllNodes(g, g.ins[n][0].inputs)
    ensures r.randomCnt == g.randomCnt <==>
      RandomDsts(g, g.ins[n][0].inputs, src) == if g.nodes[n].IsIO() || n in Origins(g, n, src) then 0 else 1
  {
    hide LostRandom, Origins, SyncAt, ReconResult, Coherent, WfEnv;
    var xs := g.ins[n][0].inputs;
    ReconDegree(env, parties, g, n, src, r, n);
    RandomDstsSize(g, xs, src);
    var lost := LostRandom(g, xs, src);
    var gained: set<NodeId> := if g.nodes[n].IsIO() || n in Origins(g, n, src) then {} else {n};
    forall k: NodeId | k < |g.nodes|
      ensures k in RandomNodes(r) <==> k in (RandomNodes(g) - lost) + gained
    {
      ReconRandom(env, parties, g, n, src, r, k);
    }
    assert RandomNodes(r) == (RandomNodes(g) - lost) + gained;
    LostAreRandom(g, xs, src);
    assert |g.ins[n]| == 1 && n !in RandomNodes(g);
    assert |RandomNodes(r)| == |RandomNodes(g)| - |lost| + |gained|;
  }

  /** The pre-check predicts the filter exactly under this condition. */
  lemma ReconPrediction(env: Env, parties: set<Party>, g: Graph, n: NodeId, src: set<Party>, r: Graph)
    requires ReconSetting(env, parties, g, n, src) && ReconResult(g, n, src, r)
    ensures InRange(g, g.ins[n][0]) && AllNodes(g, g.ins[n][0].inputs)
    ensures (r.randomCnt == g.randomCnt <==> RewritableReconstruction(g, g.ins[n][0], src)) <==>
      n !in Origins(g, n, src) || g.nodes[n].IsIO() || RandomDsts(g, g.ins[n][0].inputs, src) >= 2
  {
    hide Origins, SyncAt, ReconResult, Coherent, WfEnv, RandomDsts;
    ReconFilter(env, parties, g, n, src, r);
  }

  /** A node that is sent back as a share of its own reconstruction is on a cycle. */
  lemma OriginsOfAcyclic(g: Graph, n: NodeId, src: set<Party>)
    requires Sync(g) && n < |g.nodes| && |g.ins[n]| == 1 && AllNodes(g, g.ins[n][0].inputs) && Acyclic(g)
    ensures n !in Origins(g, n, src)
  {
    hide SyncAt;
    var xs := g.ins[n][0].inputs;
    var rank :| Ranked(g, rank);
    forall s | s in DstShares(g, n, src) && s < |g.nodes| && Arrived(g, s) ensures Before(g, s) != n {
      PickMembers(xs, BeforeParties(g, xs), src, s);
      assert Feeds(g, s, n) && Feeds(g, Before(g, s), s);
    }
  }

  lemma LostAreRandom(g: Graph, xs: seq<NodeId>, src: set<Party>)
    requires Good(g) && AllNodes(g, xs)
    ensures LostRandom(g, xs, src) <= RandomNodes(g)
  {
  }
}
