// The potential that the rewriting loop drives down: its worklist search against reachability,
// and the bound that makes the loop terminate.
module Potentials {
  import opened Graphs
  import opened Counters
  import opened Assembly

  datatype Potential = Potential(bubbles: int, reaching: int, size: int, topo: int)

  /** The lexicographic order of the potential tuples. */
  predicate Less(p: Potential, q: Potential) {
    if p.bubbles != q.bubbles then p.bubbles < q.bubbles
    else if p.reaching != q.reaching then p.reaching < q.reaching
    else if p.size != q.size then p.size < q.size
    else p.topo < q.topo
  }

  predicate AtCorrupted(g: Graph, n: NodeId)
    requires n < |g.nodes|
  {
    g.nodes[n].party in g.corrupted
  }

  /** Some edge leads from m to n. */
  ghost predicate Feeds(g: Graph, m: NodeId, n: NodeId)
    requires Shape(g)
  {
    n < |g.nodes| && exists e :: e in g.ins[n] && m in e.inputs
  }

  ghost predicate Path(g: Graph, ns: seq<NodeId>)
    requires Shape(g)
  {
    && |ns| > 0 && ns[0] < |g.nodes|
    && (forall i :: 0 <= i < |ns| - 1 ==> Feeds(g, ns[i], ns[i + 1]))
  }

  /** A directed path leads from n to a node of a corrupted party. */
  ghost predicate Reaches(g: Graph, n: NodeId)
    requires Sync(g)
  {
    exists ns :: Path(g, ns) && ns[0] == n && ns[|ns|-1] < |g.nodes| && AtCorrupted(g, ns[|ns|-1])
  }

  /** The honest nodes a corrupted party's view can depend on. */
  ghost function HonestReaching(g: Graph): set<NodeId>
    requires Sync(g)
  {
    set n: NodeId | n < |g.nodes| && !AtCorrupted(g, n) && Reaches(g, n)
  }

  function TopoSum(g: Graph, k: nat): nat
    requires Shape(g) && k <= |g.nodes|
  {
    if k == 0 then 0
    else
      TopoSum(g, k - 1) + (if |g.ins[k - 1]| == 0 && !AtCorrupted(g, k - 1) then |g.nodes| - (k - 1) else 0)
  }

  ghost function PotentialOf(g: Graph): Potential
    requires Sync(g)
  {
    Potential(g.bubbleCnt, |HonestReaching(g)|, |g.nodes|, TopoSum(g, |g.nodes|))
  }

  // ----- Reachability step by step

  lemma CorruptedReaches(g: Graph, n: NodeId)
    requires Sync(g) && n < |g.nodes| && AtCorrupted(g, n)
    ensures Reaches(g, n)
  {
    assert Path(g, [n]);
    assert [n][|[n]| - 1] == n;
  }

  lemma FeederReaches(g: Graph, m: NodeId, n: NodeId)
    requires Sync(g) && m < |g.nodes| && Feeds(g, m, n) && Reaches(g, n)
    ensures Reaches(g, m)
  {
    var ns :| Path(g, ns) && ns[0] == n && ns[|ns|-1] < |g.nodes| && AtCorrupted(g, ns[|ns|-1]);
    var ms := [m] + ns;
    forall i | 0 <= i < |ms| - 1 ensures Feeds(g, ms[i], ms[i + 1]) {
      if i > 0 { assert Feeds(g, ns[i - 1], ns[i]); }
    }
    assert Path(g, ms) && ms[|ms| - 1] == ns[|ns| - 1];
  }

  lemma FeederInRange(g: Graph, m: NodeId, n: NodeId)
    requires Sync(g) && Feeds(g, m, n)
    ensures m < |g.nodes|
  {
    var e :| e in g.ins[n] && m in e.inputs;
    assert InRange(g, e);
    var i :| 0 <= i < |e.inputs| && e.inputs[i] == m;
  }

  /** A set closed under feeding edges that holds all corrupted nodes holds every node that reaches one. */
  lemma {:induction false} ClosedHolds(g: Graph, V: set<NodeId>, ns: seq<NodeId>)
    requires Sync(g) && Path(g, ns) && ns[|ns|-1] < |g.nodes| && AtCorrupted(g, ns[|ns|-1])
    requires forall n: NodeId :: n < |g.nodes| && AtCorrupted(g, n) ==> n in V
    requires forall m, n :: n in V && Feeds(g, m, n) ==> m in V
    ensures ns[0] in V
    decreases |ns|
  {
    if |ns| > 1 {
      var rest := ns[1..];
      assert Feeds(g, ns[0], ns[1]);
      forall i | 0 <= i < |rest| - 1 ensures Feeds(g, rest[i], rest[i + 1]) {
        assert Feeds(g, ns[i + 1], ns[i + 2]);
      }
      assert Path(g, rest) && rest[|rest| - 1] == ns[|ns| - 1];
      ClosedHolds(g, V, rest);
    }
  }

  // ----- The worklist search

  ghost function VisitedNodes(visited: seq<bool>): set<NodeId> {
    set n: NodeId | n < |visited| && visited[n]
  }

  ghost function UnvisitedNodes(visited: seq<bool>): set<NodeId> {
    set n: NodeId | n < |visited| && !visited[n]
  }

  ghost predicate SearchInv(g: Graph, visited: seq<bool>, q: seq<NodeId>)
    requires Sync(g)
  {
    && |visited| == |g.nodes|
    && (forall n :: n in q ==> n < |g.nodes| && Reaches(g, n))
    && (forall n :: n in VisitedNodes(visited) ==> Reaches(g, n))
    && (forall n: NodeId :: n < |g.nodes| && AtCorrupted(g, n) ==> n in VisitedNodes(visited) || n in q)
    && (forall m, n :: n in VisitedNodes(visited) && Feeds(g, m, n) ==> m in VisitedNodes(visited) || m in q)
  }

  ghost predicate FeedQueued(g: Graph, n: NodeId, es: seq<Operation>, q: seq<NodeId>)
  {
    forall e, m :: e in es && m in e.inputs ==> m in q
  }

  /** Queue every source of every edge into n. */
  method PushFeeders(g: Graph, n: NodeId, q0: seq<NodeId>) returns (q: seq<NodeId>)
    requires Sync(g) && n < |g.nodes| && Reaches(g, n)
    ensures q0 <= q && FeedQueued(g, n, g.ins[n], q)
    ensures forall m :: m in q && m !in q0 ==> m < |g.nodes| && Reaches(g, m)
  {
    hide SyncAt, Reaches;
    q := q0;
    for i := 0 to |g.ins[n]|
      invariant q0 <= q && FeedQueued(g, n, g.ins[n][..i], q)
      invariant forall m :: m in q && m !in q0 ==> m < |g.nodes| && Reaches(g, m)
    {
      var e := g.ins[n][i];
      ghost var before := q;
      forall m | m in e.inputs ensures m < |g.nodes| && Reaches(g, m) {
        assert Feeds(g, m, n);
        FeederInRange(g, m, n);
        FeederReaches(g, m, n);
      }
      q := q + e.inputs;
      assert g.ins[n][..i + 1] == g.ins[n][..i] + [e];
      assert forall m :: m in before ==> m in q;
    }
    assert g.ins[n][..|g.ins[n]|] == g.ins[n];
  }

  method Seeds(g: Graph) returns (q: seq<NodeId>)
    requires Sync(g) && AllLive(g)
    ensures forall n: NodeId :: n in q <==> n < |g.nodes| && AtCorrupted(g, n)
  {
    q := [];
    for n := 0 to |g.nodes|
      invariant forall k: NodeId :: k in q <==> k < n && AtCorrupted(g, k)
    {
      if g.live[n] && AtCorrupted(g, n) { q := q + [n]; }
    }
  }

  /** The search terminates on every graph, cyclic or not, and counts each node once. */
  method CountReaching(g: Graph) returns (count: int)
    requires Sync(g) && AllLive(g)
    ensures count == |HonestReaching(g)|
  {
    hide SyncAt, Reaches, Feeds;
    var visited: seq<bool> := seq(|g.nodes|, _ => false);
    var q: seq<NodeId> := Seeds(g);
    count := 0;
    ghost var seen: set<NodeId> := {};
    forall n | n in q ensures Reaches(g, n) { CorruptedReaches(g, n); }
    while q != []
      invariant SearchInv(g, visited, q)
      invariant seen == (set n | n in VisitedNodes(visited) && !AtCorrupted(g, n)) && count == |seen|
      decreases UnvisitedNodes(visited), |q|
    {
      var n := q[0];
      assert n in q && n < |g.nodes|;
      ghost var q0: seq<NodeId> := q;
      q := q[1..];
      assert q0 == [n] + q;
      if visited[n] {
        assert n in VisitedNodes(visited);
      } else {
        ghost var before := visited;
        visited := visited[n := true];
        assert VisitedNodes(visited) == VisitedNodes(before) + {n};
        assert n in UnvisitedNodes(before) && UnvisitedNodes(visited) == UnvisitedNodes(before) - {n};
        if !AtCorrupted(g, n) {
          count := count + 1;
          seen := seen + {n};
        }
        ghost var rest: seq<NodeId> := q;
        q := PushFeeders(g, n, q);
        Advance(g, before, visited, n, rest, q);
      }
    }
    SearchDone(g, visited);
  }

  lemma Advance(g: Graph, before: seq<bool>, visited: seq<bool>, n: NodeId, rest: seq<NodeId>, q: seq<NodeId>)
    requires Sync(g) && n < |g.nodes| && SearchInv(g, before, [n] + rest)
    requires visited == before[n := true] && rest <= q && FeedQueued(g, n, g.ins[n], q)
    requires forall m :: m in q && m !in rest ==> m < |g.nodes| && Reaches(g, m)
    ensures SearchInv(g, visited, q)
  {
    hide SyncAt, Reaches;
    assert VisitedNodes(visited) == VisitedNodes(before) + {n};
    assert n in [n] + rest;
    assert forall m :: m in rest ==> m in q && m in [n] + rest;
    forall k: NodeId | k < |g.nodes| && AtCorrupted(g, k) ensures k in VisitedNodes(visited) || k in q {
      assert k in VisitedNodes(before) || k in [n] + rest;
    }
    forall m, k | k in VisitedNodes(visited) && Feeds(g, m, k) ensures m in VisitedNodes(visited) || m in q {
      if k == n {
        var e :| e in g.ins[n] && m in e.inputs;
      } else {
        assert m in VisitedNodes(before) || m in [n] + rest;
      }
    }
  }

  lemma SearchDone(g: Graph, visited: seq<bool>)
    requires Sync(g) && SearchInv(g, visited, [])
    ensures (set n | n in VisitedNodes(visited) && !AtCorrupted(g, n)) == HonestReaching(g)
  {
    hide SyncAt, Feeds;
    var V := VisitedNodes(visited);
    forall n: NodeId | n < |g.nodes| && Reaches(g, n) ensures n in V {
      var ns :| Path(g, ns) && ns[0] == n && ns[|ns|-1] < |g.nodes| && AtCorrupted(g, ns[|ns|-1]);
      ClosedHolds(g, V, ns);
    }
  }

  method ComputePotential(g: Graph) returns (p: Potential)
    requires Sync(g) && AllLive(g)
    ensures p == PotentialOf(g)
  {
    var reaching := CountReaching(g);
    var topo := 0;
    for n := 0 to |g.nodes|
      invariant topo == TopoSum(g, n)
    {
      if g.live[n] && |g.ins[n]| == 0 && !AtCorrupted(g, n) {
        topo := topo + |g.nodes| - n;
      }
    }
    p := Potential(g.bubbleCnt, reaching, |g.nodes|, topo);
  }

  // ----- What the components count

  ghost function Row(n: NodeId, size: nat): (r: set<(NodeId, nat)>)
    requires n <= size
    ensures |r| == size - n && forall p :: p in r <==> p.0 == n && n <= p.1 < size
  {
    if n == size then {} else Row(n, size - 1) + {(n, size - 1)}
  }

  predicate HonestRoot(g: Graph, n: NodeId)
    requires Shape(g) && n < |g.nodes|
  {
    |g.ins[n]| == 0 && !AtCorrupted(g, n)
  }

  /** An honest node without in-edges among the first k, and a guid from its own on. */
  ghost function Ranges(g: Graph, k: nat): (r: set<(NodeId, nat)>)
    requires Shape(g) && k <= |g.nodes|
    ensures forall p :: p in r <==> p.0 < k && p.0 <= p.1 < |g.nodes| && HonestRoot(g, p.0)
  {
    set n: NodeId, m: nat | n < k && m < |g.nodes| && n <= m && HonestRoot(g, n) :: (n, m)
  }

  lemma {:induction false} TopoCounts(g: Graph, k: nat)
    requires Shape(g) && k <= |g.nodes|
    ensures TopoSum(g, k) == |Ranges(g, k)|
  {
    hide Row, Ranges;
    if k > 0 {
      TopoCounts(g, k - 1);
      var row := if HonestRoot(g, k - 1) then Row(k - 1, |g.nodes|) else {};
      assert Ranges(g, k) == Ranges(g, k - 1) + row;
      assert Ranges(g, k - 1) !! row;
    } else {
      assert Ranges(g, 0) == {};
    }
  }

  /**
   * The bubbles, the honest nodes that reach a corrupted party, the nodes, and the pairs of an
   * honest node without in-edges and a guid from its own on.
   */
  lemma PotentialCounts(g: Graph)
    requires Good(g)
    ensures PotentialOf(g) == Potential(|Bubbles(g)|, |HonestReaching(g)|, |g.nodes|, |Ranges(g, |g.nodes|)|)
  {
    TopoCounts(g, |g.nodes|);
  }

  // ----- Bounds

  /** The largest value of the last component, for n nodes. */
  function Triangle(n: nat): nat {
    n * (n + 1) / 2
  }

  lemma {:induction false} TopoBound(g: Graph, k: nat)
    requires Shape(g) && k <= |g.nodes|
    ensures 2 * TopoSum(g, k) <= k * (2 * |g.nodes| - k + 1)
  {
    if k > 0 {
      TopoBound(g, k - 1);
      var n := |g.nodes|;
      assert (k - 1) * (2 * n - (k - 1) + 1) + 2 * (n - (k - 1)) == k * (2 * n - k + 1);
    }
  }

  ghost predicate Bounds(p: Potential, n: nat) {
    && 0 <= p.bubbles <= n && 0 <= p.reaching <= n && p.size == n && 0 <= p.topo <= Triangle(n)
  }

  /** Every component is non-negative and bounded by the number of nodes. */
  lemma PotentialBounds(g: Graph)
    requires Good(g)
    ensures Bounds(PotentialOf(g), |g.nodes|)
  {
    var n := |g.nodes|;
    TopoBound(g, n);
    assert n * (2 * n - n + 1) == n * (n + 1);
    Bounded(Bubbles(g), n);
    Bounded(HonestReaching(g), n);
  }

  /** Up to 65535 nodes the last component fits the program's 32-bit integers. */
  lemma TopoFits(g: Graph)
    requires Good(g) && |g.nodes| <= 65535
    ensures 0 <= PotentialOf(g).topo < 0x8000_0000
  {
    TopoBound(g, |g.nodes|);
    SmallTriangle(|g.nodes|);
  }

  lemma ProductMonotone(a: int, b: int, c: int, d: int)
    requires 0 <= a <= b && 0 <= c <= d
    ensures a * c <= b * d
  {
    assert (b - a) * c >= 0 && b * (d - c) >= 0;
  }

  lemma SmallTriangle(n: nat)
    requires n <= 65535
    ensures n * (2 * n - n + 1) <= 65535 * 65536
  {
    ProductMonotone(n, 65535, 2 * n - n + 1, 65536);
  }

  /** Honest nodes without in-edges make the last component as large as it gets. */
  lemma {:induction false} TopoAll(g: Graph, k: nat)
    requires Shape(g) && k <= |g.nodes| && AllLive(g) && g.corrupted == {}
    requires forall n :: 0 <= n < |g.nodes| ==> g.ins[n] == []
    ensures 2 * TopoSum(g, k) == k * (2 * |g.nodes| - k + 1)
  {
    if k > 0 {
      TopoAll(g, k - 1);
      var n := |g.nodes|;
      assert (k - 1) * (2 * n - (k - 1) + 1) + 2 * (n - (k - 1)) == k * (2 * n - k + 1);
    }
  }

  /** From 65536 nodes on, some graph has a last component that does not fit. */
  lemma TopoOverflows(n: nat) returns (g: Graph)
    requires 65536 <= n < 0x8000_0000
    ensures Good(g) && |g.nodes| == n && PotentialOf(g).topo >= 0x8000_0000
  {
    g := Bare(seq(n, _ => Node(0, Others)), 1, 0, {});
    TopoAll(g, n);
    ProductMonotone(65536, n, 65537, 2 * n - n + 1);
  }

  /** The last component fits the program's 32-bit integers for all graphs of n nodes, up to 65535 nodes only. */
  lemma TopoFitsExactly(n: nat)
    requires n < 0x8000_0000
    ensures n <= 65535 <==> forall g :: Good(g) && |g.nodes| == n ==> 0 <= PotentialOf(g).topo < 0x8000_0000
  {
    hide PotentialOf, SyncAt;
    if n <= 65535 {
      forall g | Good(g) && |g.nodes| == n ensures 0 <= PotentialOf(g).topo < 0x8000_0000 { TopoFits(g); }
    } else {
      var g := TopoOverflows(n);
    }
  }

  /** A number that orders the potentials of graphs with n nodes. */
  function Rank(p: Potential, n: nat): int {
    (p.bubbles * (n + 1) + p.reaching) * (Triangle(n) + 1) + p.topo
  }

  /** The number of potentials of graphs with n nodes. */
  function RankBound(n: nat): nat {
    (n + 1) * (n + 1) * (Triangle(n) + 1)
  }

  lemma MulLess(a: int, b: int, m: int, c: int, d: int)
    requires a < b && 0 <= c < m && 0 <= d
    ensures a * m + c < b * m + d
  {
    assert (b - a - 1) * m >= 0;
    assert (b - a - 1) * m == b * m - a * m - m;
  }

  /** The order is total: of two different potentials one is smaller. */
  lemma LessTotal(p: Potential, q: Potential)
    ensures p == q || Less(p, q) || Less(q, p)
    ensures !(Less(p, q) && Less(q, p)) && !Less(p, p)
  {
  }

  /** On the potentials of graphs with n nodes it is the order of the ranks. */
  lemma RankOrders(p: Potential, q: Potential, n: nat)
    requires Bounds(p, n) && Bounds(q, n)
    ensures Less(p, q) <==> Rank(p, n) < Rank(q, n)
  {
    LessTotal(p, q);
    if Less(p, q) { RankIncreases(p, q, n); }
    if Less(q, p) { RankIncreases(q, p, n); }
  }

  lemma RankIncreases(p: Potential, q: Potential, n: nat)
    requires Bounds(p, n) && Bounds(q, n) && Less(p, q)
    ensures Rank(p, n) < Rank(q, n)
  {
    hide Triangle;
    if p.bubbles < q.bubbles {
      MulLess(p.bubbles, q.bubbles, n + 1, p.reaching, q.reaching);
      MulLess(p.bubbles * (n + 1) + p.reaching, q.bubbles * (n + 1) + q.reaching, Triangle(n) + 1, p.topo, q.topo);
    } else if p.reaching < q.reaching {
      MulLess(p.bubbles * (n + 1) + p.reaching, q.bubbles * (n + 1) + q.reaching, Triangle(n) + 1, p.topo, q.topo);
    }
  }

  lemma RankInBound(p: Potential, n: nat)
    requires Bounds(p, n)
    ensures 0 <= Rank(p, n) < RankBound(n)
  {
    hide Triangle;
    var b, m := p.bubbles * (n + 1) + p.reaching, Triangle(n) + 1;
    assert 0 <= b;
    MulLess(p.bubbles, n + 1, n + 1, p.reaching, 0);
    assert b < (n + 1) * (n + 1);
    MulLess(b, (n + 1) * (n + 1), m, p.topo, 0);
    assert b * m >= 0;
  }

  lemma LessTransitive(p: Potential, q: Potential, r: Potential)
    requires Less(p, q) && Less(q, r)
    ensures Less(p, r)
  {
  }
}
