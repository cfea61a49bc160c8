// The cached random-node and bubble counters against a full recount, for every way of
// adding and eliminating edges.
module Counters {
  import opened Graphs

  ghost predicate IsBubble(g: Graph, n: NodeId)
    requires Shape(g) && n < |g.nodes|
  {
    g.nodes[n].IsIO() && (g.nodes[n].party in g.corrupted ==> |g.ins[n]| != 0)
  }

  ghost function RandomNodes(g: Graph): set<NodeId>
    requires Shape(g)
  {
    set n: NodeId | n < |g.nodes| && g.live[n] && IsRandom(g, n)
  }

  ghost function Bubbles(g: Graph): set<NodeId>
    requires Shape(g)
  {
    set n: NodeId | n < |g.nodes| && g.live[n] && IsBubble(g, n)
  }

  /** The cached counters are what a recount gives. */
  ghost predicate Counted(g: Graph)
    requires Shape(g)
  {
    g.randomCnt == |RandomNodes(g)| && g.bubbleCnt == |Bubbles(g)|
  }

  /** Guids are 32-bit signed integers. */
  predicate Small(g: Graph) {
    |g.nodes| < 0x8000_0000
  }

  ghost function Upto(n: nat): (s: set<NodeId>)
    ensures |s| == n && forall k: NodeId :: k in s <==> k < n
  {
    if n == 0 then {} else Upto(n - 1) + {n - 1}
  }

  lemma Bounded(s: set<NodeId>, n: nat)
    requires forall k :: k in s ==> k < n
    ensures |s| <= n
  {
    assert s <= Upto(n);
    SubsetSize(s, Upto(n));
  }

  lemma SubsetSize<A>(s: set<A>, t: set<A>)
    requires s <= t
    ensures |s| <= |t|
    ensures |s| == |t| ==> s == t
  {
    assert t == s + (t - s);
    assert s !! (t - s);
  }

  lemma CountersFit(g: Graph)
    requires Shape(g) && Small(g)
    ensures |RandomNodes(g)| < 0x8000_0000 && |Bubbles(g)| < 0x8000_0000
  {
    Bounded(RandomNodes(g), |g.nodes|);
    Bounded(Bubbles(g), |g.nodes|);
  }

  // ----- One edge

  lemma DegreeWithEdge(g: Graph, e: Operation, n: NodeId)
    requires Shape(g) && InRange(g, e) && n < |g.nodes|
    ensures |WithEdge(g, e).ins[n]| == |g.ins[n]| + if n == e.output then 1 else 0
  {
  }

  lemma DegreeWithoutEdge(g: Graph, e: Operation, n: NodeId)
    requires Shape(g) && Has(g, e) && n < |g.nodes|
    ensures |WithoutEdge(g, e).ins[n]| == |g.ins[n]| - if n == e.output then 1 else 0
  {
    RemoveFirstCount(g.ins[e.output], e);
  }

  lemma SameElsewhere(g: Graph, r: Graph, n: NodeId)
    requires Shape(g) && Shape(r) && r.nodes == g.nodes && r.live == g.live && r.corrupted == g.corrupted
    requires forall k :: 0 <= k < |g.nodes| && k != n ==> |r.ins[k]| == |g.ins[k]|
    ensures RandomNodes(r) - {n} == RandomNodes(g) - {n}
    ensures Bubbles(r) - {n} == Bubbles(g) - {n}
  {
    forall k: NodeId | k < |g.nodes| && k != n
      ensures IsRandom(r, k) == IsRandom(g, k) && IsBubble(r, k) == IsBubble(g, k)
    {
    }
  }

  /** How one membership decides the size of a set whose other elements are fixed. */
  lemma SizeByOne(s: set<NodeId>, t: set<NodeId>, n: NodeId)
    requires s - {n} == t - {n}
    ensures |t| == |s| + (if n in t then 1 else 0) - (if n in s then 1 else 0)
  {
    assert n in s ==> s == (s - {n}) + {n};
    assert n in t ==> t == (t - {n}) + {n};
    assert n !in s ==> s == s - {n};
    assert n !in t ==> t == t - {n};
  }

  /** Adding an edge to a live node keeps both counters exact, without unsigned wrap-around. */
  lemma WithEdgeCounted(g: Graph, e: Operation)
    requires Shape(g) && Small(g) && InRange(g, e) && g.live[e.output] && Counted(g)
    ensures Counted(WithEdge(g, e))
  {
    var r, n := WithEdge(g, e), e.output;
    SameElsewhere(g, r, n);
    SizeByOne(RandomNodes(g), RandomNodes(r), n);
    SizeByOne(Bubbles(g), Bubbles(r), n);
    CountersFit(g);
    CountersFit(r);
  }

  /** Eliminating a present edge keeps both counters exact, without unsigned wrap-around. */
  lemma WithoutEdgeCounted(g: Graph, e: Operation)
    requires Shape(g) && Small(g) && Has(g, e) && g.live[e.output] && Counted(g)
    ensures Counted(WithoutEdge(g, e))
  {
    var r, n := WithoutEdge(g, e), e.output;
    DegreeWithoutEdge(g, e, n);
    assert |g.ins[n]| >= 1;
    SameElsewhere(g, r, n);
    SizeByOne(RandomNodes(g), RandomNodes(r), n);
    SizeByOne(Bubbles(g), Bubbles(r), n);
    CountersFit(g);
    CountersFit(r);
  }

  // ----- Whole rewrites: eliminate a list of edges, then add a list of edges

  predicate AllLive(g: Graph)
    requires Shape(g)
  {
    forall n :: 0 <= n < |g.nodes| ==> g.live[n]
  }

  /** What the rewriting loop keeps about a graph apart from its meaning. */
  ghost predicate Good(g: Graph) {
    Sync(g) && Small(g) && AllLive(g) && Counted(g)
  }

  predicate NoDup<A(==)>(s: seq<A>) {
    forall i, j :: 0 <= i < j < |s| ==> s[i] != s[j]
  }

  function CountTo(es: seq<Operation>, n: NodeId): nat {
    if es == [] then 0
    else CountTo(es[..|es|-1], n) + if es[|es|-1].output == n then 1 else 0
  }

  ghost predicate AllPresent(g: Graph, es: seq<Operation>)
    requires Shape(g)
  {
    NoDup(es) && forall i :: 0 <= i < |es| ==> Has(g, es[i])
  }

  ghost predicate AllInRange(g: Graph, es: seq<Operation>) {
    forall i :: 0 <= i < |es| ==> InRange(g, es[i])
  }

  lemma {:induction false} WithEdgesGood(g: Graph, es: seq<Operation>)
    requires Good(g) && AllInRange(g, es)
    ensures Good(WithEdges(g, es))
    ensures forall x :: Has(WithEdges(g, es), x) <==> Has(g, x) || x in es
    ensures forall n :: 0 <= n < |g.nodes| ==> |WithEdges(g, es).ins[n]| == |g.ins[n]| + CountTo(es, n)
  {
    if es != [] {
      var front, e := es[..|es|-1], es[|es|-1];
      WithEdgesGood(g, front);
      var m := WithEdges(g, front);
      assert InRange(m, e) by { assert InRange(g, e); }
      WithEdgeSync(m, e);
      WithEdgeCounted(m, e);
      forall n | 0 <= n < |g.nodes| ensures |WithEdges(g, es).ins[n]| == |g.ins[n]| + CountTo(es, n) {
        DegreeWithEdge(m, e, n);
      }
      assert es == front + [e];
    }
  }

  lemma {:induction false} WithoutEdgesGood(g: Graph, es: seq<Operation>)
    requires Good(g) && AllPresent(g, es)
    ensures Good(WithoutEdges(g, es))
    ensures forall x :: Has(WithoutEdges(g, es), x) ==> Has(g, x)
    ensures forall x :: Has(g, x) && x !in es ==> Has(WithoutEdges(g, es), x)
    ensures forall n :: 0 <= n < |g.nodes| ==> |WithoutEdges(g, es).ins[n]| == |g.ins[n]| - CountTo(es, n)
  {
    if es != [] {
      var front, e := es[..|es|-1], es[|es|-1];
      WithoutEdgesGood(g, front);
      var m := WithoutEdges(g, front);
      assert Has(m, e) by { assert Has(g, e) && e !in front; }
      WithoutEdgeSync(m, e);
      WithoutEdgeCounted(m, e);
      forall n | 0 <= n < |g.nodes| ensures |WithoutEdges(g, es).ins[n]| == |g.ins[n]| - CountTo(es, n) {
        DegreeWithoutEdge(m, e, n);
      }
      assert es == front + [e];
    }
  }

  function Rewrite(g: Graph, elim: seq<Operation>, add: seq<Operation>): (r: Graph)
    requires Shape(g) && (forall i :: 0 <= i < |elim| ==> InRange(g, elim[i]))
    requires forall i :: 0 <= i < |add| ==> InRange(g, add[i])
    ensures Shape(r) && r.nodes == g.nodes && r.live == g.live
    ensures r.partyCnt == g.partyCnt && r.T == g.T && r.corrupted == g.corrupted
  {
    var m := WithoutEdges(g, elim);
    assert forall i :: 0 <= i < |add| ==> InRange(g, add[i]) ==> InRange(m, add[i]);
    WithEdges(m, add)
  }

  /**
   * A rewrite that eliminates present edges keeps the lists in sync and the counters exact;
   * its edges are the untouched old ones and the new ones, and in-degrees move accordingly.
   */
  lemma RewriteGood(g: Graph, elim: seq<Operation>, add: seq<Operation>)
    requires Good(g) && AllPresent(g, elim) && AllInRange(g, add)
    ensures Good(Rewrite(g, elim, add))
    ensures forall x :: Has(Rewrite(g, elim, add), x) ==> Has(g, x) || x in add
    ensures forall x :: (Has(g, x) && x !in elim) || x in add ==> Has(Rewrite(g, elim, add), x)
    ensures forall n :: 0 <= n < |g.nodes| ==>
      |Rewrite(g, elim, add).ins[n]| == |g.ins[n]| - CountTo(elim, n) + CountTo(add, n)
  {
    WithoutEdgesGood(g, elim);
    var m := WithoutEdges(g, elim);
    assert AllInRange(m, add) by {
      forall i | 0 <= i < |add| ensures InRange(m, add[i]) { assert InRange(g, add[i]); }
    }
    WithEdgesGood(m, add);
  }

  // ----- The recounting constructor

  method CountRandom(g: Graph) returns (randomCnt: int)
    requires Shape(g) && AllLive(g) && Small(g)
    ensures randomCnt == |RandomNodes(g)|
  {
    randomCnt := 0;
    ghost var rs: set<NodeId> := {};
    for n := 0 to |g.nodes|
      invariant rs == set k: NodeId | k < n && IsRandom(g, k)
      invariant 0 <= randomCnt == |rs| <= n
    {
      if IsRandom(g, n) {
        randomCnt := U32(randomCnt + 1);
        rs := rs + {n};
      }
    }
    assert rs == RandomNodes(g);
  }

  method CountBubbles(g: Graph) returns (bubbleCnt: int)
    requires Shape(g) && AllLive(g) && Small(g)
    ensures bubbleCnt == |Bubbles(g)|
  {
    bubbleCnt := 0;
    ghost var bs: set<NodeId> := {};
    for n := 0 to |g.nodes|
      invariant bs == set k: NodeId | k < n && IsBubble(g, k)
      invariant 0 <= bubbleCnt == |bs| <= n
    {
      var node := g.nodes[n];
      var bubble;
      if node.party !in g.corrupted {
        bubble := node.IsIO();
      } else {
        bubble := node.IsIO() && |g.ins[n]| != 0;
      }
      assert bubble <==> IsBubble(g, n);
      if bubble {
        bubbleCnt := U32(bubbleCnt + 1);
        bs := bs + {n};
      }
    }
    assert bs == Bubbles(g);
  }

  /** The recounting constructor, over a node list without null entries. */
  method Recount(ins: seq<seq<Operation>>, outs: seq<seq<Operation>>, nodes: seq<Node>,
                 partyCnt: nat, T: nat, corrupted: set<Party>) returns (g: Graph)
    requires |ins| == |outs| == |nodes| < 0x8000_0000
    ensures Shape(g) && AllLive(g) && Counted(g)
    ensures g.ins == ins && g.outs == outs && g.nodes == nodes
    ensures g.partyCnt == partyCnt && g.T == T && g.corrupted == corrupted
  {
    var live := seq(|nodes|, _ => true);
    var g0 := Graph(ins, outs, nodes, live, partyCnt, T, corrupted, 0, 0);
    var randomCnt := CountRandom(g0);
    var bubbleCnt := CountBubbles(g0);
    g := g0.(randomCnt := randomCnt, bubbleCnt := bubbleCnt);
    SameCounts(g0, g);
  }

  /** The recounts look at the lists, the nodes and the corrupted parties only. */
  lemma SameCounts(g: Graph, h: Graph)
    requires Shape(g) && Shape(h)
    requires g.ins == h.ins && g.nodes == h.nodes && g.live == h.live && g.corrupted == h.corrupted
    ensures RandomNodes(g) == RandomNodes(h) && Bubbles(g) == Bubbles(h)
  {
    assert forall n: NodeId | n < |g.nodes| :: IsRandom(g, n) == IsRandom(h, n) && IsBubble(g, n) == IsBubble(h, n);
  }

  // ----- Adding and eliminating undo each other

  lemma {:induction false} ErasePushed(lists: seq<seq<Operation>>, at: seq<NodeId>, e: Operation)
    requires forall i :: 0 <= i < |at| ==> at[i] < |lists|
    requires forall i :: 0 <= i < |lists| ==> e !in lists[i]
    ensures EraseAt(PushAt(lists, at, e), at, e) == lists
  {
    forall n | 0 <= n < |lists| ensures EraseAt(PushAt(lists, at, e), at, e)[n] == lists[n] {
      Pushed(lists, at, e, n);
      PushedThenErased(PushAt(lists, at, e), at, e, n, lists[n], multiset(at)[n]);
      assert seq(0, _ => e) == [];
    }
  }

  lemma {:induction false} Pushed(lists: seq<seq<Operation>>, at: seq<NodeId>, e: Operation, n: NodeId)
    requires n < |lists| && forall i :: 0 <= i < |at| ==> at[i] < |lists|
    ensures PushAt(lists, at, e)[n] == lists[n] + seq(multiset(at)[n], _ => e)
  {
    if at != [] {
      var front, m := at[..|at|-1], at[|at|-1];
      assert at == front + [m];
      Pushed(lists, front, e, n);
    }
  }

  lemma {:induction false} RemoveFromTail(s: seq<Operation>, k: nat, e: Operation)
    requires e !in s && k > 0
    ensures RemoveFirst(s + seq(k, _ => e), e) == s + seq(k - 1, _ => e)
  {
    var t := s + seq(k, _ => e);
    assert t[|s|] == e && t[..|s|] == s;
    RemoveAt(t, |s|, e);
    assert t[|s| + 1..] == seq(k - 1, _ => e);
  }

  lemma {:induction false} PushedThenErased(lists: seq<seq<Operation>>, at: seq<NodeId>, e: Operation, n: NodeId,
                                            s: seq<Operation>, k: nat)
    requires n < |lists| && forall i :: 0 <= i < |at| ==> at[i] < |lists|
    requires e !in s && k >= multiset(at)[n] && lists[n] == s + seq(k, _ => e)
    ensures EraseAt(lists, at, e)[n] == s + seq(k - multiset(at)[n], _ => e)
  {
    if at != [] {
      var front, m := at[..|at|-1], at[|at|-1];
      assert at == front + [m];
      PushedThenErased(lists, front, e, n, s, k);
      if m == n {
        var used: multiset<NodeId> := multiset(front);
        RemoveFromTail(s, k - used[n], e);
      }
    }
  }

  /** Eliminating an edge that was just added gives back exactly the same graph. */
  lemma EliminateAdded(g: Graph, e: Operation)
    requires Sync(g) && Small(g) && InRange(g, e) && g.live[e.output] && Counted(g) && !Has(g, e)
    ensures WithoutEdge(WithEdge(g, e), e) == g
  {
    var m := WithEdge(g, e);
    forall n | 0 <= n < |g.nodes| ensures e !in g.outs[n] { OutEdge(g, n, e); }
    ErasePushed(g.outs, e.inputs, e);
    var list := g.ins[e.output];
    RemoveFromTail(list, 1, e);
    assert seq(1, _ => e) == [e] && list + seq(0, _ => e) == list;
    var r := WithoutEdge(m, e);
    assert m.ins[e.output] == list + [e];
    assert r.ins == g.ins && r.outs == g.outs;
    WithEdgeCounted(g, e);
    WithoutEdgeCounted(m, e);
    SameCounts(r, g);
  }
}
