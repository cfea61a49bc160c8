// The persistent protocol graph: nodes, adjacency lists in both directions, cached counters.
module Graphs {

  type NodeId = nat
  type Party = nat

  datatype Operator =
    | NONE | INPUT | TRANSIT
    | ADD | SUB | MUL | DIV | SCALARMUL
    | EVAL | RECONSTRUCT | POLILIZE
    | TYPECAST

  datatype Genre = NoGenre | Input | Output | Others

  datatype Node = Node(party: Party, genre: Genre) {
    predicate IsIO() {
      genre.Input? || genre.Output?
    }
  }

  /**
   * An edge. `arg` is the argument the program leaves implicit: the polynomial that an EVAL
   * or RECONSTRUCT edge talks about, and the constant of a SCALARMUL edge (its payload).
   */
  datatype Operation = Operation(op: Operator, inputs: seq<NodeId>, output: NodeId, arg: nat)

  /** The protocol graph before anything is known about corrupted parties. */
  datatype GraphBase = GraphBase(ins: seq<seq<Operation>>, outs: seq<seq<Operation>>, nodes: seq<Node>)

  /** `live[n]` is false once the entry of node n in the node list has been set to null. */
  datatype Graph = Graph(
    ins: seq<seq<Operation>>,
    outs: seq<seq<Operation>>,
    nodes: seq<Node>,
    live: seq<bool>,
    partyCnt: nat,
    T: nat,
    corrupted: set<Party>,
    randomCnt: int,
    bubbleCnt: int)

  /** Conversion to the 32-bit unsigned type of the cached counters. */
  function U32(x: int): (u: int)
    ensures 0 <= u < 0x1_0000_0000
    ensures 0 <= x < 0x1_0000_0000 ==> u == x
  {
    x % 0x1_0000_0000
  }

  predicate InRange(g: Graph, e: Operation) {
    e.output < |g.nodes| && forall i :: 0 <= i < |e.inputs| ==> e.inputs[i] < |g.nodes|
  }

  predicate Shape(g: Graph) {
    |g.ins| == |g.outs| == |g.live| == |g.nodes|
  }

  predicate IsRandom(g: Graph, n: NodeId)
    requires Shape(g) && n < |g.nodes|
  {
    |g.ins[n]| == 0 && !g.nodes[n].IsIO()
  }

  // ----- Adjacency list updates

  function RemoveFirst(s: seq<Operation>, e: Operation): seq<Operation> {
    if s == [] then []
    else if s[0] == e then s[1..]
    else [s[0]] + RemoveFirst(s[1..], e)
  }

  lemma {:induction false} RemoveFirstCount(s: seq<Operation>, e: Operation)
    ensures e !in s ==> RemoveFirst(s, e) == s
    ensures e in s ==> multiset(RemoveFirst(s, e)) == multiset(s) - multiset{e}
    ensures e in s ==> |RemoveFirst(s, e)| == |s| - 1
  {
    if s != [] {
      assert s == [s[0]] + s[1..];
      if s[0] != e { RemoveFirstCount(s[1..], e); }
    }
  }

  /** Append e to the list of every node in `at`, once per occurrence. */
  function PushAt(lists: seq<seq<Operation>>, at: seq<NodeId>, e: Operation): (r: seq<seq<Operation>>)
    requires forall i :: 0 <= i < |at| ==> at[i] < |lists|
    ensures |r| == |lists|
  {
    if at == [] then lists
    else
      var r := PushAt(lists, at[..|at|-1], e);
      var n := at[|at|-1];
      r[n := r[n] + [e]]
  }

  /** Remove one e from the list of every node in `at`, once per occurrence. */
  function EraseAt(lists: seq<seq<Operation>>, at: seq<NodeId>, e: Operation): (r: seq<seq<Operation>>)
    requires forall i :: 0 <= i < |at| ==> at[i] < |lists|
    ensures |r| == |lists|
  {
    if at == [] then lists
    else
      var r := EraseAt(lists, at[..|at|-1], e);
      var n := at[|at|-1];
      r[n := RemoveFirst(r[n], e)]
  }

  /** The graph after an edge is added. */
  function WithEdge(g: Graph, e: Operation): (r: Graph)
    requires Shape(g) && InRange(g, e)
    ensures Shape(r) && r.nodes == g.nodes && r.live == g.live
    ensures r.partyCnt == g.partyCnt && r.T == g.T && r.corrupted == g.corrupted
  {
    var dst := g.nodes[e.output];
    var first := |g.ins[e.output]| == 0;
    g.(ins := g.ins[e.output := g.ins[e.output] + [e]],
       outs := PushAt(g.outs, e.inputs, e),
       randomCnt := U32(g.randomCnt - if first && !dst.IsIO() then 1 else 0),
       bubbleCnt := U32(g.bubbleCnt + if first && dst.IsIO() && dst.party in g.corrupted then 1 else 0))
  }

  /** The graph after an edge is eliminated. */
  function WithoutEdge(g: Graph, e: Operation): (r: Graph)
    requires Shape(g) && InRange(g, e)
    ensures Shape(r) && r.nodes == g.nodes && r.live == g.live
    ensures r.partyCnt == g.partyCnt && r.T == g.T && r.corrupted == g.corrupted
  {
    var dst := g.nodes[e.output];
    var last := |g.ins[e.output]| == 1;
    g.(ins := g.ins[e.output := RemoveFirst(g.ins[e.output], e)],
       outs := EraseAt(g.outs, e.inputs, e),
       randomCnt := U32(g.randomCnt + if last && !dst.IsIO() then 1 else 0),
       bubbleCnt := U32(g.bubbleCnt - if last && dst.IsIO() && dst.party in g.corrupted then 1 else 0))
  }

  function WithEdges(g: Graph, es: seq<Operation>): (r: Graph)
    requires Shape(g) && forall i :: 0 <= i < |es| ==> InRange(g, es[i])
    ensures Shape(r) && r.nodes == g.nodes && r.live == g.live
    ensures r.partyCnt == g.partyCnt && r.T == g.T && r.corrupted == g.corrupted
  {
    if es == [] then g
    else
      assert InRange(g, es[|es|-1]);
      WithEdge(WithEdges(g, es[..|es|-1]), es[|es|-1])
  }

  function WithoutEdges(g: Graph, es: seq<Operation>): (r: Graph)
    requires Shape(g) && forall i :: 0 <= i < |es| ==> InRange(g, es[i])
    ensures Shape(r) && r.nodes == g.nodes && r.live == g.live
    ensures r.partyCnt == g.partyCnt && r.T == g.T && r.corrupted == g.corrupted
  {
    if es == [] then g
    else
      assert InRange(g, es[|es|-1]);
      WithoutEdge(WithoutEdges(g, es[..|es|-1]), es[|es|-1])
  }

  // ----- The methods

  lemma {:induction false} RemoveAt(s: seq<Operation>, i: nat, e: Operation)
    requires i < |s| && s[i] == e && e !in s[..i]
    ensures RemoveFirst(s, e) == s[..i] + s[i + 1..]
  {
    if i > 0 {
      assert s[0] in s[..i];
      assert s[1..][..i - 1] == s[..i][1..];
      RemoveAt(s[1..], i - 1, e);
    }
  }

  method EraseFirst(s: seq<Operation>, e: Operation) returns (r: seq<Operation>)
    ensures r == RemoveFirst(s, e)
  {
    for i := 0 to |s|
      invariant e !in s[..i]
    {
      if s[i] == e {
        RemoveAt(s, i, e);
        return s[..i] + s[i + 1..];
      }
    }
    assert s[..|s|] == s;
    RemoveFirstCount(s, e);
    r := s;
  }

  method EliminateEdge(g: Graph, e: Operation) returns (r: Graph)
    requires Shape(g) && InRange(g, e)
    ensures r == WithoutEdge(g, e)
  {
    var ins, outs := g.ins, g.outs;
    var list := EraseFirst(ins[e.output], e);
    ins := ins[e.output := list];
    for i := 0 to |e.inputs|
      invariant outs == EraseAt(g.outs, e.inputs[..i], e)
    {
      assert e.inputs[..i + 1][..i] == e.inputs[..i];
      var src := e.inputs[i];
      list := EraseFirst(outs[src], e);
      outs := outs[src := list];
    }
    assert e.inputs[..|e.inputs|] == e.inputs;
    var dst := g.nodes[e.output];
    var addedRandomNodes := if |g.ins[e.output]| == 1 && !dst.IsIO() then 1 else 0;
    var decreasedBubbles := if |g.ins[e.output]| == 1 && dst.IsIO() && dst.party in g.corrupted then 1 else 0;
    r := g.(ins := ins, outs := outs,
            randomCnt := U32(g.randomCnt + addedRandomNodes), bubbleCnt := U32(g.bubbleCnt - decreasedBubbles));
  }

  method AddEdge(g: Graph, e: Operation) returns (r: Graph)
    requires Shape(g) && InRange(g, e)
    ensures r == WithEdge(g, e)
  {
    var ins := g.ins[e.output := g.ins[e.output] + [e]];
    var outs := g.outs;
    for i := 0 to |e.inputs|
      invariant outs == PushAt(g.outs, e.inputs[..i], e)
    {
      assert e.inputs[..i + 1][..i] == e.inputs[..i];
      var src := e.inputs[i];
      outs := outs[src := outs[src] + [e]];
    }
    assert e.inputs[..|e.inputs|] == e.inputs;
    var dst := g.nodes[e.output];
    var eliminatedRandomNodes := if |g.ins[e.output]| == 0 && !dst.IsIO() then 1 else 0;
    var addedBubbles := if |g.ins[e.output]| == 0 && dst.IsIO() && dst.party in g.corrupted then 1 else 0;
    r := g.(ins := ins, outs := outs,
            randomCnt := U32(g.randomCnt - eliminatedRandomNodes), bubbleCnt := U32(g.bubbleCnt + addedBubbles));
  }

  method EliminateEdges(g: Graph, es: seq<Operation>) returns (r: Graph)
    requires Shape(g) && forall i :: 0 <= i < |es| ==> InRange(g, es[i])
    ensures r == WithoutEdges(g, es)
  {
    r := g;
    for i := 0 to |es|
      invariant r == WithoutEdges(g, es[..i])
    {
      assert es[..i + 1][..i] == es[..i];
      r := EliminateEdge(r, es[i]);
    }
    assert es[..|es|] == es;
  }

  method AddEdges(g: Graph, es: seq<Operation>) returns (r: Graph)
    requires Shape(g) && forall i :: 0 <= i < |es| ==> InRange(g, es[i])
    ensures r == WithEdges(g, es)
  {
    r := g;
    for i := 0 to |es|
      invariant r == WithEdges(g, es[..i])
    {
      assert es[..i + 1][..i] == es[..i];
      r := AddEdge(r, es[i]);
    }
    assert es[..|es|] == es;
  }

  // ----- Synchronised adjacency

  function InCount(g: Graph, e: Operation): nat
    requires Shape(g) && InRange(g, e)
  {
    multiset(g.ins[e.output])[e]
  }

  function OutCount(g: Graph, n: NodeId, e: Operation): nat
    requires Shape(g) && n < |g.nodes|
  {
    multiset(g.outs[n])[e]
  }

  function Uses(e: Operation, n: NodeId): nat {
    multiset(e.inputs)[n]
  }

  predicate Has(g: Graph, e: Operation)
    requires Shape(g)
  {
    InRange(g, e) && e in g.ins[e.output]
  }

  ghost predicate SyncAt(g: Graph, n: NodeId, e: Operation)
    requires Shape(g) && n < |g.nodes| && InRange(g, e)
  {
    OutCount(g, n, e) == InCount(g, e) * Uses(e, n)
  }

  /**
   * Every list holds well-ranged edges, in-lists only those of their node, and an edge occurs
   * in the out-list of a source as often as that source occurs in its inputs (once for each
   * time the edge is present).
   */
  ghost predicate Sync(g: Graph) {
    && Shape(g)
    && (forall n, i :: 0 <= n < |g.nodes| && 0 <= i < |g.ins[n]| ==> g.ins[n][i].output == n && InRange(g, g.ins[n][i]))
    && (forall n, i :: 0 <= n < |g.nodes| && 0 <= i < |g.outs[n]| ==> InRange(g, g.outs[n][i]))
    && (forall n, e :: 0 <= n < |g.nodes| && InRange(g, e) ==> SyncAt(g, n, e))
  }

  lemma {:induction false} PushAtCount(lists: seq<seq<Operation>>, at: seq<NodeId>, e: Operation, n: NodeId,
                                       x: Operation)
    requires n < |lists| && forall i :: 0 <= i < |at| ==> at[i] < |lists|
    ensures multiset(PushAt(lists, at, e)[n])[x] == multiset(lists[n])[x] + if x == e then multiset(at)[n] else 0
  {
    if at != [] {
      PushAtCount(lists, at[..|at|-1], e, n, x);
      assert at == at[..|at|-1] + [at[|at|-1]];
    }
  }

  lemma {:induction false} EraseAtCount(lists: seq<seq<Operation>>, at: seq<NodeId>, e: Operation, n: NodeId,
                                        x: Operation)
    requires n < |lists| && forall i :: 0 <= i < |at| ==> at[i] < |lists|
    requires multiset(lists[n])[e] >= multiset(at)[n]
    ensures multiset(EraseAt(lists, at, e)[n])[x] == multiset(lists[n])[x] - if x == e then multiset(at)[n] else 0
  {
    if at != [] {
      var front, m := at[..|at|-1], at[|at|-1];
      assert at == front + [m];
      EraseAtCount(lists, front, e, n, x);
      EraseAtCount(lists, front, e, n, e);
      var r := EraseAt(lists, front, e);
      assert m == n ==> multiset(r[n])[e] > 0;
      RemoveFirstCount(r[m], e);
    }
  }

  lemma OutEdge(g: Graph, n: NodeId, e: Operation)
    requires Sync(g) && n < |g.nodes|
    ensures e in g.outs[n] <==> Has(g, e) && n in e.inputs
  {
    if e in g.outs[n] || Has(g, e) {
      assert SyncAt(g, n, e);
      assert e in g.outs[n] <==> OutCount(g, n, e) > 0;
      assert InRange(g, e);
      assert e in g.ins[e.output] <==> InCount(g, e) > 0;
      assert n in e.inputs <==> Uses(e, n) > 0;
      if Has(g, e) && n in e.inputs {
        assert InCount(g, e) * Uses(e, n) > 0;
      }
    }
  }

  lemma CountStep(c: int, u: int)
    ensures (c + 1) * u == c * u + u && (c - 1) * u == c * u - u
  {
  }

  lemma WithEdgeSyncAt(g: Graph, e: Operation, n: NodeId, x: Operation)
    requires Sync(g) && InRange(g, e) && n < |g.nodes| && InRange(g, x)
    ensures SyncAt(WithEdge(g, e), n, x)
    ensures Has(WithEdge(g, e), x) <==> Has(g, x) || x == e
  {
    var r := WithEdge(g, e);
    assert SyncAt(g, n, x);
    PushAtCount(g.outs, e.inputs, e, n, x);
    CountStep(InCount(g, x), Uses(x, n));
    assert multiset(r.ins[x.output])[x] == InCount(g, x) + if x == e then 1 else 0;
    assert x in multiset(r.ins[x.output]) <==> x in r.ins[x.output];
    assert x in multiset(g.ins[x.output]) <==> x in g.ins[x.output];
  }

  lemma WithEdgeSync(g: Graph, e: Operation)
    requires Sync(g) && InRange(g, e)
    ensures Sync(WithEdge(g, e))
    ensures forall x :: Has(WithEdge(g, e), x) <==> Has(g, x) || x == e
  {
    var r := WithEdge(g, e);
    forall n, x | 0 <= n < |r.nodes| && InRange(r, x)
      ensures SyncAt(r, n, x) && (Has(r, x) <==> Has(g, x) || x == e)
    {
      WithEdgeSyncAt(g, e, n, x);
    }
    forall n, i | 0 <= n < |r.nodes| && 0 <= i < |r.outs[n]| ensures InRange(r, r.outs[n][i]) {
      var x := r.outs[n][i];
      PushAtCount(g.outs, e.inputs, e, n, x);
      assert x in multiset(r.outs[n]);
      if x != e {
        assert x in multiset(g.outs[n]);
        assert x in g.outs[n];
      }
      assert InRange(g, x);
    }
    forall x | Has(r, x) || Has(g, x) || x == e ensures Has(r, x) <==> Has(g, x) || x == e {
      WithEdgeSyncAt(g, e, e.output, x);
    }
  }

  lemma WithoutEdgeOut(g: Graph, e: Operation, n: NodeId, x: Operation)
    requires Sync(g) && Has(g, e) && n < |g.nodes|
    ensures multiset(WithoutEdge(g, e).outs[n])[x] == multiset(g.outs[n])[x] - if x == e then Uses(e, n) else 0
  {
    assert SyncAt(g, n, e);
    assert InCount(g, e) > 0;
    CountStep(InCount(g, e), Uses(e, n));
    assert (InCount(g, e) - 1) * Uses(e, n) >= 0;
    EraseAtCount(g.outs, e.inputs, e, n, x);
  }

  lemma WithoutEdgeSyncAt(g: Graph, e: Operation, n: NodeId, x: Operation)
    requires Sync(g) && Has(g, e) && n < |g.nodes| && InRange(g, x)
    ensures SyncAt(WithoutEdge(g, e), n, x)
    ensures Has(WithoutEdge(g, e), x) ==> Has(g, x)
    ensures Has(g, x) && x != e ==> Has(WithoutEdge(g, e), x)
  {
    var r := WithoutEdge(g, e);
    assert SyncAt(g, n, x);
    WithoutEdgeOut(g, e, n, x);
    CountStep(InCount(g, x), Uses(x, n));
    RemoveFirstCount(g.ins[e.output], e);
    assert multiset(r.ins[x.output])[x] == InCount(g, x) - if x == e then 1 else 0;
    assert x in multiset(r.ins[x.output]) <==> x in r.ins[x.output];
    assert x in multiset(g.ins[x.output]) <==> x in g.ins[x.output];
  }

  lemma WithoutEdgeLists(g: Graph, e: Operation, n: NodeId, x: Operation)
    requires Sync(g) && Has(g, e) && n < |g.nodes|
    ensures x in WithoutEdge(g, e).outs[n] ==> x in g.outs[n]
    ensures x in WithoutEdge(g, e).ins[n] ==> x in g.ins[n]
  {
    var r := WithoutEdge(g, e);
    WithoutEdgeOut(g, e, n, x);
    assert x in r.outs[n] ==> x in multiset(r.outs[n]);
    assert x in multiset(g.outs[n]) ==> x in g.outs[n];
    RemoveFirstCount(g.ins[e.output], e);
    assert x in r.ins[n] ==> x in multiset(r.ins[n]);
    assert x in multiset(g.ins[n]) ==> x in g.ins[n];
  }

  lemma WithoutEdgeSync(g: Graph, e: Operation)
    requires Sync(g) && Has(g, e)
    ensures Sync(WithoutEdge(g, e))
    ensures forall x :: Has(WithoutEdge(g, e), x) ==> Has(g, x)
    ensures forall x :: Has(g, x) && x != e ==> Has(WithoutEdge(g, e), x)
  {
    hide WithoutEdge, SyncAt;
    var r := WithoutEdge(g, e);
    forall n, x | 0 <= n < |r.nodes| && InRange(r, x) ensures SyncAt(r, n, x) {
      WithoutEdgeSyncAt(g, e, n, x);
    }
    forall n, i | 0 <= n < |r.nodes| && 0 <= i < |r.outs[n]| ensures InRange(r, r.outs[n][i]) {
      WithoutEdgeLists(g, e, n, r.outs[n][i]);
      assert InRange(g, r.outs[n][i]);
    }
    forall n, i | 0 <= n < |r.nodes| && 0 <= i < |r.ins[n]|
      ensures r.ins[n][i].output == n && InRange(r, r.ins[n][i])
    {
      WithoutEdgeLists(g, e, n, r.ins[n][i]);
      assert InRange(g, r.ins[n][i]);
    }
    forall x | InRange(g, x)
      ensures Has(r, x) ==> Has(g, x)
      ensures Has(g, x) && x != e ==> Has(r, x)
    {
      WithoutEdgeSyncAt(g, e, e.output, x);
    }
  }
}
