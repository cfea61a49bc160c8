// Graphs given by their nodes and edges, and what their lists then hold.
module Assembly {
  import opened Graphs
  import opened Counters

  /** The nodes without any edge, counters recounted. */
  ghost function Bare(nodes: seq<Node>, partyCnt: nat, T: nat, corrupted: set<Party>): (g: Graph)
    ensures Shape(g) && g.nodes == nodes && g.partyCnt == partyCnt && g.T == T && g.corrupted == corrupted
    ensures |nodes| < 0x8000_0000 ==> Good(g)
    ensures forall n :: 0 <= n < |nodes| ==> g.ins[n] == [] && g.outs[n] == []
  {
    var none: seq<seq<Operation>> := seq(|nodes|, _ => []);
    var g0 := Graph(none, none, nodes, seq(|nodes|, _ => true), partyCnt, T, corrupted, 0, 0);
    var g := g0.(randomCnt := |RandomNodes(g0)|, bubbleCnt := |Bubbles(g0)|);
    SameCounts(g0, g);
    g
  }

  function Into(es: seq<Operation>, n: NodeId): seq<Operation> {
    if es == [] then []
    else Into(es[..|es|-1], n) + if es[|es|-1].output == n then [es[|es|-1]] else []
  }

  function Using(es: seq<Operation>, n: NodeId): seq<Operation> {
    if es == [] then []
    else Using(es[..|es|-1], n) + if n in es[|es|-1].inputs then [es[|es|-1]] else []
  }

  ghost predicate PlainEdges(es: seq<Operation>) {
    forall i :: 0 <= i < |es| ==> NoDup(es[i].inputs)
  }

  ghost function Assembled(nodes: seq<Node>, partyCnt: nat, T: nat, corrupted: set<Party>,
                           es: seq<Operation>): (g: Graph)
    requires forall i :: 0 <= i < |es| ==> InRange(Bare(nodes, partyCnt, T, corrupted), es[i])
    ensures Shape(g) && g.nodes == nodes && g.partyCnt == partyCnt && g.T == T && g.corrupted == corrupted
  {
    WithEdges(Bare(nodes, partyCnt, T, corrupted), es)
  }

  lemma {:induction false} PushedOnce(lists: seq<seq<Operation>>, at: seq<NodeId>, e: Operation, n: NodeId)
    requires n < |lists| && (forall i :: 0 <= i < |at| ==> at[i] < |lists|) && NoDup(at)
    ensures PushAt(lists, at, e)[n] == lists[n] + if n in at then [e] else []
  {
    if at != [] {
      var k := |at| - 1;
      PushedOnce(lists, at[..k], e, n);
      assert at == at[..k] + [at[k]];
    }
  }

  lemma {:induction false} AssembledLists(nodes: seq<Node>, partyCnt: nat, T: nat, corrupted: set<Party>,
                                          es: seq<Operation>, n: NodeId)
    requires AllInRange(Bare(nodes, partyCnt, T, corrupted), es) && PlainEdges(es) && n < |nodes|
    ensures Assembled(nodes, partyCnt, T, corrupted, es).ins[n] == Into(es, n)
    ensures Assembled(nodes, partyCnt, T, corrupted, es).outs[n] == Using(es, n)
  {
    if es != [] {
      var k := |es| - 1;
      AssembledLists(nodes, partyCnt, T, corrupted, es[..k], n);
      var m := Assembled(nodes, partyCnt, T, corrupted, es[..k]);
      assert InRange(Bare(nodes, partyCnt, T, corrupted), es[k]);
      PushedOnce(m.outs, es[k].inputs, es[k], n);
    }
  }

  /** An assembled graph is in sync with exact counters, and has exactly the given edges. */
  lemma AssembledGood(nodes: seq<Node>, partyCnt: nat, T: nat, corrupted: set<Party>, es: seq<Operation>)
    requires AllInRange(Bare(nodes, partyCnt, T, corrupted), es)
    ensures |nodes| < 0x8000_0000 ==> Good(Assembled(nodes, partyCnt, T, corrupted, es))
    ensures |nodes| < 0x8000_0000 ==> forall e :: Has(Assembled(nodes, partyCnt, T, corrupted, es), e) <==> e in es
  {
    if |nodes| < 0x8000_0000 { WithEdgesGood(Bare(nodes, partyCnt, T, corrupted), es); }
  }

  lemma {:induction false} IntoConcat(es: seq<Operation>, fs: seq<Operation>, n: NodeId)
    ensures Into(es + fs, n) == Into(es, n) + Into(fs, n)
  {
    if fs == [] {
      assert es + fs == es;
    } else {
      var k := |fs| - 1;
      assert (es + fs)[..|es + fs| - 1] == es + fs[..k];
      IntoConcat(es, fs[..k], n);
    }
  }

  lemma {:induction false} UsingConcat(es: seq<Operation>, fs: seq<Operation>, n: NodeId)
    ensures Using(es + fs, n) == Using(es, n) + Using(fs, n)
  {
    if fs == [] {
      assert es + fs == es;
    } else {
      var k := |fs| - 1;
      assert (es + fs)[..|es + fs| - 1] == es + fs[..k];
      UsingConcat(es, fs[..k], n);
    }
  }

  lemma {:induction false} UsedByAll(es: seq<Operation>, n: NodeId)
    requires forall i :: 0 <= i < |es| ==> n in es[i].inputs
    ensures Using(es, n) == es
  {
    if es != [] {
      UsedByAll(es[..|es|-1], n);
      assert es == es[..|es|-1] + [es[|es|-1]];
    }
  }

  lemma {:induction false} UsedByNone(es: seq<Operation>, n: NodeId)
    requires forall i :: 0 <= i < |es| ==> n !in es[i].inputs
    ensures Using(es, n) == []
  {
    if es != [] { UsedByNone(es[..|es|-1], n); }
  }

  lemma {:induction false} UsedByOne(es: seq<Operation>, n: NodeId, j: nat)
    requires j < |es| && forall i :: 0 <= i < |es| ==> (n in es[i].inputs <==> i == j)
    ensures Using(es, n) == [es[j]]
  {
    var k := |es| - 1;
    if j == k {
      UsedByNone(es[..k], n);
    } else {
      UsedByOne(es[..k], n, j);
    }
  }

  lemma {:induction false} IntoNone(es: seq<Operation>, n: NodeId)
    requires forall i :: 0 <= i < |es| ==> es[i].output != n
    ensures Into(es, n) == []
  {
    if es != [] { IntoNone(es[..|es|-1], n); }
  }

  lemma {:induction false} IntoOne(es: seq<Operation>, n: NodeId, j: nat)
    requires j < |es| && forall i :: 0 <= i < |es| ==> (es[i].output == n <==> i == j)
    ensures Into(es, n) == [es[j]]
  {
    var k := |es| - 1;
    if j == k {
      IntoNone(es[..k], n);
    } else {
      IntoOne(es[..k], n, j);
    }
  }
}
