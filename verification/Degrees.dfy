// In-degrees after a replacement of edges.
//
// The counters of a rewritten graph depend on its in-degrees only. A replacement takes edges
// away and adds edges, each set with at most one edge into any node; so the new in-degree of
// a node is the old one, minus one if an eliminated edge goes into it, plus one if an added
// edge does.
module Degrees {
  import opened Graphs
  import opened Counters
  import opened Sharing

  ghost predicate DistinctOutputs(S: set<Operation>) {
    forall e, f :: e in S && f in S && e != f ==> e.output != f.output
  }

  ghost predicate Hits(S: set<Operation>, n: NodeId) {
    exists e :: e in S && e.output == n
  }

  ghost function HeadedTo(S: set<Operation>, n: NodeId): set<Operation> {
    set e | e in S && e.output == n
  }

  lemma {:induction false} CountToInto(s: seq<Operation>, S: set<Operation>, n: NodeId)
    requires Lists(s, S)
    ensures CountTo(s, n) == |HeadedTo(S, n)|
  {
    if s != [] {
      var front, e := s[..|s|-1], s[|s|-1];
      assert s == front + [e] && e !in front;
      CountToInto(front, S - {e}, n);
      if e.output == n {
        assert HeadedTo(S, n) == HeadedTo(S - {e}, n) + {e};
      } else {
        assert HeadedTo(S, n) == HeadedTo(S - {e}, n);
      }
    } else {
      assert HeadedTo(S, n) == {};
    }
  }

  /** In-degrees move by the eliminated and the added edges into the node. */
  lemma DegreeInto(g: Graph, elim: set<Operation>, add: set<Operation>, r: Graph, n: NodeId)
    requires Good(g) && Replaced(g, elim, add, r) && n < |g.nodes|
    requires forall e :: e in elim ==> Has(g, e)
    ensures r.nodes == g.nodes && r.live == g.live && Good(r)
    ensures |r.ins[n]| == |g.ins[n]| - |HeadedTo(elim, n)| + |HeadedTo(add, n)|
  {
    var es, fs :|
      Lists(es, elim) && Lists(fs, add) && AllInRange(g, es) && AllInRange(g, fs) && r == Rewrite(g, es, fs);
    forall i | 0 <= i < |es| ensures Has(g, es[i]) { assert es[i] in elim; }
    RewriteGood(g, es, fs);
    CountToInto(es, elim, n);
    CountToInto(fs, add, n);
  }

  lemma IntoHits(S: set<Operation>, n: NodeId)
    requires DistinctOutputs(S)
    ensures |HeadedTo(S, n)| == if Hits(S, n) then 1 else 0
  {
    if Hits(S, n) {
      var e :| e in S && e.output == n;
      assert HeadedTo(S, n) == {e};
    } else {
      assert HeadedTo(S, n) == {};
    }
  }

  lemma IntoUnion(A: set<Operation>, B: set<Operation>, n: NodeId)
    requires A !! B
    ensures |HeadedTo(A + B, n)| == |HeadedTo(A, n)| + |HeadedTo(B, n)|
  {
    assert HeadedTo(A + B, n) == HeadedTo(A, n) + HeadedTo(B, n);
    assert HeadedTo(A, n) !! HeadedTo(B, n);
  }

  /** The same when the old edges, and the new edges, have distinct outputs. */
  lemma DegreeReplaced(g: Graph, elim: set<Operation>, add: set<Operation>, r: Graph, n: NodeId)
    requires Good(g) && Replaced(g, elim, add, r) && n < |g.nodes|
    requires (forall e :: e in elim ==> Has(g, e)) && DistinctOutputs(elim) && DistinctOutputs(add)
    ensures r.nodes == g.nodes && r.live == g.live && Good(r)
    ensures |r.ins[n]| == |g.ins[n]| - (if Hits(elim, n) then 1 else 0) + if Hits(add, n) then 1 else 0
  {
    DegreeInto(g, elim, add, r, n);
    IntoHits(elim, n);
    IntoHits(add, n);
  }
}
