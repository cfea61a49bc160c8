// What the guard of the sharing rewriters accepts in a built graph: every constant term that is
// used by nothing but the evaluations of its polynomial, one for each party.
module BuiltMatches {
  import opened Graphs
  import opened Counters
  import opened Semantics
  import opened Patterns
  import opened Lowering
  import opened BuiltGraphs
  import opened BuiltProtocols

  // ----- Programs

  predicate OperandOf(p: Program, x: ExprId, y: ExprId) {
    x < |p| && Simple(p[x].op) && y in p[x].operands
  }

  predicate EvalOf(p: Program, x: ExprId, f: ExprId) {
    x < |p| && p[x].op.EVAL? && p[x].operands == [f]
  }

  predicate TermOf(p: Program, f: ExprId, c: ExprId) {
    f < |p| && p[f].op.POLILIZE? && p[f].kind.Polynomial? && p[f].kind.constTerm == c
  }

  /** Of the lowered expressions at most y uses x, be it as an operand or as a constant term. */
  ghost predicate UsedOnlyBy(p: Program, s: State, x: ExprId, y: ExprId) {
    && (forall z :: z in s.memo && OperandOf(p, z, x) ==> z == y)
    && (forall z, f :: z in s.memo && EvalOf(p, z, f) ==> !TermOf(p, f, x))
  }

  /** The value of x ends up at party q: it is sent there and used for nothing else, or stays where it is. */
  ghost predicate EndsAt(p: Program, s: State, x: ExprId, q: Party) {
    x < |p| && x in s.memo &&
    ((exists y :: y in s.memo && y < |p| && p[y].op.TRANSIT? && p[y].operands == [x] && p[y].party == q
                  && UsedOnlyBy(p, s, x, y))
     || (p[x].party == q && forall y :: y in s.memo && OperandOf(p, y, x) ==> !p[y].op.TRANSIT?))
  }

  /** Polynomial f is evaluated once per party, and its constant term not used otherwise. */
  ghost predicate DealtToAll(p: Program, s: State, w: Setting, f: ExprId, xs: seq<ExprId>, qs: seq<Party>) {
    && f in s.memo && s.memo[f].PolyNode? && |xs| == |qs| == |w.parties| && NoDup(xs) && NoDup(qs)
    && (forall x :: x in xs <==> x in s.memo && EvalOf(p, x, f))
    && (forall i :: 0 <= i < |xs| ==> EndsAt(p, s, xs[i], qs[i]))
    && forall c :: TermOf(p, f, c) ==>
         && (forall z :: z in s.memo ==> !OperandOf(p, z, c))
         && (forall z, h :: z in s.memo && EvalOf(p, z, h) && TermOf(p, h, c) ==> h == f)
  }

  // ----- Who uses a node

  lemma {:induction false} SourceMember(p: Program, memo: map<ExprId, Lowered>, operands: seq<ExprId>, n: NodeId)
    returns (y: ExprId)
    requires Imported(p, memo, operands) && n in SourceNodes(p, memo, operands)
    ensures y in operands && y in memo && memo[y] == NodeAt(n)
  {
    var k := |operands| - 1;
    if !p[operands[k]].kind.Constant? && memo[operands[k]].n == n {
      y := operands[k];
    } else {
      y := SourceMember(p, memo, operands[..k], n);
    }
  }

  lemma NodeOwner(p: Program, s: State, w: Setting, y: ExprId)
    requires WellTyped(p, w) && Wf(p, s) && y in s.memo && s.memo[y].NodeAt?
    ensures y < |p| && !p[y].op.POLILIZE? && s.memo[y].n < |s.nodes| == |s.owner| && s.owner[s.memo[y].n] == y
    ensures s.nodes[s.memo[y].n].party == p[y].party
  {
    hide ListsOk, Owned, InEdge, WellTyped;
    assert Mirrored(p, s, y);
  }

  /** An edge from the node of y belongs to an operation on y, or to an evaluation with constant term y. */
  lemma UserOf(p: Program, s: State, w: Setting, g: Graph, e: Operation, y: ExprId) returns (x: ExprId)
    requires GraphFrom(p, s, w, g) && Has(g, e) && y in s.memo && s.memo[y].NodeAt? && s.memo[y].n in e.inputs
    ensures x in s.memo && s.memo[x] == NodeAt(e.output) && x < |p| && e.op == p[x].op
    ensures OperandOf(p, x, y) || (EvalOf(p, x, e.arg) && TermOf(p, e.arg, y))
    ensures EvalOf(p, x, e.arg) ==>
      && e.op.EVAL? && e.arg in s.memo && s.memo[e.arg].PolyNode? && e.inputs == s.memo[e.arg].inputs
  {
    hide WellTyped, Wf, GraphFrom;
    x := FromFinished(p, s, w, g, e);
    NodeOwner(p, s, w, y);
    var n := s.memo[y].n;
    if Simple(e.op) {
      var z := SourceMember(p, s.memo, p[x].operands, n);
      NodeOwner(p, s, w, z);
    } else {
      TermNode(p, s, w, e.arg, n, y);
    }
  }

  lemma TermNode(p: Program, s: State, w: Setting, f: ExprId, n: NodeId, y: ExprId)
    requires WellTyped(p, w) && Wf(p, s) && f in s.memo && s.memo[f].PolyNode? && n in s.memo[f].inputs
    requires n < |s.owner| && s.owner[n] == y < |p| && !p[y].op.POLILIZE? && |s.ins| == |s.nodes| == |s.owner|
    ensures TermOf(p, f, y) && n == s.memo[f].inputs[0]
  {
    hide WellTyped, Wf;
    PolyShape(p, s, w, f);
    var i :| 0 <= i < |s.memo[f].inputs| && s.memo[f].inputs[i] == n;
  }

  // ----- Out-lists

  /** An edge leaves a node once if its node is among its inputs once. */
  lemma OutsOnce(g: Graph, n: NodeId)
    requires Sync(g) && Topological(g) && n < |g.nodes| && forall e :: e in g.outs[n] ==> NoDup(e.inputs)
    ensures NoDup(g.outs[n])
  {
    forall i, j | 0 <= i < j < |g.outs[n]| ensures g.outs[n][i] != g.outs[n][j] {
      if g.outs[n][i] == g.outs[n][j] { TwiceOut(g, n, i, j); }
    }
  }

  lemma TwiceOut(g: Graph, n: NodeId, i: nat, j: nat)
    requires Sync(g) && Topological(g) && n < |g.nodes| && i < j < |g.outs[n]| && g.outs[n][i] == g.outs[n][j]
    ensures !NoDup(g.outs[n][i].inputs)
  {
    var e := g.outs[n][i];
    OutEdge(g, n, e);
    assert SyncAt(g, n, e);
    assert g.ins[e.output] == [e];
    CountTwice(g.outs[n], i, j);
    if NoDup(e.inputs) { CountOnce(e.inputs, n); }
  }

  lemma CountTwice<A>(es: seq<A>, i: nat, j: nat)
    requires i < j < |es| && es[i] == es[j]
    ensures multiset(es)[es[i]] >= 2
  {
    assert es == es[..j] + [es[j]] + es[j + 1..];
    assert es[i] in es[..j];
  }

  lemma {:induction false} CountOnce<A>(ns: seq<A>, n: A)
    requires NoDup(ns)
    ensures multiset(ns)[n] <= 1
  {
    if ns != [] {
      var k := |ns| - 1;
      CountOnce(ns[..k], n);
      assert ns == ns[..k] + [ns[k]];
      assert ns[k] !in ns[..k];
    }
  }

  /** The in-edge of a computed expression's node. */
  lemma InEdgeOf(p: Program, s: State, w: Setting, g: Graph, x: ExprId) returns (e: Operation)
    requires GraphFrom(p, s, w, g) && x in s.memo && s.memo[x].NodeAt? && x < |p| && !p[x].op.INPUT?
    ensures s.memo[x].n < |g.nodes| && g.ins[s.memo[x].n] == [e] && Has(g, e) && e.output == s.memo[x].n
  {
    hide WellTyped, OutOk, Owned;
    var n := s.memo[x].n;
    assert Mirrored(p, s, x);
    BuiltGraph(p, s, g);
    assert g.ins[n] == OperationsOf(s.edges, s.ins[n]);
    e := g.ins[n][0];
    assert InRange(g, e);
  }

  ghost function NodesOf(s: State, xs: seq<ExprId>): (ns: seq<NodeId>)
    ensures |ns| == |xs|
  {
    seq(|xs|, i requires 0 <= i < |xs| => if xs[i] in s.memo && s.memo[xs[i]].NodeAt? then s.memo[xs[i]].n else 0)
  }

  lemma EvaluationNode(p: Program, s: State, w: Setting, g: Graph, f: ExprId, x: ExprId) returns (e: Operation)
    requires GraphFrom(p, s, w, g) && x in s.memo && EvalOf(p, x, f) && f in s.memo && s.memo[f].PolyNode?
    ensures s.memo[x].NodeAt? && s.memo[x].n < |g.nodes| && g.ins[s.memo[x].n] == [e] && Has(g, e)
    ensures e.output == s.memo[x].n && e.op.EVAL? && e.inputs == s.memo[f].inputs
  {
    hide GraphFrom, WellTyped, Wf;
    assert s.memo[x].NodeAt? by { EvaluationYields(p, s, w, g, x); }
    e := InEdgeOf(p, s, w, g, x);
    var y := FromFinished(p, s, w, g, e);
    NodeOwner(p, s, w, x);
  }

  lemma EvaluationYields(p: Program, s: State, w: Setting, g: Graph, x: ExprId)
    requires GraphFrom(p, s, w, g) && x in s.memo && x < |p| && p[x].op.EVAL?
    ensures s.memo[x].NodeAt?
  {
    hide WellTyped, ListsOk, Owned;
    assert Mirrored(p, s, x);
  }

  /** The facts about a built graph the rest rests on. */
  lemma GraphFacts(p: Program, s: State, w: Setting, g: Graph)
    requires GraphFrom(p, s, w, g)
    ensures WellTyped(p, w) && Wf(p, s) && Sync(g) && Topological(g) && g.nodes == s.nodes
    ensures g.partyCnt == |w.parties| && g.T == w.T && |s.ins| == |s.nodes| == |s.owner|
  {
    hide WellTyped, Topological;
    BuiltGraph(p, s, g);
    BaseNodes(p, s, w, g);
    ListSizes(s);
  }

  /** The out-edges of the constant term are the evaluations of its polynomial. */
  lemma TermOuts(p: Program, s: State, w: Setting, g: Graph, f: ExprId, xs: seq<ExprId>, qs: seq<Party>, e: Operation)
    requires GraphFrom(p, s, w, g) && DealtToAll(p, s, w, f, xs, qs) && |s.memo[f].inputs| > 0
    requires s.memo[f].inputs[0] < |g.nodes| && Sync(g)
    ensures e in g.outs[s.memo[f].inputs[0]] <==>
      exists i :: 0 <= i < |xs| && NodesOf(s, xs)[i] < |g.nodes| && g.ins[NodesOf(s, xs)[i]] == [e]
    ensures e in g.outs[s.memo[f].inputs[0]] ==> e.op.EVAL? && e.inputs == s.memo[f].inputs && Has(g, e)
  {
    hide GraphFrom, WellTyped, Wf, EndsAt;
    GraphFacts(p, s, w, g);
    var n := s.memo[f].inputs[0];
    var c := TermOwner(p, s, w, f);
    OutEdge(g, n, e);
    if e in g.outs[n] {
      var x := UserOf(p, s, w, g, e, c);
      assert EvalOf(p, x, f);
      var i :| 0 <= i < |xs| && xs[i] == x;
      var d := EvaluationNode(p, s, w, g, f, x);
      OnlyIn(g, e, d);
      assert NodesOf(s, xs)[i] == e.output && g.ins[NodesOf(s, xs)[i]] == [e];
    }
    if i :| 0 <= i < |xs| && NodesOf(s, xs)[i] < |g.nodes| && g.ins[NodesOf(s, xs)[i]] == [e] {
      assert xs[i] in xs;
      var d := EvaluationNode(p, s, w, g, f, xs[i]);
      assert n in e.inputs;
    }
  }

  lemma OnlyIn(g: Graph, e: Operation, d: Operation)
    requires Sync(g) && Topological(g) && Has(g, e) && Has(g, d) && e.output == d.output
    ensures e == d && g.ins[e.output] == [e]
  {
  }

  lemma TermOwner(p: Program, s: State, w: Setting, f: ExprId) returns (c: ExprId)
    requires WellTyped(p, w) && Wf(p, s) && f in s.memo && s.memo[f].PolyNode?
    ensures TermOf(p, f, c) && c in s.memo && |s.memo[f].inputs| == w.T + 1 && s.memo[c] == NodeAt(s.memo[f].inputs[0])
    ensures NoDup(s.memo[f].inputs)
    ensures forall i :: 1 <= i < |s.memo[f].inputs| ==>
      s.memo[f].inputs[i] < |s.nodes| == |s.ins| && s.ins[s.memo[f].inputs[i]] == []
      && s.nodes[s.memo[f].inputs[i]].genre == Others
  {
    hide ListsOk, InEdge, PointsApart, ReconstructionsApart;
    assert Mirrored(p, s, f) && ExprTyped(p, w, f) && WfExpr(p, f);
    ListSizes(s);
    PolyShape(p, s, w, f);
    c := p[f].kind.constTerm;
    assert WfExpr(p, c);
  }

  /** There are as many of them as parties. */
  lemma TermDegree(p: Program, s: State, w: Setting, g: Graph, f: ExprId, xs: seq<ExprId>, qs: seq<Party>)
    requires GraphFrom(p, s, w, g) && DealtToAll(p, s, w, f, xs, qs) && |s.memo[f].inputs| > 0
    requires s.memo[f].inputs[0] < |g.nodes| && Sync(g)
    ensures |g.outs[s.memo[f].inputs[0]]| == |w.parties| && NoDup(Outputs(g.outs[s.memo[f].inputs[0]]))
    ensures Elems(Outputs(g.outs[s.memo[f].inputs[0]])) == Elems(NodesOf(s, xs))
  {
    hide GraphFrom, WellTyped, Wf, EndsAt, TermOf, NodesOf, SyncAt, EvalOf, OperandOf;
    var es, ns := g.outs[s.memo[f].inputs[0]], NodesOf(s, xs);
    GraphFacts(p, s, w, g);
    TermOutputs(p, s, w, g, f, xs, qs);
    EvaluationsApart(p, s, w, g, f, xs, qs);
    NoDupSize(Outputs(es));
    NoDupSize(ns);
    assert |xs| == |w.parties| by { DealtSizes(p, s, w, f, xs, qs); }
  }

  lemma DealtSizes(p: Program, s: State, w: Setting, f: ExprId, xs: seq<ExprId>, qs: seq<Party>)
    requires DealtToAll(p, s, w, f, xs, qs)
    ensures |xs| == |qs| == |w.parties|
  {
    hide EndsAt, TermOf;
  }

  lemma TermOutputs(p: Program, s: State, w: Setting, g: Graph, f: ExprId, xs: seq<ExprId>, qs: seq<Party>)
    requires GraphFrom(p, s, w, g) && DealtToAll(p, s, w, f, xs, qs) && |s.memo[f].inputs| > 0
    requires s.memo[f].inputs[0] < |g.nodes| && Sync(g)
    ensures NoDup(Outputs(g.outs[s.memo[f].inputs[0]]))
    ensures Elems(Outputs(g.outs[s.memo[f].inputs[0]])) == Elems(NodesOf(s, xs))
  {
    hide GraphFrom, WellTyped, Wf, EndsAt, TermOf, NodesOf, SyncAt, EvalOf, OperandOf;
    var n := s.memo[f].inputs[0];
    var es, ns := g.outs[n], NodesOf(s, xs);
    GraphFacts(p, s, w, g);
    var c := TermOwner(p, s, w, f);
    forall e | e in es ensures e.inputs == s.memo[f].inputs && g.ins[e.output] == [e] && e.output in ns {
      TermOuts(p, s, w, g, f, xs, qs, e);
      var i :| 0 <= i < |xs| && ns[i] < |g.nodes| && g.ins[ns[i]] == [e];
    }
    OutsOnce(g, n);
    forall m | m in ns ensures m in Outputs(es) {
      var i :| 0 <= i < |ns| && ns[i] == m;
      EvaluationOut(p, s, w, g, f, xs, qs, i);
    }
    forall i, j | 0 <= i < j < |es| ensures Outputs(es)[i] != Outputs(es)[j] {
      assert es[i] in es && es[j] in es && es[i] != es[j];
    }
  }

  lemma EvaluationOut(p: Program, s: State, w: Setting, g: Graph, f: ExprId, xs: seq<ExprId>, qs: seq<Party>, i: nat)
    requires GraphFrom(p, s, w, g) && DealtToAll(p, s, w, f, xs, qs) && |s.memo[f].inputs| > 0 && i < |xs|
    requires s.memo[f].inputs[0] < |g.nodes| && Sync(g)
    ensures NodesOf(s, xs)[i] in Outputs(g.outs[s.memo[f].inputs[0]])
  {
    hide GraphFrom, WellTyped, Wf, EndsAt, SyncAt;
    var es := g.outs[s.memo[f].inputs[0]];
    assert xs[i] in xs;
    var e := EvaluationNode(p, s, w, g, f, xs[i]);
    assert NodesOf(s, xs)[i] == e.output && g.ins[NodesOf(s, xs)[i]] == [e];
    TermOuts(p, s, w, g, f, xs, qs, e);
    var k :| 0 <= k < |es| && es[k] == e;
    assert Outputs(es)[k] == e.output;
  }

  lemma EvaluationsApart(p: Program, s: State, w: Setting, g: Graph, f: ExprId, xs: seq<ExprId>, qs: seq<Party>)
    requires GraphFrom(p, s, w, g) && DealtToAll(p, s, w, f, xs, qs)
    ensures NoDup(NodesOf(s, xs))
  {
    hide GraphFrom, WellTyped, Wf, EndsAt;
    GraphFacts(p, s, w, g);
    forall i, j | 0 <= i < j < |xs| ensures NodesOf(s, xs)[i] != NodesOf(s, xs)[j] {
      assert xs[i] in xs && xs[j] in xs;
      EvaluationYields(p, s, w, g, xs[i]);
      EvaluationYields(p, s, w, g, xs[j]);
      NodeOwner(p, s, w, xs[i]);
      NodeOwner(p, s, w, xs[j]);
    }
  }

  // ----- Where the shares go

  lemma ShareEnds(p: Program, s: State, w: Setting, g: Graph, x: ExprId, q: Party)
    requires GraphFrom(p, s, w, g) && Sync(g) && Topological(g) && EndsAt(p, s, x, q) && p[x].op.EVAL?
    requires s.memo[x].NodeAt? && s.memo[x].n < |g.nodes|
    ensures TargetParty(g, s.memo[x].n) == q && |g.ins[Target(g, s.memo[x].n)]| <= 1
  {
    hide GraphFrom, WellTyped, Wf, SyncAt;
    GraphFacts(p, s, w, g);
    NodeOwner(p, s, w, x);
    var m := s.memo[x].n;
    if y :|
      && y in s.memo && y < |p| && p[y].op.TRANSIT? && p[y].operands == [x] && p[y].party == q
      && UsedOnlyBy(p, s, x, y)
    {
      var t := SentEdge(p, s, w, g, x, y);
      assert Sent(g, m) && Target(g, m) == t.output;
    } else if Sent(g, m) {
      OutEdge(g, m, g.outs[m][0]);
      var z := UserOf(p, s, w, g, g.outs[m][0], x);
    }
  }

  lemma SentEdge(p: Program, s: State, w: Setting, g: Graph, x: ExprId, y: ExprId) returns (t: Operation)
    requires GraphFrom(p, s, w, g) && Sync(g) && Topological(g)
    requires x in s.memo && s.memo[x].NodeAt? && s.memo[x].n < |g.nodes|
    requires y in s.memo && y < |p| && p[y].op.TRANSIT? && p[y].operands == [x] && UsedOnlyBy(p, s, x, y)
    ensures g.outs[s.memo[x].n] == [t] && t.op.TRANSIT? && t.output < |g.nodes| && g.nodes[t.output].party == p[y].party
  {
    hide GraphFrom, WellTyped, Wf, SyncAt;
    GraphFacts(p, s, w, g);
    var m := s.memo[x].n;
    TransitYields(p, s, w, g, y);
    t := InEdgeOf(p, s, w, g, y);
    var z := FromFinished(p, s, w, g, t);
    NodeOwner(p, s, w, y);
    NotConstant(p, s, w, x);
    OneSource(p, s.memo, x);
    assert t.inputs == [m];
    OutEdge(g, m, t);
    forall e | e in g.outs[m] ensures e == t {
      OutEdge(g, m, e);
      var u := UserOf(p, s, w, g, e, x);
      OnlyIn(g, e, t);
    }
    assert NoDup(t.inputs);
    OutsOnce(g, m);
    AllSame(g.outs[m], t);
  }

  lemma TransitYields(p: Program, s: State, w: Setting, g: Graph, y: ExprId)
    requires GraphFrom(p, s, w, g) && y in s.memo && y < |p| && p[y].op.TRANSIT?
    ensures s.memo[y].NodeAt?
  {
    hide WellTyped, ListsOk, Owned;
    assert Mirrored(p, s, y);
  }

  lemma NotConstant(p: Program, s: State, w: Setting, x: ExprId)
    requires Wf(p, s) && x in s.memo && s.memo[x].NodeAt?
    ensures x < |p| && !p[x].kind.Constant?
  {
    hide ListsOk, Owned, InEdge;
    assert Mirrored(p, s, x);
  }

  lemma OneSource(p: Program, memo: map<ExprId, Lowered>, x: ExprId)
    requires Imported(p, memo, [x]) && x < |p| && x in memo && memo[x].NodeAt?
    ensures SourceNodes(p, memo, [x]) == if p[x].kind.Constant? then [] else [memo[x].n]
  {
    assert [x][..0] == [];
  }

  lemma AllSame(es: seq<Operation>, t: Operation)
    requires NoDup(es) && t in es && forall e :: e in es ==> e == t
    ensures es == [t]
  {
    if |es| > 1 { Repeats(es, t); }
  }

  lemma Repeats(es: seq<Operation>, t: Operation)
    requires |es| > 1 && forall e :: e in es ==> e == t
    ensures !NoDup(es)
  {
    assert es[0] in es && es[1] in es;
  }

  // ----- The guard

  lemma ShareParty(p: Program, s: State, w: Setting, g: Graph, f: ExprId, xs: seq<ExprId>, qs: seq<Party>, m: NodeId)
    returns (k: nat)
    requires GraphFrom(p, s, w, g) && DealtToAll(p, s, w, f, xs, qs) && Sync(g) && Topological(g) && m in NodesOf(s, xs)
    ensures k < |xs| == |qs| && NodesOf(s, xs)[k] == m && m < |g.nodes|
    ensures TargetParty(g, m) == qs[k] && |g.ins[Target(g, m)]| <= 1
  {
    hide GraphFrom, WellTyped, Wf, SyncAt, EndsAt;
    k :| 0 <= k < |xs| && NodesOf(s, xs)[k] == m;
    assert xs[k] in xs;
    var e := EvaluationNode(p, s, w, g, f, xs[k]);
    ShareEnds(p, s, w, g, xs[k], qs[k]);
  }

  lemma TermInputs(es: seq<Operation>, ns: seq<NodeId>)
    requires |es| > 0 && NoDup(ns) && forall e :: e in es ==> e.inputs == ns
    ensures AllInputs(es) == Elems(ns) && |AllInputs(es)| == |ns|
  {
    NoDupSize(ns);
    assert es[0] in es;
    assert forall i :: 0 <= i < |es| ==> es[i] in es;
  }

  /**
   * Completeness of the guard on built graphs: the node of a constant term that is dealt to all
   * parties is accepted for every set of source parties, whatever the constant term is computed
   * from.
   */
  lemma TermAccepted(p: Program, s: State, w: Setting, g: Graph, f: ExprId, xs: seq<ExprId>, qs: seq<Party>,
                     src: set<Party>)
    requires GraphFrom(p, s, w, g) && DealtToAll(p, s, w, f, xs, qs)
    ensures exists c :: TermOf(p, f, c) && c in s.memo && s.memo[c].NodeAt? && s.memo[c].n < |g.nodes| && Sync(g)
                     && RewritableSecret(g, s.memo[c].n, src) && SharingMatch(g, s.memo[c].n, src)
  {
    hide GraphFrom, WellTyped, Wf, EndsAt, SyncAt, NodesOf, Target, TargetParty, AllInputs, EvalOf, OperandOf;
    hide TermOf;
    GraphFacts(p, s, w, g);
    var c := TermOwner(p, s, w, f);
    NodeOwner(p, s, w, c);
    var n, ns := s.memo[c].n, s.memo[f].inputs;
    var es := g.outs[n];
    TermDegree(p, s, w, g, f, xs, qs);
    forall e | e in es ensures e.op.EVAL? && e.inputs == ns { TermOuts(p, s, w, g, f, xs, qs, e); }
    forall i | 0 <= i < |es|
      ensures es[i] in es && es[i].output in NodesOf(s, xs) && es[i].op.EVAL? && es[i].inputs == ns
    {
      assert Outputs(es)[i] in Elems(Outputs(es));
    }
    TermInputs(es, ns) by { PartiesThere(p, w); }
    TargetsApart(p, s, w, g, f, xs, qs, es);
    forall m | m in AllInputs(es) && m != n ensures m < |g.nodes| && IsRandom(g, m) {
      var i :| 0 <= i < |ns| && ns[i] == m;
      DrawnRandom(p, s, w, g, m);
    }
  }

  lemma PartiesThere(p: Program, w: Setting)
    requires WellTyped(p, w)
    ensures |w.parties| > 0
  {
  }

  lemma DrawnRandom(p: Program, s: State, w: Setting, g: Graph, m: NodeId)
    requires GraphFrom(p, s, w, g) && m < |s.nodes| == |s.ins| && s.ins[m] == [] && s.nodes[m].genre == Others
    ensures m < |g.nodes| && IsRandom(g, m)
  {
    hide WellTyped, Wf;
    assert g.ins[m] == OperationsOf(s.edges, s.ins[m]);
  }

  /** The shares go to different parties, and none of their targets has a second in-edge. */
  lemma TargetsApart(p: Program, s: State, w: Setting, g: Graph, f: ExprId, xs: seq<ExprId>, qs: seq<Party>,
                     es: seq<Operation>)
    requires GraphFrom(p, s, w, g) && DealtToAll(p, s, w, f, xs, qs) && Sync(g) && Topological(g) && NoDup(Outputs(es))
    requires forall i :: 0 <= i < |es| ==> es[i].output in NodesOf(s, xs)
    ensures forall i :: 0 <= i < |es| ==> es[i].output < |g.nodes| && |g.ins[Target(g, es[i].output)]| <= 1
    ensures forall i, j :: 0 <= i < j < |es| ==> TargetParty(g, es[i].output) != TargetParty(g, es[j].output)
  {
    hide GraphFrom, WellTyped, Wf, EndsAt, SyncAt, NodesOf, Target, TargetParty, EvalOf, OperandOf, TermOf;
    hide Topological;
    forall i | 0 <= i < |es| ensures es[i].output < |g.nodes| && |g.ins[Target(g, es[i].output)]| <= 1 {
      var k := ShareParty(p, s, w, g, f, xs, qs, es[i].output);
    }
    forall i, j | 0 <= i < j < |es| ensures TargetParty(g, es[i].output) != TargetParty(g, es[j].output) {
      var k := ShareParty(p, s, w, g, f, xs, qs, es[i].output);
      var l := ShareParty(p, s, w, g, f, xs, qs, es[j].output);
      assert Outputs(es)[i] != Outputs(es)[j];
    }
  }
}
