// The prover: one start graph for every choice of how many parties of each class of
// interchangeable parties are corrupted, and one proof attempt per start graph.
module Provers {
  import opened Graphs
  import opened Counters
  import opened Semantics
  import opened Patterns
  import opened Rewriting
  import opened Potentials
  import opened Tails
  import opened Runs
  import opened Enumeration

  /** The start graph for one set of corrupted parties, counters recounted. */
  ghost function StartOf(b: GraphBase, partyCnt: nat, T: nat, corrupted: set<Party>): (g: Graph)
    requires |b.ins| == |b.outs| == |b.nodes|
    ensures Shape(g) && AllLive(g) && Counted(g)
  {
    var g0 := Graph(b.ins, b.outs, b.nodes, seq(|b.nodes|, _ => true), partyCnt, T, corrupted, 0, 0);
    var g := g0.(randomCnt := |RandomNodes(g0)|, bubbleCnt := |Bubbles(g0)|);
    SameCounts(g0, g);
    g
  }

  /** The protocol graph meets the standing conditions (which do not depend on who is corrupted). */
  ghost predicate Startable(env: Env, parties: set<Party>, b: GraphBase, T: nat) {
    |b.ins| == |b.outs| == |b.nodes| && Ready(env, parties, StartOf(b, |parties|, T, {}))
  }

  lemma StartReady(env: Env, parties: set<Party>, b: GraphBase, T: nat, corrupted: set<Party>)
    requires Startable(env, parties, b, T)
    ensures Ready(env, parties, StartOf(b, |parties|, T, corrupted))
  {
    hide WfEnv;
    var g, h := StartOf(b, |parties|, T, {}), StartOf(b, |parties|, T, corrupted);
    forall n: NodeId, e | n < |h.nodes| && InRange(h, e) ensures SyncAt(h, n, e) {
      assert InRange(g, e) && SyncAt(g, n, e);
    }
    forall e | Has(h, e) ensures WellFormed(env, h, e) {
      assert Has(g, e) && WellFormed(env, g, e);
    }
  }

  /** A completed proof attempt from g that ended with f after tail elimination. */
  ghost predicate Attempted(parties: set<Party>, g: Graph, f: Graph) {
    exists src, trace :: AttemptedBy(parties, g, f, src, trace)
  }

  lemma AttemptMade(parties: set<Party>, g: Graph, f: Graph, src: Sources, trace: seq<Graph>)
    requires AttemptedBy(parties, g, f, src, trace)
    ensures Attempted(parties, g, f)
  {
    hide AttemptedBy;
  }

  /**
   * What a successful attempt says about the protocol graph it started from: when its final
   * graph is acyclic, everything the corrupted parties hold is a function of the final random
   * nodes and of the corrupted inputs and outputs without in-edges.
   */
  lemma AttemptMeaning(env: Env, parties: set<Party>, g: Graph, f: Graph, src: Sources, trace: seq<Graph>,
                       v: Valuation, w: Valuation, n: NodeId)
    requires Ready(env, parties, g) && AttemptedBy(parties, g, f, src, trace)
    requires EdgesFix(env, g) && FixedRun(env, src, trace)
    requires Shape(f) && Clear(f) && Acyclic(f)
    requires Sat(env, g, v) && Sat(env, g, w) && AgreeOnSources(f, v, w)
    requires n < |f.nodes| && AtCorrupted(f, n)
    ensures n < |v| && n < |w| && v[n] == w[n]
  {
    hide Ready, EdgesFix, FixedRun, IsRun, Trimmed, Clear, Acyclic, Sat, AgreeOnSources, GoodSources, GreatestSupported;
    hide AtCorrupted, Greedy, Exhausted;
    ViewDetermined(env, parties, src, trace, f, v, w, n);
  }

  /** What has been listed so far and what is still to come make up all of it. */
  ghost predicate Balanced<A>(before: seq<A>, sofar: seq<A>, rest: seq<A>, all: seq<A>) {
    sofar + rest == before + all
  }

  ghost predicate IsPrefix<A>(before: seq<A>, after: seq<A>) {
    before <= after
  }

  lemma PrefixTransitive<A>(a: seq<A>, b: seq<A>, c: seq<A>)
    requires IsPrefix(a, b) && IsPrefix(b, c)
    ensures IsPrefix(a, c)
  {
  }

  lemma BalanceStart<A>(before: seq<A>, all: seq<A>)
    ensures Balanced(before, before, all, all)
  {
  }

  lemma BalanceStep<A>(before: seq<A>, sofar: seq<A>, next: seq<A>, rest: seq<A>, all: seq<A>)
    requires Balanced(before, sofar, next + rest, all)
    ensures Balanced(before, sofar + next, rest, all)
  {
    assert sofar + next + rest == sofar + (next + rest);
  }

  lemma AllBalanced<A>(before: seq<A>, sofar: seq<A>, all: seq<A>)
    requires Balanced(before, sofar, [], all)
    ensures sofar == before + all
  {
  }

  class Prover {
    const base: GraphBase
    const classes: seq<set<Party>>
    const parties: seq<Party>
    const T: nat
    var starts: seq<Graph>

    ghost predicate Valid()
      reads this
    {
      && |base.ins| == |base.outs| == |base.nodes| < 0x8000_0000
      && Disjoint(classes) && Union(classes) <= PartySet(parties) && NoDup(parties)
      && forall i :: 0 <= i < |starts| ==> IsStart(starts[i])
    }

    ghost predicate IsStart(g: Graph)
      requires |base.ins| == |base.outs| == |base.nodes|
    {
      g.corrupted <= Union(classes) && g == StartOf(base, |parties|, T, g.corrupted)
    }

    /** The per-class counts of the corrupted sets of the start graphs. */
    ghost function Picked(): (r: seq<seq<nat>>)
      reads this
      ensures |r| == |starts|
    {
      seq(|starts|, i requires 0 <= i < |starts| reads this => Counts(starts[i].corrupted, classes))
    }

    constructor (base: GraphBase, classes: seq<set<Party>>, parties: seq<Party>, T: nat)
      requires |base.ins| == |base.outs| == |base.nodes| < 0x8000_0000
      requires Disjoint(classes) && Union(classes) <= PartySet(parties) && NoDup(parties)
      ensures Valid() && starts == []
      ensures this.base == base && this.classes == classes && this.parties == parties && this.T == T
    {
      this.base := base;
      this.classes := classes;
      this.parties := parties;
      this.T := T;
      starts := [];
    }

    method PushStart(corrupted: set<Party>)
      requires Valid() && corrupted <= Union(classes)
      modifies `starts
      ensures Valid() && Picked() == old(Picked()) + [Counts(corrupted, classes)]
      ensures old(starts) <= starts
    {
      var g := Recount(base.ins, base.outs, base.nodes, |parties|, T, corrupted);
      ghost var h := StartOf(base, |parties|, T, corrupted);
      assert g.live == h.live;
      SameCounts(g, h);
      ghost var before := starts;
      starts := starts + [g];
      assert forall i :: 0 <= i < |before| ==> starts[i] == before[i];
    }

    /**
     * Extend the corrupted set, which holds parties of the first classes only, in every way
     * that matters: the start graphs pushed have exactly the count vectors of Choices.
     */
    method Search(id: nat, quota: nat, corrupted: set<Party>, strict: bool)
      requires Valid() && id <= |classes| && corrupted <= Union(classes[..id])
      modifies `starts
      ensures Valid() && IsPrefix(old(starts), starts)
      ensures Picked() == old(Picked()) + Choices(Sizes(classes[id..]), quota, strict, Counts(corrupted, classes[..id]))
      decreases |classes| - id, 2
    {
      hide Union, Disjoint, Counts, IsStart, Picked;
      if id == |classes| {
        assert classes[..id] == classes;
        SumCounts(corrupted, classes);
        if |corrupted| > 0 && ((strict && quota == 0) || !strict) {
          PushStart(corrupted);
        }
      } else {
        SearchClass(id, quota, corrupted, strict);
      }
    }

    /** The vectors that take k parties of class id, and those that take at least k. */
    ghost function Taking(id: nat, quota: nat, X: set<Party>, strict: bool, k: nat): seq<seq<nat>>
      requires id < |classes| && k <= quota
    {
      Choices(Sizes(classes[id..])[1..], quota - k, strict, Counts(X, classes[..id]) + [k])
    }

    ghost function TakingAtLeast(id: nat, quota: nat, X: set<Party>, strict: bool, k: nat): seq<seq<nat>>
      requires id < |classes|
    {
      ChoicesFrom(Sizes(classes[id..]), quota, strict, Counts(X, classes[..id]), k)
    }

    lemma TakeMore(id: nat, quota: nat, X: set<Party>, strict: bool, k: nat, before: seq<seq<nat>>,
                   sofar: seq<seq<nat>>)
      requires id < |classes| && k <= quota && k <= |classes[id]|
      requires Balanced(before, sofar, TakingAtLeast(id, quota, X, strict, k), TakingAtLeast(id, quota, X, strict, 0))
      ensures Balanced(before, sofar + Taking(id, quota, X, strict, k), TakingAtLeast(id, quota, X, strict, k + 1),
                       TakingAtLeast(id, quota, X, strict, 0))
    {
      hide Choices, ChoicesFrom, Counts, Balanced;
      var sizes, taken := Sizes(classes[id..]), Counts(X, classes[..id]);
      FirstChoices(sizes, quota, strict, taken, k);
      BalanceStep(before, sofar, Taking(id, quota, X, strict, k), TakingAtLeast(id, quota, X, strict, k + 1),
                  TakingAtLeast(id, quota, X, strict, 0));
    }

    lemma TakenAll(id: nat, quota: nat, X: set<Party>, strict: bool, k: nat, before: seq<seq<nat>>,
                   sofar: seq<seq<nat>>)
      requires id < |classes| && (k > quota || k > |classes[id]|)
      requires Balanced(before, sofar, TakingAtLeast(id, quota, X, strict, k), TakingAtLeast(id, quota, X, strict, 0))
      ensures sofar == before + TakingAtLeast(id, quota, X, strict, 0)
    {
      NoMoreChoices(Sizes(classes[id..]), quota, strict, Counts(X, classes[..id]), k);
      AllBalanced(before, sofar, TakingAtLeast(id, quota, X, strict, 0));
    }

    /** Go on to the next class with the parties P of class id taken. */
    method SearchWith(id: nat, quota: nat, X: set<Party>, P: set<Party>, strict: bool)
      requires Valid() && id < |classes| && X <= Union(classes[..id]) && P <= classes[id] && |P| <= quota
      modifies `starts
      ensures Valid() && IsPrefix(old(starts), starts)
      ensures Picked() == old(Picked()) + Taking(id, quota, X, strict, |P|)
      decreases |classes| - id, 0
    {
      hide Union, Disjoint, Counts, IsStart, Picked, Choices;
      assert Sizes(classes[id..])[1..] == Sizes(classes[id + 1..]);
      Extended(id, X, P);
      Search(id + 1, quota - |P|, X + P, strict);
    }

    /** The branch of the search that decides how many parties of class id to take. */
    method SearchClass(id: nat, quota: nat, X: set<Party>, strict: bool)
      requires Valid() && id < |classes| && X <= Union(classes[..id])
      modifies `starts
      ensures Valid() && IsPrefix(old(starts), starts)
      ensures Picked() == old(Picked()) + TakingAtLeast(id, quota, X, strict, 0)
      decreases |classes| - id, 1
    {
      hide Valid, Union, Picked, Taking, TakingAtLeast, Balanced, IsPrefix;
      ghost var start, before := starts, Picked();
      var chosen: set<Party> := {};
      BalanceStart(before, TakingAtLeast(id, quota, X, strict, 0));
      TakeMore(id, quota, X, strict, 0, before, before);
      SearchWith(id, quota, X, chosen, strict);
      var todo := classes[id];
      while todo != {} && |chosen| != quota
        invariant Valid() && IsPrefix(start, starts) && |chosen| <= quota
        invariant todo !! chosen && todo + chosen == classes[id]
        invariant Balanced(before, Picked(), TakingAtLeast(id, quota, X, strict, |chosen| + 1),
                           TakingAtLeast(id, quota, X, strict, 0))
        decreases todo
      {
        var party :| party in todo;
        todo := todo - {party};
        chosen := chosen + {party};
        SubsetSize(chosen, classes[id]);
        TakeMore(id, quota, X, strict, |chosen|, before, Picked());
        ghost var known := starts;
        SearchWith(id, quota, X, chosen, strict);
        PrefixTransitive(start, known, starts);
      }
      TakenAll(id, quota, X, strict, |chosen| + 1, before, Picked());
    }

    /** Taking the parties P of the next class extends the counts by their number. */
    lemma Extended(id: nat, X: set<Party>, P: set<Party>)
      requires id < |classes| && Disjoint(classes) && X <= Union(classes[..id]) && P <= classes[id]
      ensures X + P <= Union(classes[..id + 1])
      ensures Counts(X + P, classes[..id + 1]) == Counts(X, classes[..id]) + [|P|]
    {
      var front := classes[..id + 1];
      assert front[..id] == classes[..id];
      CountsFront(X + P, front, id);
      forall p | p in X ensures p !in classes[id] && p in Union(front) {
        var k :| 0 <= k < id && p in classes[..id][k];
        assert classes[k] !! classes[id] && front[k] == classes[k];
      }
      forall p | p in P ensures p in Union(front) { assert p in front[id]; }
      assert (X + P) - front[id] == X && (X + P) * front[id] == P;
    }

    /** A start graph is one the attempt takes. */
    lemma StartTakes(env: Env, i: nat)
      requires Valid() && Startable(env, PartySet(parties), base, T) && i < |starts|
      ensures Ready(env, PartySet(parties), starts[i]) && NoDup(parties) && starts[i].T == T
      ensures starts[i].corrupted <= PartySet(parties)
    {
      hide Ready, Union, Startable;
      assert IsStart(starts[i]);
      PartySetSize(parties);
      StartReady(env, PartySet(parties), base, T, starts[i].corrupted);
    }

    method TryStart(i: nat, ghost env: Env) returns (proved: bool, final: Graph)
      requires Valid() && Startable(env, PartySet(parties), base, T) && i < |starts| && |starts[i].corrupted| <= T
      ensures Shape(final) && Attempted(PartySet(parties), starts[i], final) && (proved <==> Clear(final))
    {
      hide Valid, Startable, Ready, AttemptedBy, Attempted, Clear, RankBound;
      StartTakes(env, i);
      ghost var src, trace;
      proved, final, src, trace := TryProving(starts[i], parties, env);
      AttemptMade(PartySet(parties), starts[i], final, src, trace);
    }

    method TryAllPossibilities(ghost env: Env) returns (proved: bool, finals: seq<Graph>)
      requires Valid() && Startable(env, PartySet(parties), base, T)
      requires forall i :: 0 <= i < |starts| ==> |starts[i].corrupted| <= T
      ensures |finals| == |starts|
      ensures forall i :: 0 <= i < |finals| ==> Shape(finals[i]) && Attempted(PartySet(parties), starts[i], finals[i])
      ensures proved <==> forall i :: 0 <= i < |finals| ==> Clear(finals[i])
    {
      hide Valid, Startable, Attempted, Clear;
      proved := true;
      finals := [];
      for i := 0 to |starts|
        invariant |finals| == i
        invariant forall k :: 0 <= k < i ==> Shape(finals[k]) && Attempted(PartySet(parties), starts[k], finals[k])
        invariant proved <==> forall k :: 0 <= k < i ==> Clear(finals[k])
      {
        var one, final := TryStart(i, env);
        proved := proved && one;
        finals := finals + [final];
      }
    }

    /** The start graphs are exactly what the quota asks for. */
    ghost predicate Exhaustive(quota: nat, strict: bool)
      reads this
    {
      Picked() == Choices(Sizes(classes), quota, strict, [])
    }

    /** Prove for exactly I corrupted parties. */
    method ProveExactly(I: nat, ghost env: Env) returns (proved: bool, finals: seq<Graph>)
      requires Valid() && Startable(env, PartySet(parties), base, T) && I <= T
      modifies `starts
      ensures Valid() && Exhaustive(I, true) && |finals| == |starts|
      ensures forall i :: 0 <= i < |finals| ==> Shape(finals[i]) && Attempted(PartySet(parties), starts[i], finals[i])
      ensures proved <==> forall i :: 0 <= i < |finals| ==> Clear(finals[i])
    {
      hide Startable, Attempted, Union, Clear;
      starts := [];
      FromScratch();
      Search(0, I, {}, true);
      AllWithinQuota(I, true);
      proved, finals := TryAllPossibilities(env);
    }

    /** Prove for every number of corrupted parties from 1 to T. */
    method Prove(ghost env: Env) returns (proved: bool, finals: seq<Graph>)
      requires Valid() && Startable(env, PartySet(parties), base, T)
      modifies `starts
      ensures Valid() && Exhaustive(T, false) && |finals| == |starts|
      ensures forall i :: 0 <= i < |finals| ==> Shape(finals[i]) && Attempted(PartySet(parties), starts[i], finals[i])
      ensures proved <==> forall i :: 0 <= i < |finals| ==> Clear(finals[i])
    {
      hide Startable, Attempted, Union, Clear;
      starts := [];
      FromScratch();
      Search(0, T, {}, false);
      AllWithinQuota(T, false);
      proved, finals := TryAllPossibilities(env);
    }

    lemma FromScratch()
      requires starts == []
      ensures Picked() == [] && Counts({}, classes[..0]) == [] && classes[0..] == classes
    {
    }

    /** Every start graph has a nonempty corrupted set within the quota. */
    lemma AllWithinQuota(quota: nat, strict: bool)
      requires Valid() && Exhaustive(quota, strict)
      ensures forall i :: 0 <= i < |starts| ==>
        starts[i].corrupted != {} && |starts[i].corrupted| <= quota && (strict ==> |starts[i].corrupted| == quota)
    {
      hide Union, Counts, Choices, Sizes;
      forall i | 0 <= i < |starts|
        ensures starts[i].corrupted != {} && |starts[i].corrupted| <= quota
        ensures (strict ==> |starts[i].corrupted| == quota)
      {
        assert IsStart(starts[i]);
        assert Picked()[i] in Choices(Sizes(classes), quota, strict, []);
        CountsListed(starts[i].corrupted, classes, quota, strict);
      }
    }

    /** Every admissible corrupted set has exactly one start graph with the same per-class counts. */
    lemma CoveredOnce(X: set<Party>, quota: nat, strict: bool)
      requires Valid() && Exhaustive(quota, strict)
      requires X <= Union(classes) && X != {} && |X| <= quota && (strict ==> |X| == quota)
      ensures exists i :: 0 <= i < |starts| && Counts(starts[i].corrupted, classes) == Counts(X, classes)
      ensures forall i, j :: 0 <= i < j < |starts| ==>
        Counts(starts[i].corrupted, classes) != Counts(starts[j].corrupted, classes)
    {
      hide Union, Counts, Choices, Sizes;
      CountsListed(X, classes, quota, strict);
      ChoicesDistinct(Sizes(classes), quota, strict, []);
      var i :| 0 <= i < |Picked()| && Picked()[i] == Counts(X, classes);
      forall i, j | 0 <= i < j < |starts|
        ensures Counts(starts[i].corrupted, classes) != Counts(starts[j].corrupted, classes)
      {
        assert Picked()[i] != Picked()[j];
      }
    }
  }
}
