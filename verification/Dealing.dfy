// The sharings a dealer makes, for every number of parties and threshold: they meet the
// standing conditions of the theorems and match the pattern of the sharing rewriters.
module Dealing {
  import opened Arith
  import opened Polynomials
  import opened Graphs
  import opened Counters
  import opened Semantics
  import opened Patterns
  import opened SharingMeaning
  import opened Assembly

  function Share(T: nat, s: NodeId): Operation {
    Operation(EVAL, seq(T + 1, k => k), s, 0)
  }

  function Sending(s: NodeId, t: NodeId): Operation {
    Operation(TRANSIT, [s], t, 0)
  }

  /** Party i's share is computed at node T + 1 + i of the dealer, party 0. */
  function Shares(N: nat, T: nat): (es: seq<Operation>)
    ensures |es| == N && forall i :: 0 <= i < N ==> es[i] == Share(T, T + 1 + i)
  {
    seq(N, i requires 0 <= i < N => Share(T, T + 1 + i))
  }

  /** The shares of the other parties are sent to them. */
  function Sends(N: nat, T: nat): (es: seq<Operation>)
    requires N > 0
    ensures |es| == N - 1 && forall i :: 0 <= i < N - 1 ==> es[i] == Sending(T + 2 + i, T + N + 1 + i)
  {
    seq(N - 1, i requires 0 <= i < N - 1 => Sending(T + 2 + i, T + N + 1 + i))
  }

  function Nodes(N: nat, T: nat, secret: Genre): (ns: seq<Node>)
    ensures |ns| == T + 2 * N
  {
    seq(T + 2 * N, n requires 0 <= n < T + 2 * N =>
      Node(if n <= T + N then 0 else n - T - N, if n == 0 then secret else Others))
  }

  lemma EdgesInRange(N: nat, T: nat, secret: Genre)
    requires N > 0
    ensures AllInRange(Bare(Nodes(N, T, secret), N, T, {}), Shares(N, T) + Sends(N, T))
    ensures PlainEdges(Shares(N, T) + Sends(N, T))
  {
    var es, g := Shares(N, T) + Sends(N, T), Bare(Nodes(N, T, secret), N, T, {});
    forall i | 0 <= i < |es| ensures InRange(g, es[i]) && NoDup(es[i].inputs) {
      if i < N { assert es[i] == Share(T, T + 1 + i); } else { assert es[i] == Sending(T + 2 + i - N, T + 1 + i); }
    }
  }

  /** Party 0 deals node 0, with the coefficients 1 to T, into N shares and sends N - 1 of them. */
  ghost function DealtGraph(N: nat, T: nat, secret: Genre): (g: Graph)
    requires N > 0
    ensures Shape(g) && g.nodes == Nodes(N, T, secret) && g.partyCnt == N && g.T == T
    ensures T + 2 * N < 0x8000_0000 ==> Good(g)
  {
    EdgesInRange(N, T, secret);
    AssembledGood(Nodes(N, T, secret), N, T, {}, Shares(N, T) + Sends(N, T));
    Assembled(Nodes(N, T, secret), N, T, {}, Shares(N, T) + Sends(N, T))
  }

  /** The i-th party's point is i + 1. */
  ghost function Field(N: nat, T: nat, p: int): Env {
    Env(p, T, map[0 := map n: nat | n <= T + N :: if n <= T then Coef(n) else At(n - T)], _ => 0, (_, _, _) => 0)
  }

  ghost function Everyone(N: nat): (qs: set<Party>)
    ensures |qs| == N && forall q: Party :: q in qs <==> q < N
  {
    Upto(N)
  }

  predicate FieldFits(N: nat, T: nat, p: int) {
    T >= 1 && N >= 2 * T + 1 && p > N && T + 2 * N < 0x8000_0000
  }

  lemma FieldOk(N: nat, T: nat, p: int)
    requires Prime(p) && FieldFits(N, T, p)
    ensures WfEnv(Field(N, T, p))
  {
    hide Prime;
    var env := Field(N, T, p);
    assert forall a :: a in env.roles ==> a == 0;
    var m := env.roles[0];
    assert Injective(m);
    forall x | x in m ensures LegalRole(env, m[x]) {}
  }

  // ----- The lists of the graph

  lemma UsesOf(N: nat, T: nat, n: NodeId)
    requires N > 0
    ensures Using(Shares(N, T), n) == if n <= T then Shares(N, T) else []
    ensures Using(Sends(N, T), n) == if T + 1 < n <= T + N then [Sending(n, n + N - 1)] else []
  {
    hide Shares, Sends;
    var es, fs := Shares(N, T), Sends(N, T);
    if n <= T {
      forall i | 0 <= i < |es| ensures n in es[i].inputs { assert es[i].inputs[n] == n; }
      UsedByAll(es, n);
    } else {
      UsedByNone(es, n);
    }
    if T + 1 < n <= T + N {
      forall i | 0 <= i < |fs| ensures n in fs[i].inputs <==> i == n - T - 2 { assert fs[i].inputs == [T + 2 + i]; }
      UsedByOne(fs, n, n - T - 2);
    } else {
      UsedByNone(fs, n);
    }
  }

  lemma OutList(N: nat, T: nat, secret: Genre, n: NodeId)
    requires N > 0 && n < T + 2 * N
    ensures DealtGraph(N, T, secret).outs[n] ==
      if n <= T then Shares(N, T)
      else if T + 1 < n <= T + N then [Sending(n, n + N - 1)]
      else []
  {
    hide Shares, Sends, Assembled, Using, Nodes;
    EdgesInRange(N, T, secret);
    AssembledLists(Nodes(N, T, secret), N, T, {}, Shares(N, T) + Sends(N, T), n);
    UsingConcat(Shares(N, T), Sends(N, T), n);
    UsesOf(N, T, n);
  }

  lemma SharesInto(N: nat, T: nat, n: NodeId)
    ensures Into(Shares(N, T), n) == if T < n <= T + N then [Share(T, n)] else []
  {
    hide Shares;
    var es := Shares(N, T);
    if T < n <= T + N { IntoOne(es, n, n - T - 1); } else { IntoNone(es, n); }
  }

  lemma SendsInto(N: nat, T: nat, n: NodeId)
    requires N > 0
    ensures Into(Sends(N, T), n) == if T + N < n < T + 2 * N then [Sending(n - N + 1, n)] else []
  {
    hide Sends;
    var es := Sends(N, T);
    if T + N < n < T + 2 * N { IntoOne(es, n, n - T - N - 1); } else { IntoNone(es, n); }
  }

  lemma InList(N: nat, T: nat, secret: Genre, n: NodeId)
    requires N > 0 && n < T + 2 * N
    ensures DealtGraph(N, T, secret).ins[n] ==
      if n <= T then [] else if n <= T + N then [Share(T, n)] else [Sending(n - N + 1, n)]
  {
    hide Shares, Sends, Assembled, Into, Nodes;
    EdgesInRange(N, T, secret);
    AssembledLists(Nodes(N, T, secret), N, T, {}, Shares(N, T) + Sends(N, T), n);
    IntoConcat(Shares(N, T), Sends(N, T), n);
    SharesInto(N, T, n);
    SendsInto(N, T, n);
  }

  lemma EdgeOf(N: nat, T: nat, secret: Genre, e: Operation)
    requires N > 0 && T + 2 * N < 0x8000_0000
    ensures Good(DealtGraph(N, T, secret))
    ensures Has(DealtGraph(N, T, secret), e) <==>
      || (T < e.output <= T + N && e == Share(T, e.output))
      || (T + N < e.output < T + 2 * N && e == Sending(e.output - N + 1, e.output))
  {
    hide Shares, Sends, Nodes, Assembled, Good, Bare;
    var es, fs := Shares(N, T), Sends(N, T);
    EdgesInRange(N, T, secret);
    AssembledGood(Nodes(N, T, secret), N, T, {}, es + fs);
    if e in es + fs {
      var i :| 0 <= i < |es + fs| && (es + fs)[i] == e;
      assert if i < N then e == Share(T, T + 1 + i) else e == Sending(T + 2 + i - N, T + 1 + i);
    }
    if T < e.output <= T + N && e == Share(T, e.output) {
      assert es[e.output - T - 1] == e;
    }
    if T + N < e.output < T + 2 * N && e == Sending(e.output - N + 1, e.output) {
      assert fs[e.output - T - N - 1] == e;
    }
  }

  // ----- The standing conditions

  lemma EdgesFit(N: nat, T: nat, p: int, secret: Genre, e: Operation)
    requires FieldFits(N, T, p) && Has(DealtGraph(N, T, secret), e)
    ensures WellFormed(Field(N, T, p), DealtGraph(N, T, secret), e)
  {
    EdgeOf(N, T, secret, e);
  }

  /** The standing conditions hold of every dealt sharing. */
  lemma StandingConditions(N: nat, T: nat, p: int, secret: Genre)
    requires Prime(p) && FieldFits(N, T, p)
    ensures Ready(Field(N, T, p), Everyone(N), DealtGraph(N, T, secret))
  {
    hide WfEnv, WellFormed, Prime, Good, Field, Has;
    var env, g := Field(N, T, p), DealtGraph(N, T, secret);
    FieldOk(N, T, p);
    EdgeOf(N, T, secret, Share(T, 0));
    assert g.T == env.T by { FieldThreshold(N, T, p); }
    forall e | Has(g, e) ensures WellFormed(env, g, e) { EdgesFit(N, T, p, secret, e); }
  }

  lemma FieldThreshold(N: nat, T: nat, p: int)
    ensures Field(N, T, p).T == T && Field(N, T, p).p == p
  {
  }

  // ----- The pattern

  lemma InputsOfShares(N: nat, T: nat)
    requires N > 0
    ensures AllInputs(Shares(N, T)) == Upto(T + 1)
  {
    var es := Shares(N, T);
    forall m: NodeId | m <= T ensures m in AllInputs(es) {
      assert es[0].inputs[m] == m && m in es[0].inputs;
    }
  }

  lemma InputsHeld(N: nat, T: nat, secret: Genre, n: NodeId)
    requires N > 0 && n <= T
    ensures forall m: NodeId :: m in AllInputs(DealtGraph(N, T, secret).outs[n]) <==> m <= T
    ensures |AllInputs(DealtGraph(N, T, secret).outs[n])| == T + 1
  {
    hide AllInputs, DealtGraph, Shares;
    OutList(N, T, secret, n);
    InputsOfShares(N, T);
  }

  lemma ShareTarget(N: nat, T: nat, secret: Genre, s: NodeId)
    requires N > 0 && T < s <= T + N && Sync(DealtGraph(N, T, secret))
    ensures Target(DealtGraph(N, T, secret), s) == if s == T + 1 then s else s + N - 1
    ensures TargetParty(DealtGraph(N, T, secret), s) == s - T - 1
    ensures |DealtGraph(N, T, secret).ins[Target(DealtGraph(N, T, secret), s)]| == 1
  {
    hide Sync;
    OutList(N, T, secret, s);
    InList(N, T, secret, s);
    if s > T + 1 { InList(N, T, secret, s + N - 1); }
  }

  /** Every coefficient node matches whose companions are all random; the secret always does. */
  lemma MatchHolds(N: nat, T: nat, secret: Genre, n: NodeId, src: set<Party>)
    requires N > 0 && Sync(DealtGraph(N, T, secret)) && n <= T && (n == 0 || secret == Others)
    ensures SharingMatch(DealtGraph(N, T, secret), n, src)
  {
    hide Sync, AllInputs, Target, TargetParty;
    var g := DealtGraph(N, T, secret);
    OutList(N, T, secret, n);
    InputsHeld(N, T, secret, n);
    forall i | 0 <= i < N
      ensures TargetParty(g, g.outs[n][i].output) == i && |g.ins[Target(g, g.outs[n][i].output)]| == 1
    {
      ShareTarget(N, T, secret, T + 1 + i);
    }
    forall s | s in AllInputs(g.outs[n]) && s != n ensures s < |g.nodes| && IsRandom(g, s) {
      InList(N, T, secret, s);
    }
  }

  lemma DealtHolds(N: nat, T: nat, p: int, secret: Genre, n: NodeId)
    requires FieldFits(N, T, p) && Sync(DealtGraph(N, T, secret)) && n <= T
    ensures |DealtGraph(N, T, secret).outs[n]| > 0 && Dealt(Field(N, T, p), DealtGraph(N, T, secret), n)
  {
    hide Sync;
    var env, g := Field(N, T, p), DealtGraph(N, T, secret);
    OutList(N, T, secret, n);
    InputsHeld(N, T, secret, n);
    var S, X := AllInputs(g.outs[n]), Elems(Outputs(g.outs[n]));
    forall k: nat | k <= T ensures HoldsCoefficient(env, 0, S, k) {
      assert k in S && env.roles[0][k] == Coef(k);
    }
    forall x | x in X ensures T < x <= T + N {
      var i := IndexOfOutput(g.outs[n], x);
    }
  }

  /** So every dealt sharing is a case of the theorems about dealt sharings. */
  lemma DealtSettingHolds(N: nat, T: nat, p: int, secret: Genre, n: NodeId, src: set<Party>, keep: bool)
    requires Prime(p) && FieldFits(N, T, p) && n <= T && (n == 0 || secret == Others)
    requires src <= Everyone(N) && |src| == T + if keep then 0 else 1
    ensures DealtSetting(Field(N, T, p), Everyone(N), DealtGraph(N, T, secret), n, src, keep)
  {
    hide WfEnv, WellFormed, Prime, SyncAt, Field, SharingMatch, Dealt;
    StandingConditions(N, T, p, secret);
    MatchHolds(N, T, secret, n, src);
    DealtHolds(N, T, p, secret, n);
  }

  /** The inputs of every edge of a dealt sharing fix its polynomial, for any points. */
  lemma DealtEdgesFix(N: nat, T: nat, p: int, secret: Genre)
    requires Prime(p) && FieldFits(N, T, p)
    ensures EdgesFix(Field(N, T, p), DealtGraph(N, T, secret))
  {
    hide Prime;
    var env, g := Field(N, T, p), DealtGraph(N, T, secret);
    forall e | Has(g, e) ensures EdgeFixes(env, e) {
      EdgeOf(N, T, secret, e);
      if e.op.EVAL? {
        InputsFix(N, T, p);
        assert Inputs(e) == Elems(seq(T + 1, k => k));
      }
    }
  }

  lemma InputsFix(N: nat, T: nat, p: int)
    requires p > 0
    ensures Fixes(Field(N, T, p), 0, Elems(seq(T + 1, k => k)))
  {
    var env, xs, S := Field(N, T, p), seq(T + 1, k => k), Elems(seq(T + 1, k => k));
    forall k: nat | k <= T ensures HoldsCoefficient(env, 0, S, k) {
      assert xs[k] == k && k in S && env.roles[0][k] == Coef(k);
    }
    AllCoefficients(env, 0, S);
  }
}
