// Executions of circuits: whatever the secrets are, running a circuit solves the graph built for it
// and ends in the clear-text value, and a verdict of the prover speaks about pairs of executions.
module CircuitExecutions {
  import opened Arith
  import opened Polynomials
  import opened Lagrange
  import opened Graphs
  import opened Patterns
  import opened Semantics
  import opened Potentials
  import opened Tails
  import opened Runs
  import opened Provers
  import opened Expressions
  import opened Bgw
  import opened BgwCorrectness
  import opened BuiltGraphs
  import opened FrontendPrograms
  import opened CircuitPrograms
  import opened Executions
  import L = Lowering
  import B = BuiltProtocols

  // ----- Executions of a circuit

  /** A world in which the builder made graph g for the circuit, whoever is corrupted. */
  ghost predicate CircuitGraph(w: World, T: nat, c: Circuit, to: Party, s: L.State, g: Graph) {
    && WfWorld(w) && w.p > 0 && T >= 1 && |w.parties| >= 2 * T + 1 && InputsOk(w, T)
    && FromSecrets(w, c) && to in w.parties
    && var l := CircuitListing(w.parties, T, c, to); B.GraphFrom(ProgramOf(l), s, SettingOf(w, T, l), g)
  }

  lemma SentConsistent(w: World, T: nat, shares: seq<Expression>, x: int, to: Party)
    requires WfWorld(w) && IsSharing(w, T, shares, x)
    ensures Consistent(w, T, Reconstruct(SentTo(shares, to), to))
  {
    var es := SentTo(shares, to);
    var P :| LieOn(w, T, shares, P, x);
    hide Cong, Eval;
    forall i | 0 <= i < |es| ensures Cong(w.p, Value(w, es[i]), Eval(P, w.point(w.parties[i]))) {
      assert Value(w, es[i]) == Value(w, shares[i]);
    }
    hide Value;
    assert OnShares(w, T, es, P);
  }

  lemma CircuitExecutable(w: World, T: nat, c: Circuit, to: Party, s: L.State, g: Graph)
    requires CircuitGraph(w, T, c, to, s, g)
    ensures Executable(w, T, CircuitListing(w.parties, T, c, to), s, g)
  {
    hide WfWorld, YieldListing, TypedListing, Built, B.GraphFrom, InputsOk, SoundShares, IsSharing, ClearText;
    hide Consistent;
    CircuitTyped(w, T, c, to);
    BuiltSound(w, T, c, 0, 0);
    CircuitCorrect(w, T, c, 0, 0);
    var shares, l := Built(w.parties, T, c, 0, 0).value.shares, CircuitListing(w.parties, T, c, to);
    SentConsistent(w, T, shares, ClearText(w, c), to);
    YieldItems(w, T, shares, to);
    forall x | 0 <= x < |l| && l[x].OfExpr? ensures Consistent(w, T, l[x].e) {
      assert l[x] in l;
      if SoundItem(w, T, l[x]) { NeverReconstructs(w, T, l[x].e); }
    }
  }

  lemma NeverReconstructs(w: World, T: nat, e: Expression)
    requires WfWorld(w) && Sound(w, T, e)
    ensures Consistent(w, T, e)
  {
  }

  /** The expression of the yielded output has the clear-text value. */
  lemma OutputValue(w: World, T: nat, c: Circuit, to: Party) returns (e: Expression)
    requires WfWorld(w) && T >= 1 && |w.parties| >= 2 * T + 1 && InputsOk(w, T)
    ensures w.p > 0 && Value(w, e) % w.p == ClearText(w, c) % w.p
    ensures var l := CircuitListing(w.parties, T, c, to);
      OfExpr(e) in l && OutputOf(w.parties, T, c, to) == Position(l, OfExpr(e))
  {
    assert w.p > 0;
    hide WfWorld, Built, Value, ClearText, InputsOk, Cong, CircuitListing, OutputOf;
    CircuitYields(w, T, c, to);
    OutputListed(w.parties, T, c, to);
    e := Reconstruct(SentTo(Built(w.parties, T, c, 0, 0).value.shares, to), to);
    ValueMod(w.p, Value(w, e));
    ValueMod(w.p, ClearText(w, c));
    SameResidue(w.p, Value(w, e) % w.p, Value(w, e), ClearText(w, c), ClearText(w, c) % w.p);
    OutputAt(w.parties, T, c, to);
  }

  lemma OutputAt(parties: seq<Party>, T: nat, c: Circuit, to: Party)
    requires Built(parties, T, c, 0, 0).Ok?
    ensures var shares := Built(parties, T, c, 0, 0).value.shares;
      OutputOf(parties, T, c, to)
        == Position(CircuitListing(parties, T, c, to), OfExpr(Reconstruct(SentTo(shares, to), to)))
  {
    hide Position, CircuitListing, Built;
  }

  /**
   * The execution of a circuit in any world satisfies the graph built for it, and at the node of
   * the yielded output it has the clear-text value.
   */
  lemma CircuitExecutes(w: World, T: nat, c: Circuit, to: Party, s: L.State, g: Graph,
                        other: (Operator, nat, seq<int>) -> int)
    requires CircuitGraph(w, T, c, to, s, g)
    requires OutputOf(w.parties, T, c, to) in s.memo && s.memo[OutputOf(w.parties, T, c, to)].NodeAt?
    ensures var l, n := CircuitListing(w.parties, T, c, to), s.memo[OutputOf(w.parties, T, c, to)].n;
      && Shape(g) && Sat(EnvIn(w, T, l, s, other), g, Execution(w, l, s))
      && n < |s.nodes| && Execution(w, l, s)[n] == ClearText(w, c) % w.p
  {
    var l := CircuitListing(w.parties, T, c, to);
    assert WfWorld(w);
    var e := OutputValue(w, T, c, to);
    CircuitExecutable(w, T, c, to, s, g);
    hide WfWorld, Executable, CircuitListing, Value, ClearText, EnvIn, Sat, Execution, CircuitGraph;
    ExecutionsSatisfy(w, T, l, s, g, other);
    ValueAt(w, T, l, s, g, e);
  }

  // ----- Two executions

  /** The worlds differ in secrets, given sharings and random coefficients only. */
  ghost predicate SameField(w: World, u: World) {
    w.p == u.p && w.parties == u.parties && w.point == u.point
  }

  lemma SameConstants(w: World, u: World, c: Constant)
    requires SameField(w, u) && WfWorld(w) && WfWorld(u)
    ensures ConstantValue(w, c) == ConstantValue(u, c)
  {
    hide WfWorld, Lambda;
    assert PointsOf(w) == PointsOf(u);
  }

  lemma SameRoles(w: World, u: World, T: nat, l: Listing, s: L.State, a: nat, n: NodeId)
    requires SameField(w, u) && w.p > 0
    ensures B.RoleOf(ProgramOf(l), s, SettingOf(w, T, l), a, n) == B.RoleOf(ProgramOf(l), s, SettingOf(u, T, l), a, n)
  {
    hide B.Drawn, B.SecretOf;
    if n < |s.owner| && a < |l| && s.owner[n] < |l| && l[s.owner[n]].OfExpr? {
      assert PointOf(w, l[a], l[s.owner[n]].e) == PointOf(u, l[a], l[s.owner[n]].e);
    }
  }

  /** Environments that say the same. */
  ghost predicate AgreeingEnvs(env: Env, eun: Env) {
    && env.p == eun.p && env.T == eun.T && env.roles == eun.roles && env.other == eun.other
    && forall x :: env.scalar(x) == eun.scalar(x)
  }

  lemma SameEnv(w: World, u: World, T: nat, l: Listing, s: L.State, other: (Operator, nat, seq<int>) -> int)
    requires SameField(w, u) && WfWorld(w) && WfWorld(u) && w.p > 0
    ensures AgreeingEnvs(EnvIn(w, T, l, s, other), EnvIn(u, T, l, s, other))
  {
    hide WfWorld, B.RoleOf, B.Members, ConstantValue;
    var env, eun, p := EnvIn(w, T, l, s, other), EnvIn(u, T, l, s, other), ProgramOf(l);
    forall c ensures ConstantValue(w, c) == ConstantValue(u, c) { SameConstants(w, u, c); }
    forall a | a in env.roles ensures a in eun.roles && env.roles[a] == eun.roles[a] {
      forall n ensures B.RoleOf(p, s, SettingOf(w, T, l), a, n) == B.RoleOf(p, s, SettingOf(u, T, l), a, n) {
        SameRoles(w, u, T, l, s, a, n);
      }
    }
  }

  lemma SameSat(env: Env, eun: Env, g: Graph, v: Valuation)
    requires AgreeingEnvs(env, eun) && env.p > 0 && Shape(g) && Sat(eun, g, v)
    ensures Sat(env, g, v)
  {
    forall e | Has(g, e) ensures Semantics.Spans(e, v) && Holds(env, e, v) {
      assert Holds(eun, e, v);
      if PolyEdge(e) { SamePolynomials(env, eun, e.arg, Inputs(e) + {e.output}, v); }
    }
  }

  lemma SamePolynomials(env: Env, eun: Env, a: nat, ns: set<NodeId>, v: Valuation)
    requires AgreeingEnvs(env, eun) && env.p > 0 && OnPolynomial(eun, a, ns, v)
    ensures OnPolynomial(env, a, ns, v)
  {
    var P :| |P| == env.T + 1 && Fits(eun, a, ns, v, P);
    assert Fits(env, a, ns, v, P);
  }

  /**
   * What a verdict says about a circuit. If an attempt on the graph built for it succeeds, then
   * two executions that agree on the random nodes and on the corrupted inputs and outputs of the
   * final graph agree on everything the corrupted parties hold, whatever the secrets are.
   */
  lemma CircuitVerdict(w: World, u: World, T: nat, c: Circuit, to: Party, s: L.State, corrupted: set<Party>,
                       other: (Operator, nat, seq<int>) -> int, f: Graph, n: NodeId)
    requires SameField(w, u) && InputsOk(u, T) && WfWorld(u)
    requires |GraphOf(s).ins| == |GraphOf(s).outs| == |GraphOf(s).nodes| && |s.nodes| < 0x8000_0000
    requires var g := StartOf(GraphOf(s), |w.parties|, T, corrupted);
      && CircuitGraph(w, T, c, to, s, g)
      && Attempted(PartySet(w.parties), g, f) && Shape(f) && Clear(f) && Acyclic(f)
    requires var l := CircuitListing(w.parties, T, c, to);
      && Generic(EnvIn(w, T, l, s, other))
      && AgreeOnSources(f, Execution(w, l, s), Execution(u, l, s)) && n < |f.nodes| && AtCorrupted(f, n)
    ensures var l := CircuitListing(w.parties, T, c, to);
      n < |s.nodes| && Execution(w, l, s)[n] == Execution(u, l, s)[n]
  {
    var l, g := CircuitListing(w.parties, T, c, to), StartOf(GraphOf(s), |w.parties|, T, corrupted);
    OtherWorld(w, u, T, c, to, s, g);
    CircuitExecutable(w, T, c, to, s, g);
    CircuitExecutable(u, T, c, to, s, g);
    WorldSetting(w, T, c, to, s, g);
    assert WfWorld(w) && w.p > 0;
    hide WfWorld, Executable, CircuitListing, CircuitGraph, EnvIn, Execution, Sat, Attempted, Clear, Acyclic, Generic;
    hide AgreeOnSources, GraphOf, StartOf, B.WellTyped, L.Wf, Complete, AgreeingEnvs, InputsOk, ScalarsOf, SettingOf;
    ExecutionsSatisfy(w, T, l, s, g, other);
    ExecutionsSatisfy(u, T, l, s, g, other);
    SameEnv(w, u, T, l, s, other);
    EnvParts(w, T, l, s, other);
    SameSat(EnvIn(w, T, l, s, other), EnvIn(u, T, l, s, other), g, Execution(u, l, s));
    EnvMade(w, T, l, s, other);
    B.BuiltVerdict(ProgramOf(l), s, SettingOf(w, T, l), ScalarsOf(w, l), other, corrupted, f,
                   Execution(w, l, s), Execution(u, l, s), n);
  }

  lemma EnvMade(w: World, T: nat, l: Listing, s: L.State, other: (Operator, nat, seq<int>) -> int)
    requires WfWorld(w) && w.p > 0
    ensures EnvIn(w, T, l, s, other) == B.EnvOf(ProgramOf(l), s, SettingOf(w, T, l), ScalarsOf(w, l), other)
  {
  }

  lemma WorldSetting(w: World, T: nat, c: Circuit, to: Party, s: L.State, g: Graph)
    requires CircuitGraph(w, T, c, to, s, g)
    ensures var l := CircuitListing(w.parties, T, c, to);
      && SettingOf(w, T, l).T == T && SettingOf(w, T, l).parties == PartySet(w.parties)
      && |PartySet(w.parties)| == |w.parties|
      && B.WellTyped(ProgramOf(l), SettingOf(w, T, l)) && L.Wf(ProgramOf(l), s) && Complete(s)
  {
    hide WfWorld, CircuitListing, L.Wf, B.WellTyped, PartySet;
    WorldParties(w);
  }

  /** The graph is built from the circuit alone. */
  lemma OtherWorld(w: World, u: World, T: nat, c: Circuit, to: Party, s: L.State, g: Graph)
    requires SameField(w, u) && InputsOk(u, T) && WfWorld(u) && CircuitGraph(w, T, c, to, s, g)
    ensures CircuitGraph(u, T, c, to, s, g)
  {
    hide WfWorld, CircuitListing, L.Wf, InputsOk, PartySet, Built;
    SameSources(w, u, c);
    CircuitTyped(u, T, c, to);
  }

  lemma {:induction false} SameSources(w: World, u: World, c: Circuit)
    requires SameField(w, u) && FromSecrets(w, c)
    ensures FromSecrets(u, c)
  {
    match c
    case Shared(_) =>
    case FromInput(_) =>
    case Scale(a, _) => SameSources(w, u, a);
    case Sum(a, b) => SameSources(w, u, a); SameSources(w, u, b);
    case Product(a, b) => SameSources(w, u, a); SameSources(w, u, b);
  }
}
