// BGW circuits from end to end: the program of every circuit is one the prover accepts, and the
// graph built for it computes the clear-text value of the circuit.
module CircuitPrograms {
  import opened Arith
  import opened Graphs
  import opened Counters
  import opened Patterns
  import opened Expressions
  import opened Bgw
  import opened BgwCorrectness
  import opened FrontendPrograms
  import opened FrontendMeaning
  import opened BuiltGraphs
  import opened Provers
  import B = BuiltProtocols
  import L = Lowering
  import M = LoweredMeaning

  // ----- What the expressions of a circuit look like

  /** What is shared by a polynomial: a secret, or a product of shares. */
  predicate ConstTerm(e: Expression) {
    e.Secret? || (e.Binary? && e.op.MUL?)
  }

  predicate Arithmetic(op: Operator) {
    op.ADD? || op.SUB? || op.MUL?
  }

  /** Held by parties of the world throughout, without any reconstruction. */
  ghost predicate Sound(w: World, T: nat, e: Expression) {
    && Holder(e) in w.parties
    && match e
       case Secret(_, _) => true
       case Given(_, _) => true
       case Evaluation(Poly(_, a, d), q) => q in w.parties && d == T && ConstTerm(a) && Sound(w, T, a)
       case Transit(a, _) => Sound(w, T, a)
       case Binary(op, a, b) => Arithmetic(op) && Sound(w, T, a) && Sound(w, T, b)
       case Scaled(a, _) => Sound(w, T, a)
       case Reconstruct(_, _) => false
  }

  /** The share of party q: given, dealt, or computed from shares. */
  predicate IsShare(e: Expression, q: Party) {
    && Holder(e) == q
    && match e
       case Given(_, _) => true
       case Evaluation(_, at) => at == q
       case Transit(a, _) => a.Evaluation? && a.at == q
       case Binary(op, _, _) => op.ADD?
       case Scaled(_, _) => true
       case _ => false
  }

  ghost predicate SoundShares(w: World, T: nat, shares: seq<Expression>) {
    |shares| == |w.parties| && forall j :: 0 <= j < |shares| ==>
      Sound(w, T, shares[j]) && IsShare(shares[j], w.parties[j])
  }

  /** Secrets are shared by parties of the world. */
  ghost predicate FromSecrets(w: World, c: Circuit) {
    match c
    case Shared(s) => s.Secret? && s.party in w.parties
    case FromInput(_) => true
    case Sum(a, b) => FromSecrets(w, a) && FromSecrets(w, b)
    case Scale(a, _) => FromSecrets(w, a)
    case Product(a, b) => FromSecrets(w, a) && FromSecrets(w, b)
  }

  lemma DealtSound(w: World, T: nat, id: nat, s: Expression)
    requires Sound(w, T, s) && ConstTerm(s)
    ensures SoundShares(w, T, SharingOf(w.parties, T, id, s))
  {
    var r := SharingOf(w.parties, T, id, s);
    forall j | 0 <= j < |r| ensures Sound(w, T, r[j]) && IsShare(r[j], w.parties[j]) {
      assert w.parties[j] in w.parties;
      assert Sound(w, T, Evaluation(Poly(id, s, T), w.parties[j]));
    }
  }

  lemma ScaledSound(w: World, T: nat, l: seq<Expression>, c: Constant)
    requires SoundShares(w, T, l)
    ensures SoundShares(w, T, ScaledShares(l, c))
  {
  }

  lemma SumSound(w: World, T: nat, l: seq<Expression>, r: seq<Expression>)
    requires SoundShares(w, T, l) && SoundShares(w, T, r)
    ensures SumUpTo(l, r, |l|).Ok? && SoundShares(w, T, SumUpTo(l, r, |l|).value)
  {
    hide SumUpTo;
    SumSucceeds(l, r, |l|);
  }

  lemma {:induction false} ProductSound(w: World, T: nat, id: nat, m: nat, l: seq<Expression>, r: seq<Expression>,
                                        n: nat)
    requires SoundShares(w, T, l) && SoundShares(w, T, r) && n <= |l|
    ensures ProductUpTo(w.parties, T, id, m, l, r, n).Ok?
    ensures n > 0 ==> SoundShares(w, T, ProductUpTo(w.parties, T, id, m, l, r, n).value)
  {
    hide SharingOf, ScaledShares, SumUpTo;
    if n > 0 {
      ProductSound(w, T, id, m, l, r, n - 1);
      assert Holder(l[n - 1]) == Holder(r[n - 1]) == w.parties[n - 1];
      var local := Binary(MUL, l[n - 1], r[n - 1]);
      assert Sound(w, T, local);
      hide SoundShares, Sound;
      DealtSound(w, T, id + n - 1, local);
      ScaledSound(w, T, SharingOf(w.parties, T, id + n - 1, local), Coefficient(m, n - 1));
      if n > 1 {
        SumSound(w, T, ProductUpTo(w.parties, T, id, m, l, r, n - 1).value,
                 ScaledShares(SharingOf(w.parties, T, id + n - 1, local), Coefficient(m, n - 1)));
      }
    }
  }

  lemma GivenSound(w: World, T: nat, k: nat)
    ensures SoundShares(w, T, GivenShares(w.parties, k))
  {
  }

  /** Every circuit builds into sound shares. */
  lemma {:induction false} BuiltSound(w: World, T: nat, c: Circuit, polys: nat, muls: nat)
    requires |w.parties| > 0 && FromSecrets(w, c)
    ensures Built(w.parties, T, c, polys, muls).Ok?
    ensures SoundShares(w, T, Built(w.parties, T, c, polys, muls).value.shares)
    decreases c
  {
    hide SoundShares, Sound, SumUpTo, ProductUpTo, SharingOf, ScaledShares, GivenShares;
    match c
    case Shared(s) =>
      assert Sound(w, T, s) by { SecretSound(w, T, s); }
      DealtSound(w, T, polys, s);
    case FromInput(k) =>
      GivenSound(w, T, k);
    case Scale(a, k) =>
      BuiltSound(w, T, a, polys, muls);
      ScaledSound(w, T, Built(w.parties, T, a, polys, muls).value.shares, Public(k));
    case Sum(a, b) =>
      BuiltSound(w, T, a, polys, muls);
      var l := Built(w.parties, T, a, polys, muls).value;
      BuiltSound(w, T, b, l.polys, l.muls);
      SumSound(w, T, l.shares, Built(w.parties, T, b, l.polys, l.muls).value.shares);
    case Product(a, b) =>
      BuiltSound(w, T, a, polys, muls);
      var l := Built(w.parties, T, a, polys, muls).value;
      BuiltSound(w, T, b, l.polys, l.muls);
      var r := Built(w.parties, T, b, l.polys, l.muls).value;
      ProductSound(w, T, r.polys, r.muls, l.shares, r.shares, |w.parties|);
  }

  lemma SecretSound(w: World, T: nat, s: Expression)
    requires s.Secret? && s.party in w.parties
    ensures Sound(w, T, s)
  {
  }

  // ----- Listing what is yielded

  ghost predicate SoundItem(w: World, T: nat, it: Item) {
    match it
    case OfConst(_) => true
    case OfPoly(f) => f.degree == T && ConstTerm(f.constTerm) && Sound(w, T, f.constTerm)
    case OfExpr(e) => Sound(w, T, e)
  }

  ghost predicate SoundListing(w: World, T: nat, l: Listing) {
    forall it :: it in l ==> SoundItem(w, T, it)
  }

  lemma {:induction false} ListSound(w: World, T: nat, l: Listing, e: Expression)
    requires SoundListing(w, T, l) && Sound(w, T, e)
    ensures SoundListing(w, T, List(l, e))
    decreases e
  {
    match e
    case Secret(_, _) =>
    case Given(_, _) =>
    case Evaluation(f, _) => ListSound(w, T, l, f.constTerm);
    case Transit(a, _) => ListSound(w, T, l, a);
    case Binary(_, a, b) =>
      ListSound(w, T, l, a);
      ListSound(w, T, List(l, a), b);
    case Scaled(a, _) => ListSound(w, T, l, a);
  }

  lemma {:induction false} ListAllSound(w: World, T: nat, l: Listing, es: seq<Expression>, k: nat)
    requires SoundListing(w, T, l) && k <= |es| && forall i :: 0 <= i < |es| ==> Sound(w, T, es[i])
    ensures SoundListing(w, T, ListAll(l, es, k))
  {
    hide SoundListing, Sound;
    if k > 0 {
      ListAllSound(w, T, l, es, k - 1);
      ListSound(w, T, ListAll(l, es, k - 1), es[k - 1]);
    }
  }

  /** What a party yields from shares, and everything it is made of. */
  function YieldListing(shares: seq<Expression>, to: Party): Listing {
    List([], Reconstruct(SentTo(shares, to), to))
  }

  lemma YieldItems(w: World, T: nat, shares: seq<Expression>, to: Party)
    requires SoundShares(w, T, shares) && to in w.parties
    ensures Ordered(YieldListing(shares, to))
    ensures forall it :: it in YieldListing(shares, to) ==>
      SoundItem(w, T, it) || it == OfExpr(Reconstruct(SentTo(shares, to), to))
  {
    var es := SentTo(shares, to);
    assert Ordered([]);
    ListOrdered([], Reconstruct(es, to));
    ListAllSound(w, T, [], es, |es|);
    forall it | it in YieldListing(shares, to) ensures SoundItem(w, T, it) || it == OfExpr(Reconstruct(es, to)) {
      assert it in ListAll([], es, |es|) || it == OfExpr(Reconstruct(es, to));
    }
  }

  lemma SoundTyped(w: World, T: nat, it: Item)
    requires SoundItem(w, T, it)
    ensures ItemTyped(w, T, it) && (it.OfExpr? ==> !it.e.Reconstruct?)
  {
    if it.OfPoly? { SoundHolder(w, T, it.f.constTerm); }
  }

  lemma SoundHolder(w: World, T: nat, e: Expression)
    requires Sound(w, T, e)
    ensures Holder(e) in w.parties
  {
  }

  /** The shares sent to the receiver are different expressions, all held there. */
  lemma SentTyped(w: World, T: nat, shares: seq<Expression>, to: Party)
    requires SoundShares(w, T, shares) && to in w.parties && NoDup(w.parties)
    ensures ItemTyped(w, T, OfExpr(Reconstruct(SentTo(shares, to), to)))
  {
    var es := SentTo(shares, to);
    forall i, j | 0 <= i < j < |es| ensures es[i] != es[j] {
      SentApart(shares[i], shares[j], w.parties[i], w.parties[j], to);
    }
  }

  lemma SentApart(e: Expression, d: Expression, p: Party, q: Party, to: Party)
    requires IsShare(e, p) && IsShare(d, q) && p != q
    ensures Transfer(e, to) != Transfer(d, to)
  {
  }

  /** A share sent to the receiver is no constant term, and an evaluation only if it is the receiver's own. */
  lemma SentShare(e: Expression, q: Party, to: Party)
    requires IsShare(e, q)
    ensures !ConstTerm(Transfer(e, to)) && (Transfer(e, to).Evaluation? ==> q == to)
  {
  }

  lemma OnlyOwnEvaluation(w: World, T: nat, shares: seq<Expression>, to: Party, e: Expression, d: Expression)
    requires SoundShares(w, T, shares) && NoDup(w.parties) && e in SentTo(shares, to) && d in SentTo(shares, to)
    ensures !ConstTerm(e) && !ConstTerm(d) && (e.Evaluation? && d.Evaluation? ==> e == d)
  {
    var es := SentTo(shares, to);
    var i :| 0 <= i < |es| && es[i] == e;
    var j :| 0 <= j < |es| && es[j] == d;
    SentShare(shares[i], w.parties[i], to);
    SentShare(shares[j], w.parties[j], to);
  }

  lemma YieldApart(w: World, T: nat, shares: seq<Expression>, to: Party)
    requires SoundShares(w, T, shares) && to in w.parties && NoDup(w.parties)
    ensures ItemsApart(YieldListing(shares, to))
  {
    var l, top := YieldListing(shares, to), Reconstruct(SentTo(shares, to), to);
    YieldItems(w, T, shares, to);
    forall i, j, e, d | i in l && j in l && i != j && i.OfExpr? && e != d && ItemTalks(i, e) && ItemTalks(i, d)
        && ItemTalks(j, e)
      ensures !ItemTalks(j, d)
    {
      CommonParts(w, T, shares, to, i, j, e, d);
    }
  }

  lemma CommonParts(w: World, T: nat, shares: seq<Expression>, to: Party, i: Item, j: Item, e: Expression,
                    d: Expression)
    requires SoundShares(w, T, shares) && NoDup(w.parties) && i != j && i.OfExpr? && e != d
    requires SoundItem(w, T, i) || i == OfExpr(Reconstruct(SentTo(shares, to), to))
    requires SoundItem(w, T, j) || j == OfExpr(Reconstruct(SentTo(shares, to), to))
    requires ItemTalks(i, e) && ItemTalks(i, d) && ItemTalks(j, e)
    ensures !ItemTalks(j, d)
  {
    hide SoundShares, Sound, SentTo;
    var es := SentTo(shares, to);
    assert i == OfExpr(Reconstruct(es, to)) by { if SoundItem(w, T, i) { SoundTyped(w, T, i); } }
    assert j.OfPoly? by { if SoundItem(w, T, j) { SoundTyped(w, T, j); } }
    if e in es && d in es { OnlyOwnEvaluation(w, T, shares, to, e, d); }
  }

  lemma YieldTyped(w: World, T: nat, shares: seq<Expression>, to: Party)
    requires WfWorld(w) && T >= 1 && |w.parties| >= 2 * T + 1 && SoundShares(w, T, shares) && to in w.parties
    ensures TypedListing(w, T, YieldListing(shares, to))
  {
    hide SoundShares, SoundItem, ItemsApart, Ordered, ItemTyped, YieldListing, WfWorld;
    var l := YieldListing(shares, to);
    WorldParties(w);
    YieldItems(w, T, shares, to);
    YieldApart(w, T, shares, to);
    SentTyped(w, T, shares, to);
    forall x | 0 <= x < |l| ensures ItemTyped(w, T, l[x]) {
      assert l[x] in l;
      if SoundItem(w, T, l[x]) { SoundTyped(w, T, l[x]); }
    }
  }

  /** Everything the yielded output of a circuit is made of. */
  function CircuitListing(parties: seq<Party>, T: nat, c: Circuit, to: Party): Listing {
    match Built(parties, T, c, 0, 0)
    case Err(_) => []
    case Ok(b) => YieldListing(b.shares, to)
  }

  /**
   * The program of every circuit over secrets and given sharings, yielded to any party, is well
   * typed over the field and the points of the world, so the builder's graph for it is one the
   * prover accepts.
   */
  lemma CircuitTyped(w: World, T: nat, c: Circuit, to: Party)
    requires WfWorld(w) && T >= 1 && |w.parties| >= 2 * T + 1 && FromSecrets(w, c) && to in w.parties
    ensures Built(w.parties, T, c, 0, 0).Ok? && w.p > 0
    ensures var l := CircuitListing(w.parties, T, c, to);
      TypedListing(w, T, l) && B.WellTyped(ProgramOf(l), SettingOf(w, T, l))
  {
    hide WfWorld, SoundShares, YieldListing, TypedListing, B.WellTyped, Built;
    BuiltSound(w, T, c, 0, 0);
    YieldTyped(w, T, Built(w.parties, T, c, 0, 0).value.shares, to);
    ListingTyped(w, T, CircuitListing(w.parties, T, c, to));
  }

  // ----- The graph computes the circuit

  /** The position of the yielded output in the program of a circuit. */
  function OutputOf(parties: seq<Party>, T: nat, c: Circuit, to: Party): nat {
    match Built(parties, T, c, 0, 0)
    case Err(_) => 0
    case Ok(b) => Position(CircuitListing(parties, T, c, to), OfExpr(Reconstruct(SentTo(b.shares, to), to)))
  }

  lemma OutputListed(parties: seq<Party>, T: nat, c: Circuit, to: Party)
    requires Built(parties, T, c, 0, 0).Ok?
    ensures var l, x := CircuitListing(parties, T, c, to), OutputOf(parties, T, c, to);
      x < |l| && l[x] == OfExpr(Reconstruct(SentTo(Built(parties, T, c, 0, 0).value.shares, to), to))
  {
  }

  /** A finished build of the circuit's program, the node of its output among the nodes. */
  ghost predicate BuiltFor(parties: seq<Party>, T: nat, c: Circuit, to: Party, s: L.State, g: Graph) {
    && M.Finished(ProgramOf(CircuitListing(parties, T, c, to)), s, g)
    && OutputOf(parties, T, c, to) in s.memo && s.memo[OutputOf(parties, T, c, to)].NodeAt?
  }

  /**
   * From circuit to graph: whatever the secrets, the given sharings and the random coefficients
   * are, some assignment to the nodes without in-edges makes the graph that is built for a
   * circuit compute its clear-text value at the node of the yielded output.
   */
  lemma CircuitComputes(w: World, T: nat, c: Circuit, to: Party, s: L.State, g: Graph) returns (a: seq<int>)
    requires WfWorld(w) && T >= 1 && |w.parties| >= 2 * T + 1 && InputsOk(w, T) && FromSecrets(w, c) && to in w.parties
    requires BuiltFor(w.parties, T, c, to, s, g)
    ensures var l, x := CircuitListing(w.parties, T, c, to), OutputOf(w.parties, T, c, to);
      && |a| == |g.nodes| && M.Assigns(ProgramOf(l), s, ReadingIn(w, l), a)
      && Topological(g) && s.memo[x].n < |a|
      && Cong(w.p, M.ComputedAt(s, g, ReadingIn(w, l), a, x), ClearText(w, c))
  {
    var l, x := CircuitListing(w.parties, T, c, to), OutputOf(w.parties, T, c, to);
    CircuitTyped(w, T, c, to);
    OutputListed(w.parties, T, c, to);
    ProgramOk(w, T, l);
    hide WfWorld, CircuitListing, Built, Value, B.WellTyped, TypedListing, M.Finished, M.MeaningOf, M.Assigns;
    hide ClearText;
    hide InputsOk, Cong;
    hide OutputOf, Topological, L.WfProgram, Ordered, Importable;
    a := M.MeaningsEvaluated(ProgramOf(l), s, g, ReadingIn(w, l));
    MeaningIs(w, l, x);
    CircuitYields(w, T, c, to);
  }

  lemma ProgramOk(w: World, T: nat, l: Listing)
    requires TypedListing(w, T, l)
    ensures Ordered(l) && (forall x :: 0 <= x < |l| ==> Importable(l[x])) && L.WfProgram(ProgramOf(l))
  {
    hide WfWorld, Ordered, ItemsApart, L.WfProgram;
    forall x | 0 <= x < |l| ensures Importable(l[x]) { assert ItemTyped(w, T, l[x]); }
    ListingWf(l);
  }

  /** A finished build of a circuit's program meets the standing conditions of the prover. */
  lemma CircuitStartable(w: World, T: nat, c: Circuit, to: Party, s: L.State, scalar: nat -> int,
                         other: (Operator, nat, seq<int>) -> int)
    requires WfWorld(w) && T >= 1 && |w.parties| >= 2 * T + 1 && FromSecrets(w, c) && to in w.parties
    requires var p := ProgramOf(CircuitListing(w.parties, T, c, to));
      L.Wf(p, s) && Complete(s) && |s.nodes| < 0x8000_0000
    ensures w.p > 0 && var l := CircuitListing(w.parties, T, c, to);
      Startable(B.EnvOf(ProgramOf(l), s, SettingOf(w, T, l), scalar, other), PartySet(w.parties), GraphOf(s), T)
  {
    hide WfWorld, CircuitListing, B.WellTyped, TypedListing, L.Wf, Complete, Startable;
    CircuitTyped(w, T, c, to);
    var l := CircuitListing(w.parties, T, c, to);
    B.BuiltStartable(ProgramOf(l), s, SettingOf(w, T, l), scalar, other);
  }

  // ----- A circuit

  /** Three parties at the points 1, 2 and 3 of the field of 5 elements. */
  function SmallWorld(): World {
    World(5, [0, 1, 2], (q: Party) => q + 1, _ => 0, _ => [0, 0], (_, _) => 0, (_, _, _) => 0)
  }

  lemma SmallWorldOk()
    ensures WfWorld(SmallWorld())
  {
    assert Prime(5);
    assert PointsOf(SmallWorld()) == [1, 2, 3];
  }

  /** Party 0 shares a secret, every share is handed to its party, and all are sent to party 1, who reconstructs. */
  lemma HandoverTyped()
    ensures var l := CircuitListing([0, 1, 2], 1, Shared(Secret(0, 0)), 1);
      |l| > 0 && SmallWorld().p > 0 && B.WellTyped(ProgramOf(l), SettingOf(SmallWorld(), 1, l))
  {
    hide WfWorld, CircuitListing, B.WellTyped, TypedListing;
    SmallWorldOk();
    assert SmallWorld().p == 5 && SmallWorld().parties == [0, 1, 2];
    CircuitTyped(SmallWorld(), 1, Shared(Secret(0, 0)), 1);
    OutputListed([0, 1, 2], 1, Shared(Secret(0, 0)), 1);
  }
}
