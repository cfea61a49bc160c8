// The source parties of a proof attempt: the corrupted ones, filled up with honest ones in order.
module SourceParties {
  import opened Graphs
  import opened Counters
  import opened Patterns
  import opened Rewriting

  /** The honest parties in the order of the list. */
  function HonestOf(parties: seq<Party>, corrupted: set<Party>): (r: seq<Party>)
    ensures |r| <= |parties| && forall q :: q in r <==> q in parties && q !in corrupted
  {
    if parties == [] then []
    else
      var k := |parties| - 1;
      assert parties == parties[..k] + [parties[k]];
      HonestOf(parties[..k], corrupted) + if parties[k] in corrupted then [] else [parties[k]]
  }

  lemma {:induction false} HonestPrefix(parties: seq<Party>, corrupted: set<Party>, i: nat)
    requires i <= |parties|
    ensures HonestOf(parties[..i], corrupted) <= HonestOf(parties, corrupted)
  {
    if i == |parties| {
      assert parties[..i] == parties;
    } else {
      var k := |parties| - 1;
      HonestPrefix(parties[..k], corrupted, i);
      assert parties[..k][..i] == parties[..i];
    }
  }

  lemma {:induction false} HonestDistinct(parties: seq<Party>, corrupted: set<Party>)
    requires NoDup(parties)
    ensures NoDup(HonestOf(parties, corrupted))
  {
    if parties != [] {
      var k := |parties| - 1;
      var front := HonestOf(parties[..k], corrupted);
      HonestDistinct(parties[..k], corrupted);
      forall i | 0 <= i < |front| ensures front[i] != parties[k] {
        assert front[i] in parties[..k];
      }
    }
  }

  lemma HonestSize(parties: seq<Party>, corrupted: set<Party>)
    requires NoDup(parties) && corrupted <= PartySet(parties)
    ensures |HonestOf(parties, corrupted)| == |parties| - |corrupted|
  {
    var honest := HonestOf(parties, corrupted);
    HonestDistinct(parties, corrupted);
    PartySetSize(parties);
    PartySetSize(honest);
    assert PartySet(parties) == corrupted + PartySet(honest);
  }

  /** The corrupted parties and the first k honest ones. */
  ghost function WithFirst(parties: seq<Party>, corrupted: set<Party>, k: nat): set<Party>
    requires k <= |HonestOf(parties, corrupted)|
  {
    corrupted + PartySet(HonestOf(parties, corrupted)[..k])
  }

  lemma WithFirstSize(parties: seq<Party>, corrupted: set<Party>, k: nat)
    requires NoDup(parties) && corrupted <= PartySet(parties) && k <= |HonestOf(parties, corrupted)|
    ensures |WithFirst(parties, corrupted, k)| == |corrupted| + k
    ensures corrupted <= WithFirst(parties, corrupted, k) <= PartySet(parties)
  {
    var some := HonestOf(parties, corrupted)[..k];
    HonestDistinct(parties, corrupted);
    PartySetSize(some);
    assert corrupted !! PartySet(some);
  }

  /** The next party of the list is the next honest one, or corrupted. */
  lemma NextParty(parties: seq<Party>, corrupted: set<Party>, i: nat)
    requires i < |parties|
    ensures var honest, k := HonestOf(parties, corrupted), |HonestOf(parties[..i], corrupted)|;
      if parties[i] in corrupted then
        |HonestOf(parties[..i + 1], corrupted)| == k
      else
        && |HonestOf(parties[..i + 1], corrupted)| == k + 1 && k < |honest| && honest[k] == parties[i]
        && WithFirst(parties, corrupted, k + 1) == WithFirst(parties, corrupted, k) + {parties[i]}
  {
    HonestPrefix(parties, corrupted, i + 1);
    HonestSnoc(parties, corrupted, i);
    hide HonestOf, WithFirst;
    if parties[i] !in corrupted {
      var honest, front := HonestOf(parties, corrupted), HonestOf(parties[..i], corrupted);
      assert (front + [parties[i]])[|front|] == parties[i];
      WithNext(parties, corrupted, |front|);
    }
  }

  lemma WithNext(parties: seq<Party>, corrupted: set<Party>, k: nat)
    requires k < |HonestOf(parties, corrupted)|
    ensures WithFirst(parties, corrupted, k + 1) == WithFirst(parties, corrupted, k) + {HonestOf(parties, corrupted)[k]}
  {
    hide HonestOf;
    var honest := HonestOf(parties, corrupted);
    assert honest[..k + 1] == honest[..k] + [honest[k]];
  }

  lemma HonestSnoc(parties: seq<Party>, corrupted: set<Party>, i: nat)
    requires i < |parties|
    ensures HonestOf(parties[..i + 1], corrupted) ==
      HonestOf(parties[..i], corrupted) + if parties[i] in corrupted then [] else [parties[i]]
  {
    assert parties[..i + 1][..i] == parties[..i];
  }

  /** The source parties: the corrupted ones, with the first honest ones up to T and to T + 1 in all. */
  ghost function SourcesOf(parties: seq<Party>, corrupted: set<Party>, T: nat): Sources {
    var honest := |HonestOf(parties, corrupted)|;
    if |corrupted| <= T < |corrupted| + honest then
      Sources(WithFirst(parties, corrupted, T - |corrupted|), WithFirst(parties, corrupted, T + 1 - |corrupted|))
    else Sources(corrupted, corrupted)
  }

  method TakeCorrupted(g: Graph, parties: seq<Party>) returns (some: set<Party>)
    requires g.corrupted <= PartySet(parties)
    ensures some == g.corrupted
  {
    some := {};
    for i := 0 to |parties|
      invariant some == PartySet(parties[..i]) * g.corrupted
    {
      assert parties[..i + 1] == parties[..i] + [parties[i]];
      if parties[i] in g.corrupted { some := some + {parties[i]}; }
    }
    assert parties[..|parties|] == parties;
  }

  /** Add honest parties in order until there are T source parties. */
  method FillToT(g: Graph, parties: seq<Party>, corrupted: set<Party>) returns (some: set<Party>)
    requires NoDup(parties) && |parties| > g.T && corrupted == g.corrupted
    requires corrupted <= PartySet(parties) && |corrupted| <= g.T
    ensures |HonestOf(parties, corrupted)| == |parties| - |corrupted|
    ensures some == WithFirst(parties, corrupted, g.T - |corrupted|)
  {
    hide HonestOf, WithFirst;
    some := corrupted;
    var i := 0;
    ghost var k := 0;
    HonestSize(parties, corrupted);
    NoneTaken(parties, corrupted);
    while i < |parties| && |some| != g.T
      invariant 0 <= i <= |parties| && k == |HonestOf(parties[..i], corrupted)|
      invariant k <= |HonestOf(parties, corrupted)| && some == WithFirst(parties, corrupted, k)
      invariant k <= g.T - |corrupted|
    {
      WithFirstSize(parties, corrupted, k);
      NextParty(parties, corrupted, i);
      if parties[i] !in g.corrupted {
        some := some + {parties[i]};
        k := k + 1;
      }
      i := i + 1;
    }
    WithFirstSize(parties, corrupted, k);
    assert parties[..|parties|] == parties;
  }

  lemma NoneTaken(parties: seq<Party>, corrupted: set<Party>)
    ensures |HonestOf(parties[..0], corrupted)| == 0 && WithFirst(parties, corrupted, 0) == corrupted
  {
  }

  /** Add the next honest party. */
  method AddOneMore(g: Graph, parties: seq<Party>, some: set<Party>) returns (more: set<Party>)
    requires NoDup(parties) && |g.corrupted| <= g.T < |g.corrupted| + |HonestOf(parties, g.corrupted)|
    requires some == WithFirst(parties, g.corrupted, g.T - |g.corrupted|)
    ensures more == WithFirst(parties, g.corrupted, g.T + 1 - |g.corrupted|)
  {
    hide HonestOf, WithFirst;
    ghost var k := g.T - |g.corrupted|;
    NoneTaken(parties, g.corrupted);
    for i := 0 to |parties|
      invariant |HonestOf(parties[..i], g.corrupted)| <= k
    {
      NextParty(parties, g.corrupted, i);
      if parties[i] !in g.corrupted { Inside(parties, g.corrupted, k, i); }
      if parties[i] !in g.corrupted && parties[i] !in some {
        return some + {parties[i]};
      }
    }
    AllHonest(parties, g.corrupted);
    more := some;
    assert false;
  }

  lemma AllHonest(parties: seq<Party>, corrupted: set<Party>)
    ensures HonestOf(parties[..|parties|], corrupted) == HonestOf(parties, corrupted)
  {
    assert parties[..|parties|] == parties;
  }

  /** An honest party is among the first k exactly if fewer than k honest ones come before it. */
  lemma Inside(parties: seq<Party>, corrupted: set<Party>, k: nat, i: nat)
    requires NoDup(parties) && k <= |HonestOf(parties, corrupted)| && i < |parties| && parties[i] !in corrupted
    ensures parties[i] in WithFirst(parties, corrupted, k) <==> |HonestOf(parties[..i], corrupted)| < k
  {
    var honest, j := HonestOf(parties, corrupted), |HonestOf(parties[..i], corrupted)|;
    hide HonestOf;
    NextParty(parties, corrupted, i);
    HonestDistinct(parties, corrupted);
    if j < k {
      assert honest[..k][j] == parties[i];
    } else {
      assert forall m :: 0 <= m < k ==> honest[m] != honest[j];
    }
  }

  /**
   * The source parties: the corrupted ones, filled up with the first honest ones to T for the
   * sharing rewriter and the first reconstruction rewriter, and to T + 1 for the two others.
   */
  method ChooseSources(g: Graph, parties: seq<Party>) returns (src: Sources)
    requires NoDup(parties) && |parties| > g.T
    requires g.corrupted <= PartySet(parties) && |g.corrupted| <= g.T
    ensures src == SourcesOf(parties, g.corrupted, g.T)
    ensures GoodSources(PartySet(parties), g.T, src) && g.corrupted <= src.some <= src.more
  {
    var corrupted := TakeCorrupted(g, parties);
    var some := FillToT(g, parties, corrupted);
    var more := AddOneMore(g, parties, some);
    src := Sources(some, more);
    WithFirstSize(parties, corrupted, g.T - |corrupted|);
    WithFirstSize(parties, corrupted, g.T + 1 - |corrupted|);
  }
}
