// How many parties to corrupt in each class of interchangeable parties: the vectors of
// per-class counts the search runs through, in its order.
module Enumeration {
  import opened Graphs
  import opened Counters

  function Sum(s: seq<nat>): nat {
    if s == [] then 0 else Sum(s[..|s|-1]) + s[|s|-1]
  }

  lemma SumSnoc(s: seq<nat>, x: nat)
    ensures Sum(s + [x]) == Sum(s) + x
  {
    assert (s + [x])[..|s|] == s;
  }

  lemma {:induction false} SumPrefix(s: seq<nat>, k: nat)
    requires k <= |s|
    ensures Sum(s[..k]) <= Sum(s)
  {
    if k < |s| {
      SumPrefix(s[..|s|-1], k);
      assert s[..|s|-1][..k] == s[..k];
    } else {
      assert s[..k] == s;
    }
  }

  /** The count vectors with the given prefix, for classes of the given sizes and a quota. */
  function Choices(sizes: seq<nat>, quota: nat, strict: bool, taken: seq<nat>): seq<seq<nat>>
    decreases |sizes|, 1, 0
  {
    if sizes != [] then ChoicesFrom(sizes, quota, strict, taken, 0)
    else if Sum(taken) > 0 && (strict ==> quota == 0) then [taken]
    else []
  }

  /** The same, with at least i parties of the first class. */
  function ChoicesFrom(sizes: seq<nat>, quota: nat, strict: bool, taken: seq<nat>, i: nat): seq<seq<nat>>
    requires sizes != []
    decreases |sizes|, 0, sizes[0] + 1 - i
  {
    if i > sizes[0] || i > quota then []
    else Choices(sizes[1..], quota - i, strict, taken + [i]) + ChoicesFrom(sizes, quota, strict, taken, i + 1)
  }

  lemma FirstChoices(sizes: seq<nat>, quota: nat, strict: bool, taken: seq<nat>, i: nat)
    requires sizes != [] && i <= sizes[0] && i <= quota
    ensures ChoicesFrom(sizes, quota, strict, taken, i)
         == Choices(sizes[1..], quota - i, strict, taken + [i]) + ChoicesFrom(sizes, quota, strict, taken, i + 1)
  {
  }

  lemma NoMoreChoices(sizes: seq<nat>, quota: nat, strict: bool, taken: seq<nat>, i: nat)
    requires sizes != [] && (i > sizes[0] || i > quota)
    ensures ChoicesFrom(sizes, quota, strict, taken, i) == []
  {
  }

  /** v extends the prefix, fits the classes, is not all zero and meets the quota. */
  ghost predicate Allowed(sizes: seq<nat>, quota: nat, strict: bool, taken: seq<nat>, v: seq<nat>) {
    && |v| == |taken| + |sizes| && v[..|taken|] == taken
    && (forall k :: 0 <= k < |sizes| ==> v[|taken| + k] <= sizes[k])
    && Sum(v) > 0 && Sum(v) - Sum(taken) <= quota && (strict ==> Sum(v) - Sum(taken) == quota)
  }

  lemma AllowedStep(sizes: seq<nat>, quota: nat, strict: bool, taken: seq<nat>, v: seq<nat>)
    requires sizes != [] && |v| == |taken| + |sizes|
    ensures var x := v[|taken|];
            Allowed(sizes, quota, strict, taken, v) <==>
              x <= sizes[0] && x <= quota && Allowed(sizes[1..], quota - x, strict, taken + [x], v)
  {
    var x := v[|taken|];
    if Allowed(sizes, quota, strict, taken, v) { AllowedOn(sizes, quota, strict, taken, v); }
    if x <= sizes[0] && x <= quota && Allowed(sizes[1..], quota - x, strict, taken + [x], v) {
      AllowedBack(sizes, quota, strict, taken, v);
    }
  }

  lemma AllowedOn(sizes: seq<nat>, quota: nat, strict: bool, taken: seq<nat>, v: seq<nat>)
    requires sizes != [] && |v| == |taken| + |sizes| && Allowed(sizes, quota, strict, taken, v)
    ensures var x := v[|taken|];
            x <= sizes[0] && x <= quota && Allowed(sizes[1..], quota - x, strict, taken + [x], v)
  {
    var t, x := |taken|, v[|taken|];
    SumSnoc(taken, x);
    SumPrefix(v, t + 1);
    assert v[..t + 1] == v[..t] + [x];
    forall k | 0 <= k < |sizes| - 1 ensures v[t + 1 + k] <= sizes[1..][k] {
      assert v[t + (k + 1)] <= sizes[k + 1];
    }
  }

  lemma AllowedBack(sizes: seq<nat>, quota: nat, strict: bool, taken: seq<nat>, v: seq<nat>)
    requires sizes != [] && |v| == |taken| + |sizes|
    requires var x := v[|taken|];
             x <= sizes[0] && x <= quota && Allowed(sizes[1..], quota - x, strict, taken + [x], v)
    ensures Allowed(sizes, quota, strict, taken, v)
  {
    var t, x := |taken|, v[|taken|];
    SumSnoc(taken, x);
    SumPrefix(v, t + 1);
    assert v[..t] == v[..t + 1][..t];
    forall k | 0 <= k < |sizes| ensures v[t + k] <= sizes[k] {
      if k > 0 { assert v[t + 1 + (k - 1)] <= sizes[1..][k - 1]; }
    }
  }

  /** Sound and complete: exactly the allowed vectors are listed. */
  lemma {:induction false} ChoicesExact(sizes: seq<nat>, quota: nat, strict: bool, taken: seq<nat>, v: seq<nat>)
    ensures v in Choices(sizes, quota, strict, taken) <==> Allowed(sizes, quota, strict, taken, v)
    decreases |sizes|, 1, 0
  {
    if sizes != [] {
      ChoicesFromExact(sizes, quota, strict, taken, 0, v);
    } else if |v| == |taken| {
      assert v[..|taken|] == v;
    }
  }

  lemma {:induction false} ChoicesFromExact(sizes: seq<nat>, quota: nat, strict: bool, taken: seq<nat>, i: nat,
                                            v: seq<nat>)
    requires sizes != []
    ensures v in ChoicesFrom(sizes, quota, strict, taken, i)
      <==> Allowed(sizes, quota, strict, taken, v) && v[|taken|] >= i
    decreases |sizes|, 0, sizes[0] + 1 - i
  {
    if |v| == |taken| + |sizes| { AllowedStep(sizes, quota, strict, taken, v); }
    if i <= sizes[0] && i <= quota {
      ChoicesExact(sizes[1..], quota - i, strict, taken + [i], v);
      ChoicesFromExact(sizes, quota, strict, taken, i + 1, v);
      if Allowed(sizes[1..], quota - i, strict, taken + [i], v) {
        assert v[|taken|] == v[..|taken| + 1][|taken|] == i;
      }
    }
  }

  /** No vector is listed twice. */
  lemma {:induction false} ChoicesDistinct(sizes: seq<nat>, quota: nat, strict: bool, taken: seq<nat>)
    ensures NoDup(Choices(sizes, quota, strict, taken))
    decreases |sizes|, 1, 0
  {
    if sizes != [] { ChoicesFromDistinct(sizes, quota, strict, taken, 0); }
  }

  lemma {:induction false} ChoicesFromDistinct(sizes: seq<nat>, quota: nat, strict: bool, taken: seq<nat>, i: nat)
    requires sizes != []
    ensures NoDup(ChoicesFrom(sizes, quota, strict, taken, i))
    decreases |sizes|, 0, sizes[0] + 1 - i
  {
    if i <= sizes[0] && i <= quota {
      ChoicesDistinct(sizes[1..], quota - i, strict, taken + [i]);
      ChoicesFromDistinct(sizes, quota, strict, taken, i + 1);
      var first := Choices(sizes[1..], quota - i, strict, taken + [i]);
      var rest := ChoicesFrom(sizes, quota, strict, taken, i + 1);
      forall v | v in first ensures v !in rest {
        ChoicesExact(sizes[1..], quota - i, strict, taken + [i], v);
        ChoicesFromExact(sizes, quota, strict, taken, i + 1, v);
        assert v[..|taken| + 1][|taken|] == i;
      }
      NoDupConcat(first, rest);
    }
  }

  lemma NoDupConcat<A>(s: seq<A>, t: seq<A>)
    requires NoDup(s) && NoDup(t) && forall x :: x in s ==> x !in t
    ensures NoDup(s + t)
  {
    var u := s + t;
    forall i, j | 0 <= i < j < |u| ensures u[i] != u[j] {
      if i < |s| <= j { assert s[i] in s && t[j - |s|] in t; }
    }
  }

  // ----- Per-class counts of a set of parties

  ghost predicate Disjoint(classes: seq<set<Party>>) {
    forall i, j :: 0 <= i < j < |classes| ==> classes[i] !! classes[j]
  }

  ghost function Union(classes: seq<set<Party>>): set<Party> {
    set k, p | 0 <= k < |classes| && p in classes[k] :: p
  }

  ghost function Counts(X: set<Party>, classes: seq<set<Party>>): (r: seq<nat>)
    ensures |r| == |classes|
  {
    seq(|classes|, k requires 0 <= k < |classes| => |X * classes[k]|)
  }

  ghost function Sizes(classes: seq<set<Party>>): (r: seq<nat>)
    ensures |r| == |classes|
  {
    seq(|classes|, k requires 0 <= k < |classes| => |classes[k]|)
  }

  lemma CountsFront(X: set<Party>, classes: seq<set<Party>>, k: nat)
    requires Disjoint(classes) && |classes| == k + 1
    ensures Counts(X, classes) == Counts(X - classes[k], classes[..k]) + [|X * classes[k]|]
  {
    forall i | 0 <= i < k ensures X * classes[i] == (X - classes[k]) * classes[..k][i] {
      assert classes[i] !! classes[k];
    }
  }

  lemma UnionFront(X: set<Party>, classes: seq<set<Party>>, k: nat)
    requires |classes| == k + 1 && X <= Union(classes)
    ensures X - classes[k] <= Union(classes[..k])
  {
    forall p | p in X - classes[k] ensures p in Union(classes[..k]) {
      var i :| 0 <= i < |classes| && p in classes[i];
      assert classes[..k][i] == classes[i];
    }
  }

  /** A set inside disjoint classes has as many parties as its counts add up to. */
  lemma {:induction false} SumCounts(X: set<Party>, classes: seq<set<Party>>)
    requires Disjoint(classes) && X <= Union(classes)
    ensures |X| == Sum(Counts(X, classes))
  {
    hide Counts;
    if classes == [] {
      assert X == {};
    } else {
      var k := |classes| - 1;
      CountsFront(X, classes, k);
      UnionFront(X, classes, k);
      SumCounts(X - classes[k], classes[..k]);
      assert X == (X - classes[k]) + X * classes[k];
      SumSnoc(Counts(X - classes[k], classes[..k]), |X * classes[k]|);
    }
  }

  /** A nonempty set within the quota has its counts listed, once. */
  lemma CountsListed(X: set<Party>, classes: seq<set<Party>>, quota: nat, strict: bool)
    requires Disjoint(classes) && X <= Union(classes)
    ensures Counts(X, classes) in Choices(Sizes(classes), quota, strict, [])
      <==> X != {} && |X| <= quota && (strict ==> |X| == quota)
  {
    var v := Counts(X, classes);
    SumCounts(X, classes);
    ChoicesExact(Sizes(classes), quota, strict, [], v);
    forall k | 0 <= k < |classes| ensures v[k] <= |classes[k]| {
      SubsetSize(X * classes[k], classes[k]);
    }
    assert v[..0] == [];
  }
}
