// The 64-bit hash of a graph, and what does not depend on the order of its lists.
module Hashing {
  import opened Graphs
  import opened Counters
  import opened Potentials
  import opened Words

  /** Exclusive or, bit by bit. */
  function Xor(a: nat, b: nat): (r: nat)
    decreases a + b
  {
    if a == 0 && b == 0 then 0
    else 2 * Xor(a / 2, b / 2) + (a + b) % 2
  }

  function Code(op: Operator): nat {
    match op
    case NONE => 0
    case INPUT => 100
    case TRANSIT => 101
    case ADD => 200
    case SUB => 201
    case MUL => 202
    case DIV => 203
    case SCALARMUL => 204
    case EVAL => 300
    case RECONSTRUCT => 301
    case POLILIZE => 302
    case TYPECAST => 400
  }

  const MAGIC: int := 2333333
  const SPREAD: int := 1000000009

  function SumGuids(ns: seq<NodeId>): nat {
    if ns == [] then 0 else SumGuids(ns[..|ns|-1]) + ns[|ns|-1]
  }

  /** A polynomial in MAGIC of the operator, the sum of the inputs and the output. */
  function EdgeHash(e: Operation): nat {
    Wrap(Code(e.op) * (MAGIC * MAGIC) + SumGuids(e.inputs) * MAGIC + e.output)
  }

  /** Exclusive or of the hashes of a node's in-edges. */
  function NodeHash(es: seq<Operation>): nat {
    if es == [] then 0 else Xor(NodeHash(es[..|es|-1]), EdgeHash(es[|es|-1]))
  }

  function Mix(res: nat, cur: nat): nat {
    Wrap(res * SPREAD + cur)
  }

  function GraphHash(ins: seq<seq<Operation>>): nat {
    if ins == [] then 0 else Mix(GraphHash(ins[..|ins|-1]), NodeHash(ins[|ins|-1]))
  }

  /** Every intermediate result is a 64-bit word; the outcome is the closed form, wrapped once. */
  method HashEdge(e: Operation) returns (res: nat)
    ensures res == EdgeHash(e)
  {
    var sum: nat := 0;
    for i := 0 to |e.inputs|
      invariant sum == Wrap(SumGuids(e.inputs[..i]))
    {
      assert e.inputs[..i + 1][..i] == e.inputs[..i];
      WrapNested(SumGuids(e.inputs[..i]), 1, e.inputs[i]);
      sum := Wrap(sum + e.inputs[i]);
    }
    assert e.inputs[..|e.inputs|] == e.inputs;
    res := Wrap(Code(e.op) * MAGIC);
    res := Wrap(res + sum);
    res := Wrap(res * MAGIC);
    res := Wrap(res + e.output);
    HashSteps(Code(e.op), SumGuids(e.inputs), e.output);
  }

  lemma HashSteps(c: nat, s: nat, o: nat)
    ensures Wrap(Wrap(Wrap(Wrap(c * MAGIC) + Wrap(s)) * MAGIC) + o) == Wrap(c * (MAGIC * MAGIC) + s * MAGIC + o)
  {
    hide Wrap;
    var x := c * MAGIC + s;
    WrapNested(c * MAGIC, 1, Wrap(s));
    WrapNested(s, 1, c * MAGIC);
    WrapNested(x, MAGIC, 0);
    WrapNested(x * MAGIC, 1, o);
  }

  method HashGraph(ins: seq<seq<Operation>>) returns (res: nat)
    ensures res == GraphHash(ins)
  {
    hide EdgeHash, Xor;
    res := 0;
    for n := 0 to |ins|
      invariant res == GraphHash(ins[..n])
    {
      var cur: nat := 0;
      for i := 0 to |ins[n]|
        invariant cur == NodeHash(ins[n][..i])
      {
        var h := HashEdge(ins[n][i]);
        assert ins[n][..i + 1][..i] == ins[n][..i];
        cur := Xor(cur, h);
      }
      assert ins[n][..|ins[n]|] == ins[n];
      assert ins[..n + 1][..n] == ins[..n];
      WrapNested(res * SPREAD, 1, cur);
      res := Wrap(Wrap(res * SPREAD) + cur);
    }
    assert ins[..|ins|] == ins;
  }

  // ----- What the edge hash tells apart

  lemma {:induction false} SumOut(ns: seq<NodeId>, i: nat)
    requires i < |ns|
    ensures SumGuids(ns) == SumGuids(ns[..i] + ns[i + 1..]) + ns[i]
    decreases |ns|
  {
    var k := |ns| - 1;
    if i == k {
      assert ns[..i] + ns[i + 1..] == ns[..k];
    } else {
      SumOut(ns[..k], i);
      var rest := ns[..i] + ns[i + 1..];
      assert rest[..|rest| - 1] == ns[..k][..i] + ns[..k][i + 1..];
      assert rest[|rest| - 1] == ns[k];
    }
  }

  lemma {:induction false} SumOrder(ns: seq<NodeId>, ms: seq<NodeId>)
    requires multiset(ns) == multiset(ms)
    ensures SumGuids(ns) == SumGuids(ms)
    decreases |ns|
  {
    if ns == [] {
      assert |multiset(ms)| == 0;
    } else {
      var i := SameWithout(ns, ms);
      SumOrder(ns[..|ns| - 1], ms[..i] + ms[i + 1..]);
      SumOut(ms, i);
    }
  }

  /** MAGIC is odd, so it has an inverse modulo 2^64 and multiplying by it loses nothing. */
  lemma MagicCancels(x: int, y: int)
    ensures Wrap(x * MAGIC) == Wrap(y * MAGIC) <==> Wrap(x) == Wrap(y)
  {
    hide Wrap;
    Unmagic(x);
    Unmagic(y);
    WrapNested(x * MAGIC, INVERSE, 0);
    WrapNested(y * MAGIC, INVERSE, 0);
    WrapNested(x, MAGIC, 0);
    WrapNested(y, MAGIC, 0);
  }

  lemma WrapShift(x: int, y: int, c: int)
    ensures Wrap(x + c) == Wrap(y + c) <==> Wrap(x) == Wrap(y)
  {
    hide Wrap;
    WrapNested(x + c, 1, -c);
    WrapNested(y + c, 1, -c);
    WrapNested(x, 1, c);
    WrapNested(y, 1, c);
  }

  const INVERSE: int := 0x1439C1B5CC0360BD

  lemma Unmagic(x: int)
    ensures Wrap(x * MAGIC * INVERSE) == Wrap(x)
  {
    assert MAGIC * INVERSE == 1 + WORD * 184348;
    assert x * MAGIC * INVERSE == x + WORD * (x * 184348);
    WrapMultiple(x, x * 184348);
  }

  /**
   * Two edges with the same operator into the same node hash alike if and only if the sums of
   * their inputs agree modulo 2^64. The order of the inputs is lost, and so are the arguments.
   */
  lemma EdgeHashExact(e: Operation, f: Operation)
    requires e.op == f.op && e.output == f.output
    ensures EdgeHash(e) == EdgeHash(f) <==> Wrap(SumGuids(e.inputs)) == Wrap(SumGuids(f.inputs))
    ensures multiset(e.inputs) == multiset(f.inputs) ==> EdgeHash(e) == EdgeHash(f)
  {
    var s, t, c := SumGuids(e.inputs), SumGuids(f.inputs), Code(e.op) * (MAGIC * MAGIC) + e.output;
    MagicCancels(s, t);
    WrapShift(s * MAGIC, t * MAGIC, c);
    if multiset(e.inputs) == multiset(f.inputs) { SumOrder(e.inputs, f.inputs); }
  }

  /** The same edges up to inputs with equal sums. */
  ghost predicate SameSums(g: Graph, h: Graph)
    requires Shape(g) && Shape(h)
  {
    && g.nodes == h.nodes && g.live == h.live && g.corrupted == h.corrupted
    && forall n :: 0 <= n < |g.nodes| ==>
      |g.ins[n]| == |h.ins[n]| && forall i :: 0 <= i < |g.ins[n]| ==> SameSum(g.ins[n][i], h.ins[n][i])
  }

  ghost predicate SameSum(e: Operation, f: Operation) {
    e.op == f.op && e.output == f.output && SumGuids(e.inputs) == SumGuids(f.inputs)
  }

  lemma {:induction false} SameNodeHash(es: seq<Operation>, fs: seq<Operation>)
    requires |es| == |fs| && forall i :: 0 <= i < |es| ==> SameSum(es[i], fs[i])
    ensures NodeHash(es) == NodeHash(fs)
  {
    hide EdgeHash, Xor, SumGuids;
    if es != [] {
      var k := |es| - 1;
      SameNodeHash(es[..k], fs[..k]);
      assert SameSum(es[k], fs[k]);
      EdgeHashExact(es[k], fs[k]);
    }
  }

  lemma {:induction false} SameGraphHash(ins: seq<seq<Operation>>, jns: seq<seq<Operation>>)
    requires |ins| == |jns|
    requires forall n :: 0 <= n < |ins| ==>
      |ins[n]| == |jns[n]| && forall i :: 0 <= i < |ins[n]| ==> SameSum(ins[n][i], jns[n][i])
    ensures GraphHash(ins) == GraphHash(jns)
  {
    hide NodeHash, Mix, SameSum;
    if ins != [] {
      var k := |ins| - 1;
      SameGraphHash(ins[..k], jns[..k]);
      SameNodeHash(ins[k], jns[k]);
    }
  }

  /**
   * The record of considered graphs cannot tell such graphs apart: with exact counters they
   * have the same key, for example when one computes a - b where the other computes b - a.
   */
  lemma KeysCollide(g: Graph, h: Graph)
    requires Good(g) && Good(h) && SameSums(g, h)
    ensures KeyOf(g) == KeyOf(h)
  {
    hide SyncAt, SameSum, GraphHash;
    SameGraphHash(g.ins, h.ins);
    forall n: NodeId | n < |g.nodes| ensures IsRandom(g, n) == IsRandom(h, n) && IsBubble(g, n) == IsBubble(h, n) {}
    assert RandomNodes(g) == RandomNodes(h) && Bubbles(g) == Bubbles(h);
  }

  // ----- Every edge of every node counts

  lemma {:induction false} XorBelow(a: nat, b: nat, k: nat)
    requires a < Power(k) && b < Power(k)
    ensures Xor(a, b) < Power(k)
    decreases k
  {
    if k > 0 && (a != 0 || b != 0) { XorBelow(a / 2, b / 2, k - 1); }
  }

  /** Two to the power k. */
  function Power(k: nat): nat {
    if k == 0 then 1 else 2 * Power(k - 1)
  }

  lemma {:induction false} PowerAdds(i: nat, j: nat)
    ensures Power(i + j) == Power(i) * Power(j)
    decreases j
  {
    if j > 0 {
      PowerAdds(i, j - 1);
      assert Power(i) * (2 * Power(j - 1)) == 2 * (Power(i) * Power(j - 1));
    }
  }

  lemma WordIsPower()
    ensures Power(64) == WORD
  {
    assert Power(4) == 16;
    PowerAdds(4, 4);
    PowerAdds(8, 8);
    PowerAdds(16, 16);
    PowerAdds(32, 32);
  }

  lemma {:induction false} NodeHashBelow(es: seq<Operation>)
    ensures NodeHash(es) < WORD
  {
    hide EdgeHash, Xor;
    if es != [] {
      NodeHashBelow(es[..|es|-1]);
      WordIsPower();
      assert EdgeHash(es[|es|-1]) < WORD by { EdgeHashBelow(es[|es|-1]); }
      XorBelow(NodeHash(es[..|es|-1]), EdgeHash(es[|es|-1]), 64);
    }
  }

  lemma EdgeHashBelow(e: Operation)
    ensures EdgeHash(e) < WORD
  {
  }

  lemma {:induction false} XorZero(a: nat)
    ensures Xor(a, 0) == a
  {
    if a != 0 { XorZero(a / 2); }
  }

  /** A word taken twice drops out, which is what makes exclusive or lose nothing. */
  lemma {:induction false} XorSelf(a: nat, b: nat)
    ensures Xor(Xor(a, b), b) == a
    decreases a + b
  {
    if a + b > 0 {
      XorSelf(a / 2, b / 2);
      XorTwice(a, b, b);
    }
  }

  lemma XorCancels(a: nat, b: nat, c: nat)
    ensures Xor(a, b) == Xor(a, c) <==> b == c
  {
    hide Xor;
    XorCommutes(a, b);
    XorCommutes(a, c);
    XorSelf(b, a);
    XorSelf(c, a);
  }

  lemma {:induction false} XorCommutes(a: nat, b: nat)
    ensures Xor(a, b) == Xor(b, a)
    decreases a + b
  {
    if a + b > 0 { XorCommutes(a / 2, b / 2); }
  }

  /** The hash of a node changes with the hash of any of its in-edges. */
  lemma NodeHashExact(es: seq<Operation>, i: nat, f: Operation)
    requires i < |es|
    ensures NodeHash(es[i := f]) == NodeHash(es) <==> EdgeHash(f) == EdgeHash(es[i])
  {
    hide EdgeHash, Xor, NodeHash;
    var rest := es[..i] + es[i + 1..];
    XorOut(es, i);
    XorOut(es[i := f], i);
    assert es[i := f][..i] + es[i := f][i + 1..] == rest;
    XorCancels(NodeHash(rest), EdgeHash(es[i]), EdgeHash(f));
  }

  const SPREADINVERSE: int := 0x34485D96D411E439

  /** SPREAD is odd, so multiplying by it loses nothing modulo 2^64 either. */
  lemma SpreadCancels(x: int, y: int)
    ensures Wrap(x * SPREAD) == Wrap(y * SPREAD) <==> Wrap(x) == Wrap(y)
  {
    hide Wrap;
    Unspread(x);
    Unspread(y);
    WrapNested(x * SPREAD, SPREADINVERSE, 0);
    WrapNested(y * SPREAD, SPREADINVERSE, 0);
    WrapNested(x, SPREAD, 0);
    WrapNested(y, SPREAD, 0);
  }

  lemma Unspread(x: int)
    ensures Wrap(x * SPREAD * SPREADINVERSE) == Wrap(x)
  {
    assert SPREAD * SPREADINVERSE == 1 + WORD * 204229213;
    assert x * SPREAD * SPREADINVERSE == x + WORD * (x * 204229213);
    WrapMultiple(x, x * 204229213);
  }

  lemma GraphHashBelow(ins: seq<seq<Operation>>)
    ensures GraphHash(ins) < WORD
  {
    hide NodeHash;
  }

  lemma GraphHashSnoc(ins: seq<seq<Operation>>, last: seq<Operation>)
    ensures GraphHash(ins + [last]) == Mix(GraphHash(ins), NodeHash(last))
  {
    assert (ins + [last])[..|ins|] == ins;
  }

  /** The nodes before the last one count, and so does the last one. */
  lemma LastNodeExact(ins: seq<seq<Operation>>, jns: seq<seq<Operation>>, es: seq<Operation>, fs: seq<Operation>)
    ensures GraphHash(ins + [es]) == GraphHash(jns + [es]) <==> GraphHash(ins) == GraphHash(jns)
    ensures GraphHash(ins + [es]) == GraphHash(ins + [fs]) <==> NodeHash(es) == NodeHash(fs)
  {
    hide Wrap, NodeHash, GraphHash;
    GraphHashSnoc(ins, es);
    GraphHashSnoc(jns, es);
    GraphHashSnoc(ins, fs);
    var g, h := GraphHash(ins), GraphHash(jns);
    WrapShift(g * SPREAD, h * SPREAD, NodeHash(es));
    SpreadCancels(g, h);
    WrapShift(NodeHash(es), NodeHash(fs), g * SPREAD);
    GraphHashBelow(ins);
    GraphHashBelow(jns);
    NodeHashBelow(es);
    NodeHashBelow(fs);
    WordsStand(g, h);
    WordsStand(NodeHash(es), NodeHash(fs));
  }

  lemma WordsStand(x: int, y: int)
    requires 0 <= x < WORD && 0 <= y < WORD
    ensures Wrap(x) == x && Wrap(y) == y
  {
  }

  /** The hash of a graph changes with the hash of any node, wherever it stands. */
  lemma {:induction false} GraphHashExact(ins: seq<seq<Operation>>, n: nat, es: seq<Operation>)
    requires n < |ins|
    ensures GraphHash(ins[n := es]) == GraphHash(ins) <==> NodeHash(es) == NodeHash(ins[n])
  {
    hide NodeHash, GraphHash;
    var k := |ins| - 1;
    assert ins == ins[..k] + [ins[k]];
    if n == k {
      assert ins[n := es] == ins[..k] + [es];
      LastNodeExact(ins[..k], ins[..k], es, ins[k]);
    } else {
      GraphHashExact(ins[..k], n, es);
      assert ins[n := es] == ins[..k][n := es] + [ins[k]];
      LastNodeExact(ins[..k][n := es], ins[..k], ins[k], ins[k]);
    }
  }

  /** Replacing one edge leaves the hash of the graph alone only if the two edges hash alike. */
  lemma OneEdgeExact(ins: seq<seq<Operation>>, n: nat, i: nat, f: Operation)
    requires n < |ins| && i < |ins[n]|
    ensures GraphHash(ins[n := ins[n][i := f]]) == GraphHash(ins) <==> EdgeHash(f) == EdgeHash(ins[n][i])
  {
    hide NodeHash, GraphHash, EdgeHash;
    GraphHashExact(ins, n, ins[n][i := f]);
    NodeHashExact(ins[n], i, f);
  }

  /**
   * Edges that differ in one respect only: another output (modulo 2^64), another operator or
   * another sum of inputs each give another hash.
   */
  lemma EdgeHashTellsApart(e: Operation, f: Operation)
    ensures e.op == f.op && SumGuids(e.inputs) == SumGuids(f.inputs) ==>
      (EdgeHash(e) == EdgeHash(f) <==> Wrap(e.output) == Wrap(f.output))
    ensures e.output == f.output && SumGuids(e.inputs) == SumGuids(f.inputs) ==>
      (EdgeHash(e) == EdgeHash(f) <==> e.op == f.op)
  {
    var s, t := SumGuids(e.inputs), SumGuids(f.inputs);
    if e.op == f.op && s == t {
      WrapShift(e.output, f.output, Code(e.op) * (MAGIC * MAGIC) + s * MAGIC);
    }
    if e.output == f.output && s == t {
      WrapShift(Code(e.op) * (MAGIC * MAGIC), Code(f.op) * (MAGIC * MAGIC), s * MAGIC + e.output);
      CodesFit(e.op, f.op);
    }
  }

  lemma CodesFit(a: Operator, b: Operator)
    ensures Wrap(Code(a) * (MAGIC * MAGIC)) == Wrap(Code(b) * (MAGIC * MAGIC)) <==> a == b
  {
    assert 0 <= Code(a) <= 400 && 0 <= Code(b) <= 400;
    assert Code(a) == Code(b) <==> a == b;
  }

  /**
   * While guids are small enough not to wrap, the hash of an edge determines its operator, the
   * sum of its inputs and its output.
   */
  lemma SmallEdgesExact(e: Operation, f: Operation)
    requires SumGuids(e.inputs) < MAGIC && SumGuids(f.inputs) < MAGIC && e.output < MAGIC && f.output < MAGIC
    ensures EdgeHash(e) == EdgeHash(f) <==>
      e.op == f.op && SumGuids(e.inputs) == SumGuids(f.inputs) && e.output == f.output
  {
    hide SumGuids;
    var s, t := SumGuids(e.inputs), SumGuids(f.inputs);
    assert 0 <= Code(e.op) <= 400 && 0 <= Code(f.op) <= 400;
    assert Code(e.op) == Code(f.op) <==> e.op == f.op;
    Digits(Code(e.op), s, e.output);
    Digits(Code(f.op), t, f.output);
  }

  lemma Digits(c: nat, s: nat, o: nat)
    requires c <= 400 && s < MAGIC && o < MAGIC
    ensures var h := Wrap(c * (MAGIC * MAGIC) + s * MAGIC + o);
      h == (c * MAGIC + s) * MAGIC + o && h / MAGIC == c * MAGIC + s && h % MAGIC == o && h / MAGIC / MAGIC == c
  {
    var x := c * MAGIC + s;
    assert c * (MAGIC * MAGIC) + s * MAGIC + o == x * MAGIC + o < WORD;
    Remainder(MAGIC, x * MAGIC + o, x, o);
    Remainder(MAGIC, x, c, s);
  }

  // ----- List order does not matter

  /** The same in-edges at every node, in any order. */
  ghost predicate SameUpToOrder(g: Graph, h: Graph)
    requires Shape(g) && Shape(h)
  {
    && g.nodes == h.nodes && g.live == h.live && g.corrupted == h.corrupted
    && forall n :: 0 <= n < |g.nodes| ==> multiset(g.ins[n]) == multiset(h.ins[n])
  }

  lemma XorStep(a: nat, b: nat)
    ensures Xor(a, b) / 2 == Xor(a / 2, b / 2) && Xor(a, b) % 2 == (a + b) % 2
    ensures Xor(a, b) == 2 * Xor(a / 2, b / 2) + (a + b) % 2
  {
  }

  lemma XorTwice(a: nat, b: nat, c: nat)
    ensures Xor(Xor(a, b), c) == 2 * Xor(Xor(a / 2, b / 2), c / 2) + (a + b + c) % 2
  {
    hide Xor;
    var x := Xor(a, b);
    XorStep(a, b);
    Parity(x, a + b, c);
    calc {
      Xor(x, c);
    == { XorStep(x, c); }
      2 * Xor(x / 2, c / 2) + (x + c) % 2;
    }
  }

  lemma Parity(x: int, y: int, c: int)
    requires x % 2 == y % 2
    ensures (x + c) % 2 == (y + c) % 2
  {
  }

  lemma {:induction false} XorRules(a: nat, b: nat, c: nat)
    ensures Xor(Xor(a, b), c) == Xor(Xor(a, c), b)
    decreases a + b + c
  {
    if a + b + c > 0 {
      hide Xor;
      XorRules(a / 2, b / 2, c / 2);
      XorTwice(a, b, c);
      XorTwice(a, c, b);
    }
  }

  lemma {:induction false} XorOut(es: seq<Operation>, i: nat)
    requires i < |es|
    ensures NodeHash(es) == Xor(NodeHash(es[..i] + es[i + 1..]), EdgeHash(es[i]))
    decreases |es|
  {
    hide EdgeHash, Xor;
    var k := |es| - 1;
    if i == k {
      assert es[..i] + es[i + 1..] == es[..k];
    } else {
      XorOut(es[..k], i);
      var rest := es[..i] + es[i + 1..];
      assert rest[..|rest| - 1] == es[..k][..i] + es[..k][i + 1..];
      assert rest[|rest| - 1] == es[k];
      XorRules(NodeHash(es[..k][..i] + es[..k][i + 1..]), EdgeHash(es[i]), EdgeHash(es[k]));
    }
  }

  lemma SameWithout<A>(es: seq<A>, fs: seq<A>) returns (i: nat)
    requires multiset(es) == multiset(fs) && es != []
    ensures i < |fs| && fs[i] == es[|es|-1]
    ensures multiset(fs[..i] + fs[i + 1..]) == multiset(es[..|es|-1])
  {
    var k := |es| - 1;
    assert es == es[..k] + [es[k]];
    assert es[k] in multiset(es);
    assert es[k] in multiset(fs);
    i :| 0 <= i < |fs| && fs[i] == es[k];
    assert fs == fs[..i] + [fs[i]] + fs[i + 1..];
    assert multiset(fs[..i] + fs[i + 1..]) == multiset(fs) - multiset{es[k]};
    assert multiset(es[..k]) == multiset(es) - multiset{es[k]};
  }

  lemma {:induction false} NodeHashOrder(es: seq<Operation>, fs: seq<Operation>)
    requires multiset(es) == multiset(fs)
    ensures NodeHash(es) == NodeHash(fs)
    decreases |es|
  {
    hide EdgeHash, Xor;
    if es == [] {
      assert |multiset(fs)| == 0;
    } else {
      var i := SameWithout(es, fs);
      NodeHashOrder(es[..|es| - 1], fs[..i] + fs[i + 1..]);
      XorOut(fs, i);
    }
  }

  /** The hash of a graph depends only on each node's multiset of in-edges. */
  lemma {:induction false} GraphHashOrder(ins: seq<seq<Operation>>, jns: seq<seq<Operation>>)
    requires |ins| == |jns| && forall n :: 0 <= n < |ins| ==> multiset(ins[n]) == multiset(jns[n])
    ensures GraphHash(ins) == GraphHash(jns)
  {
    hide NodeHash, Mix;
    if ins != [] {
      var k := |ins| - 1;
      GraphHashOrder(ins[..k], jns[..k]);
      NodeHashOrder(ins[k], jns[k]);
    }
  }

  /** What the loop compares to skip graphs it has already been at. */
  datatype Key = Key(hash: nat, randomCnt: int, bubbleCnt: int)

  function KeyOf(g: Graph): Key {
    Key(GraphHash(g.ins), g.randomCnt, g.bubbleCnt)
  }

  /** Graphs that differ at one node share a key only if that node hashes alike and both counters agree. */
  lemma KeyExact(g: Graph, h: Graph, n: NodeId)
    requires |g.ins| == |h.ins| && n < |g.ins| && forall m :: 0 <= m < |g.ins| && m != n ==> g.ins[m] == h.ins[m]
    ensures KeyOf(g) == KeyOf(h) <==>
      NodeHash(g.ins[n]) == NodeHash(h.ins[n]) && g.randomCnt == h.randomCnt && g.bubbleCnt == h.bubbleCnt
  {
    hide NodeHash, GraphHash;
    assert h.ins == g.ins[n := h.ins[n]];
    GraphHashExact(g.ins, n, h.ins[n]);
  }

  lemma SameLists(g: Graph, h: Graph, n: NodeId)
    requires Shape(g) && Shape(h) && SameUpToOrder(g, h) && n < |g.nodes|
    ensures |g.ins[n]| == |h.ins[n]| && forall e :: e in g.ins[n] <==> e in h.ins[n]
  {
    assert |multiset(g.ins[n])| == |multiset(h.ins[n])|;
    forall e ensures e in g.ins[n] <==> e in h.ins[n] {
      assert e in g.ins[n] <==> e in multiset(g.ins[n]);
      assert e in h.ins[n] <==> e in multiset(h.ins[n]);
    }
  }

  lemma SameReaches(g: Graph, h: Graph, n: NodeId)
    requires Sync(g) && Sync(h) && SameUpToOrder(g, h) && Reaches(g, n)
    ensures Reaches(h, n)
  {
    hide SyncAt;
    var ns :| Path(g, ns) && ns[0] == n && ns[|ns|-1] < |g.nodes| && AtCorrupted(g, ns[|ns|-1]);
    forall i | 0 <= i < |ns| - 1 ensures Feeds(h, ns[i], ns[i + 1]) {
      assert Feeds(g, ns[i], ns[i + 1]);
      SameLists(g, h, ns[i + 1]);
    }
    assert Path(h, ns);
  }

  lemma {:induction false} SameTopo(g: Graph, h: Graph, k: nat)
    requires Shape(g) && Shape(h) && SameUpToOrder(g, h) && k <= |g.nodes|
    ensures TopoSum(g, k) == TopoSum(h, k)
  {
    if k > 0 {
      SameTopo(g, h, k - 1);
      SameLists(g, h, k - 1);
    }
  }

  /** Potential, hash and counters do not depend on the order of the lists. */
  lemma OrderIrrelevant(g: Graph, h: Graph)
    requires Good(g) && Good(h) && SameUpToOrder(g, h)
    ensures PotentialOf(g) == PotentialOf(h) && KeyOf(g) == KeyOf(h)
  {
    hide SyncAt, Reaches, GraphHash;
    GraphHashOrder(g.ins, h.ins);
    SameTopo(g, h, |g.nodes|);
    forall n: NodeId | n < |g.nodes|
      ensures IsRandom(g, n) == IsRandom(h, n) && IsBubble(g, n) == IsBubble(h, n)
      ensures Reaches(g, n) == Reaches(h, n)
    {
      SameLists(g, h, n);
      if Reaches(g, n) { SameReaches(g, h, n); }
      if Reaches(h, n) { SameReaches(h, g, n); }
    }
    assert RandomNodes(g) == RandomNodes(h) && Bubbles(g) == Bubbles(h);
    assert HonestReaching(g) == HonestReaching(h);
  }

  /** Adding back an edge that was eliminated gives the same graph up to list order, and the same hash. */
  lemma AddEliminated(g: Graph, e: Operation)
    requires Good(g) && Has(g, e)
    ensures Shape(WithEdge(WithoutEdge(g, e), e)) && SameUpToOrder(WithEdge(WithoutEdge(g, e), e), g)
    ensures KeyOf(WithEdge(WithoutEdge(g, e), e)) == KeyOf(g)
    ensures forall n, x :: 0 <= n < |g.nodes| ==> OutCount(WithEdge(WithoutEdge(g, e), e), n, x) == OutCount(g, n, x)
  {
    hide SyncAt, GraphHash, PotentialOf;
    var m := WithoutEdge(g, e);
    var r := WithEdge(m, e);
    RemoveFirstCount(g.ins[e.output], e);
    WithoutEdgeSync(g, e);
    WithoutEdgeCounted(g, e);
    WithEdgeSync(m, e);
    WithEdgeCounted(m, e);
    assert multiset(r.ins[e.output]) == multiset(g.ins[e.output]);
    OrderIrrelevant(r, g);
    forall n, x | 0 <= n < |g.nodes| ensures OutCount(r, n, x) == OutCount(g, n, x) {
      WithoutEdgeOut(g, e, n, x);
      PushAtCount(m.outs, e.inputs, e, n, x);
    }
  }
}
