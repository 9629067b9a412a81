// What it is for that of two nodes with equal weights the lower one is merged
// first: of all cheapest codes, Huffman's has the shortest longest code.
module HuffmanHeight {
  import opened Bits
  import opened Huffman
  import opened HuffmanShape
  import opened HuffmanDepth

  // ---- Merging by weight, and by height where weights are equal ----

  function Taller(a: nat, b: nat): nat {
    if a >= b then a else b
  }

  // Leaves have no height; every other node is one higher than the taller of
  // its sons.
  ghost predicate Heights(g: Shape, h: seq<nat>) {
    && |h| >= g.elems + |g.pairs| && (forall x :: x in g.leaves ==> x < |h| && h[x] == 0)
    && forall t :: 0 <= t < |g.pairs| ==> HeightAt(g, h, t)
  }

  ghost predicate HeightAt(g: Shape, h: seq<nat>, t: nat)
    requires t < |g.pairs| && |h| >= g.elems + |g.pairs|
  {
    var (a, b) := g.pairs[t];
    a < |h| && b < |h| && h[g.elems + t] == Taller(h[a], h[b]) + 1
  }

  predicate NotAfter(w: seq<nat>, h: seq<nat>, x: nat, y: nat) {
    x < |w| && y < |w| && x < |h| && y < |h| && (w[x] < w[y] || (w[x] == w[y] && h[x] <= h[y]))
  }

  // Every merge joins the first root and the next one in this order.
  ghost predicate Ordered(g: Shape, w: seq<nat>, h: seq<nat>) {
    forall t :: 0 <= t < |g.pairs| ==> FirstAt(g, w, h, t)
  }

  ghost predicate FirstAt(g: Shape, w: seq<nat>, h: seq<nat>, t: nat)
    requires t < |g.pairs|
  {
    var (a, b) := g.pairs[t];
    && NotAfter(w, h, a, b)
    && forall x :: x in Active(g, t) && x != a && x != b ==> NotAfter(w, h, b, x)
  }

  lemma ExtendHeights(g: Shape, h: seq<nat>, a: nat, b: nat, h2: seq<nat>)
    requires Merged(g) && Heights(g, h) && a < g.elems + |g.pairs| && b < g.elems + |g.pairs| < |h| == |h2|
    requires h2 == h[g.elems + |g.pairs| := Taller(h[a], h[b]) + 1]
    ensures Heights(Extend(g, a, b), h2)
  {
    var k, n := Extend(g, a, b), g.elems + |g.pairs|;
    assert forall x :: x in g.leaves ==> x < g.elems;
    forall t | 0 <= t < |k.pairs| ensures HeightAt(k, h2, t) {
      if t < |g.pairs| { assert HeightAt(g, h, t) && MergedAt(g, t); }
    }
  }

  lemma ExtendOrdered(g: Shape, w: seq<nat>, h: seq<nat>, a: nat, b: nat, v: nat, h2: seq<nat>)
    requires Merged(g) && Ordered(g, w, h) && |w| == g.elems + |g.pairs| < |h| == |h2|
    requires forall x :: 0 <= x < |w| ==> h2[x] == h[x]
    requires NotAfter(w, h, a, b)
    requires forall x :: x in Active(g, |g.pairs|) && x != a && x != b ==> NotAfter(w, h, b, x)
    ensures Ordered(Extend(g, a, b), w + [v], h2)
  {
    var k := Extend(g, a, b);
    forall t | 0 <= t < |k.pairs| ensures FirstAt(k, w + [v], h2, t) {
      ActiveExtend(g, a, b, t);
      hide Active;
      var (c, d) := k.pairs[t];
      if t < |g.pairs| { assert FirstAt(g, w, h, t); }
      NotAfterMore(w, h, c, d, v, h2);
      forall x | x in Active(k, t) && x != c && x != d ensures NotAfter(w + [v], h2, d, x) {
        NotAfterMore(w, h, d, x, v, h2);
      }
    }
  }

  lemma NotAfterMore(w: seq<nat>, h: seq<nat>, x: nat, y: nat, v: nat, h2: seq<nat>)
    requires NotAfter(w, h, x, y) && |w| < |h| == |h2| && forall i :: 0 <= i < |w| ==> h2[i] == h[i]
    ensures NotAfter(w + [v], h2, x, y)
  {
  }

  // ---- The height stays small: weights grow like the Fibonacci numbers ----

  lemma {:induction false} NodeHeavy(g: Shape, w: seq<nat>, h: seq<nat>, x: nat, t: nat)
    requires Merged(g) && Weighs(g, w) && Greedy(g, w) && Heights(g, h) && t <= |g.pairs| && x in Active(g, t)
    requires forall y :: y in g.leaves ==> y < |w| && w[y] >= 1
    ensures x < |w| && x < |h| && Fib(h[x] + 2) <= w[x]
    decreases x
  {
    ActiveBelow(g, t);
    if x < g.elems {
      ActiveLeaf(g, t, x);
      FibValues();
    } else {
      var u := x - g.elems;
      assert MergedAt(g, u) && WeighsAt(g, w, u) && HeightAt(g, h, u);
      var (a, b) := g.pairs[u];
      AllPositive(g, w, u);
      hide Fib, Active, Merged, Weighs, Greedy;
      NodeHeavy(g, w, h, a, u);
      NodeHeavy(g, w, h, b, u);
      if h[a] >= h[b] { SonHeavy(g, w, h, u, a, b); } else { SonHeavy(g, w, h, u, b, a); }
    }
  }

  // The taller son c, and the other one.
  lemma SonHeavy(g: Shape, w: seq<nat>, h: seq<nat>, u: nat, c: nat, d: nat)
    requires Merged(g) && Weighs(g, w) && Greedy(g, w) && Heights(g, h) && u < |g.pairs|
    requires c in Active(g, u) && d in Active(g, u) && c < |w| && d < |w| && c < |h|
    requires Fib(h[c] + 2) <= w[c] && w[d] >= 1
    requires forall y :: y in g.leaves ==> y < |w| && w[y] >= 1
    ensures Fib(h[c] + 3) <= w[c] + w[d]
    decreases c, 0
  {
    FibStep(h[c] + 1);
    if c < g.elems {
      ActiveLeaf(g, u, c);
      FibValues();
    } else {
      var v := c - g.elems;
      ActiveBelow(g, u);
      assert MergedAt(g, v) && HeightAt(g, h, v) && LightestAt(g, w, v);
      var (e, f) := g.pairs[v];
      SonsLighter(g, w, u, c, d);
      assert Heavier(g, w, c) == w[f];
      NodeHeavy(g, w, h, e, v);
      NodeHeavy(g, w, h, f, v);
    }
  }

  // A node that weighs less than 65536 is lower than 256.
  lemma HeightFits(g: Shape, w: seq<nat>, h: seq<nat>, x: nat)
    requires Merged(g) && Weighs(g, w) && Greedy(g, w) && Heights(g, h) && x in Active(g, |g.pairs|)
    requires forall y :: y in g.leaves ==> y < |w| && w[y] >= 1
    requires x < |w| && w[x] <= 65535
    ensures x < |h| && h[x] < 255
  {
    hide Active, Fib;
    NodeHeavy(g, w, h, x, |g.pairs|);
    if h[x] >= 23 {
      FibMono(25, h[x] + 2);
      BigFib();
    }
  }

  lemma BigFib()
    ensures Fib(25) == 75025
  {
    FibValues();
    assert Fib(16) == 987 && Fib(17) == 1597;
    assert Fib(19) == 4181 && Fib(20) == 6765;
    assert Fib(21) == 10946 && Fib(22) == 17711;
    assert Fib(23) == 28657 && Fib(24) == 46368;
  }

  // ---- Codes of the same cost ----

  // No member of s, with what hangs from it, reaches below top.
  ghost predicate Within(s: set<nat>, l: seq<nat>, h: seq<nat>, top: nat) {
    forall x :: x in s ==> x < |l| && x < |h| && l[x] + h[x] <= top
  }

  // Giving the longer code to the earlier node costs less, or reaches no deeper.
  lemma SwapWithin(s: set<nat>, w: seq<nat>, h: seq<nat>, l: seq<nat>, a: nat, x: nat, top: nat)
    requires a in s && x in s && Below(s, |l|) && |w| == |l| && Within(s, l, h, top)
    requires (a == x || NotAfter(w, h, a, x)) && l[a] <= l[x]
    requires var k := l[a := l[x]][x := l[a]]; Cost(s, w, k) == Cost(s, w, l)
    ensures Within(s, l[a := l[x]][x := l[a]], h, top)
  {
    var k := l[a := l[x]][x := l[a]];
    if a == x {
      assert k == l;
    } else {
      hide Sum, Mul;
      SumSwapped(s, a, x, Weighted(w, l), Weighted(w, k), |l|);
      SameOrEqual(w[a], w[x], l[a], l[x]);
    }
  }

  lemma SameOrEqual(wa: nat, wx: nat, la: nat, lx: nat)
    requires wa <= wx && la <= lx && Mul(wa, lx) + Mul(wx, la) == Mul(wa, la) + Mul(wx, lx)
    ensures wa == wx || la == lx
  {
    var d, e := wx - wa, lx - la;
    assert wx * lx == wa * lx + d * lx;
    assert wx * la == wa * la + d * la;
    assert d * lx == d * la + d * e;
    if d > 0 { assert d * e == e + (d - 1) * e; }
  }

  // The greedy step, for the nodes that come first: lengths of the same cost
  // reach no deeper than before.
  lemma StepWithin(s: set<nat>, w: seq<nat>, h: seq<nat>, l: seq<nat>, m: nat, a: nat, b: nat, c: nat, top: nat)
      returns (k: seq<nat>)
    requires PrefixLengths(s, l, m) && |w| == |l|
    requires c < |l| && c < |h| && a < |h| && b < |h| && c !in s && a in s && b in s && a != b
    requires w[c] == w[a] + w[b] && h[c] == Taller(h[a], h[b]) + 1
    requires NotAfter(w, h, a, b) && forall x :: x in s && x != a && x != b ==> NotAfter(w, h, b, x)
    ensures |k| == |l| && PrefixLengths(s - {a, b} + {c}, k, m)
    ensures Cost(s - {a, b} + {c}, w, k) + w[c] <= Cost(s, w, l)
    ensures Cost(s - {a, b} + {c}, w, k) + w[c] == Cost(s, w, l) && Within(s, l, h, top) ==>
      Within(s - {a, b} + {c}, k, h, top)
  {
    hide Cost, Sum, Pow2, Within;
    var x := Longest(s, l, |l|);
    SwapCheaper(s, w, l, m, a, x);
    var l1 := l[a := l[x]][x := l[a]];
    assert b in s - {a};
    var y := Longest(s - {a}, l1, |l|);
    SwapCheaper(s, w, l1, m, b, y);
    var l2 := l1[b := l1[y]][y := l1[b]];
    ShortenLonely(s, w, l2, m, a, l2[b]);
    var l3 := l2[a := l2[b]];
    TwoNeedABit(s, l3, m, a, b);
    MergeLengths(s, w, l3, m, a, b, c);
    k := l3[c := l3[a] - 1];
    if Cost(s - {a, b} + {c}, w, k) + w[c] == Cost(s, w, l) && Within(s, l, h, top) {
      SwapWithin(s, w, h, l, a, x, top);
      SwapWithin(s, w, h, l1, b, y, top);
      MergeWithin(s, h, l2, l3, k, a, b, c, top);
    }
  }

  lemma MergeWithin(s: set<nat>, h: seq<nat>, l2: seq<nat>, l3: seq<nat>, k: seq<nat>, a: nat, b: nat, c: nat, top: nat)
    requires Within(s, l2, h, top) && a in s && b in s && a != b && c < |l2| && c < |h| && h[c] == Taller(h[a], h[b]) + 1
    requires c !in s && l2[b] <= l2[a] && l3 == l2[a := l2[b]] && l3[a] >= 1 && k == l3[c := l3[a] - 1]
    ensures Within(s - {a, b} + {c}, k, h, top)
  {
  }

  lemma {:induction false} MergesWithin(g: Shape, w: seq<nat>, h: seq<nat>, l: seq<nat>, m: nat, t: nat, top: nat)
      returns (k: seq<nat>)
    requires Merged(g) && Weighs(g, w) && Heights(g, h) && Ordered(g, w, h) && t <= |g.pairs|
    requires |l| == |w| && PrefixLengths(g.leaves, l, m)
    ensures |k| == |w| && PrefixLengths(Active(g, t), k, m)
    ensures MadeWeight(g, w, t) + Cost(Active(g, t), w, k) <= Cost(g.leaves, w, l)
    ensures MadeWeight(g, w, t) + Cost(Active(g, t), w, k) == Cost(g.leaves, w, l) && Within(g.leaves, l, h, top) ==>
      Within(Active(g, t), k, h, top)
  {
    if t == 0 {
      k := l;
    } else {
      var j := MergesWithin(g, w, h, l, m, t - 1, top);
      var (a, b) := g.pairs[t - 1];
      ActiveBelow(g, t - 1);
      ActiveStep(g, t - 1);
      assert FirstAt(g, w, h, t - 1) && WeighsAt(g, w, t - 1) && HeightAt(g, h, t - 1);
      hide Active, Cost, Ordered, Merged, Weighs, Heights, Within;
      k := StepWithin(Active(g, t - 1), w, h, j, m, a, b, g.elems + t - 1, top);
    }
  }

  // No node reaches below the height of the tree.
  lemma {:induction false} DepthsWithin(g: Shape, h: seq<nat>, len: seq<nat>, limit: nat, t: nat)
    requires Merged(g) && Heights(g, h) && Depths(g, len, limit) && t <= |g.pairs| == |g.leaves| - 1
    requires Over(g, len, limit, t) == 0 && Root(g) < |h|
    ensures Within(Active(g, t), len, h, h[Root(g)])
    decreases |g.pairs| - t
  {
    hide Active;
    if t == |g.pairs| {
      OneRoot(g);
    } else {
      DepthsWithin(g, h, len, limit, t + 1);
      ActiveStep(g, t);
      DepthStep(g, len, limit, t);
      assert HeightAt(g, h, t);
      assert g.elems + t in Active(g, t + 1);
      forall x | x in Active(g, t) ensures x < |len| && x < |h| && len[x] + h[x] <= h[Root(g)] {
        assert x in Active(g, t + 1) || x == g.pairs[t].0 || x == g.pairs[t].1;
      }
    }
  }

  // Of all prefix codes with the same least cost none has a shorter longest
  // code.
  lemma ShortestLongest(g: Shape, w: seq<nat>, h: seq<nat>, len: seq<nat>, limit: nat, l: seq<nat>, m: nat, top: nat)
    requires Merged(g) && Weighs(g, w) && Heights(g, h) && Ordered(g, w, h) && |g.pairs| == |g.leaves| - 1
    requires Depths(g, len, limit) && Over(g, len, limit, 0) == 0
    requires |len| == |l| == |w| && PrefixLengths(g.leaves, l, m) && Cost(g.leaves, w, l) <= Cost(g.leaves, w, len)
    requires forall x :: x in g.leaves ==> l[x] <= top
    ensures forall x :: x in g.leaves ==> len[x] <= top
  {
    var k := MergesWithin(g, w, h, l, m, |g.pairs|, top);
    DepthsCost(g, w, len, limit, 0);
    DepthsWithin(g, h, len, limit, 0);
    hide Sum, Merged, Weighs, Ordered;
    OneRoot(g);
    assert Within(g.leaves, l, h, top);
    assert Root(g) in Active(g, |g.pairs|);
  }
}
