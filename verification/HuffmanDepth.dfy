// How deep a Huffman tree can be: the weights on the way up from a node grow at
// least like the Fibonacci numbers.
module HuffmanDepth {
  import opened Huffman
  import opened HuffmanShape

  function Fib(n: nat): nat {
    if n < 2 then n else Fib(n - 1) + Fib(n - 2)
  }

  lemma FibValues()
    ensures Fib(0) == 0 && Fib(1) == 1 && Fib(2) == 1 && Fib(3) == 2 && Fib(4) == 3 && Fib(5) == 5 && Fib(6) == 8
    ensures Fib(7) == 13 && Fib(8) == 21 && Fib(9) == 34 && Fib(10) == 55 && Fib(11) == 89 && Fib(12) == 144
    ensures Fib(13) == 233 && Fib(14) == 377 && Fib(18) == 2584
  {
    assert Fib(4) == 3 && Fib(5) == 5;
    assert Fib(6) == 8 && Fib(7) == 13;
    assert Fib(8) == 21 && Fib(9) == 34;
    assert Fib(10) == 55 && Fib(11) == 89;
    assert Fib(12) == 144 && Fib(13) == 233;
    assert Fib(14) == 377 && Fib(15) == 610;
    assert Fib(16) == 987 && Fib(17) == 1597;
  }

  lemma {:induction false} FibMono(a: nat, b: nat)
    requires a <= b
    ensures Fib(a) <= Fib(b)
    decreases b
  {
    if a < b {
      FibMono(a, b - 1);
    }
  }

  ghost function Root(g: Shape): nat
    requires |g.pairs| >= 1
  {
    g.elems + |g.pairs| - 1
  }

  // The weight of the heavier son of a node.
  ghost function Heavier(g: Shape, w: seq<nat>, x: nat): nat {
    if g.elems <= x < g.elems + |g.pairs| && g.pairs[x - g.elems].1 < |w| then w[g.pairs[x - g.elems].1] else 0
  }

  // A node at depth d weighs so little that the whole tree has room for it, and
  // for its heavier son, as often as the Fibonacci numbers say.
  ghost predicate Light(g: Shape, w: seq<nat>, total: nat, x: nat, d: nat) {
    x < |w| && Mul(w[x], Fib(d + 1)) + Mul(Heavier(g, w, x), Fib(d)) <= total
  }

  lemma LightStep(wx: nat, wy: nat, cx: nat, c: nat, f0: nat, f1: nat, total: nat)
    requires Mul(wx + wy, f1) + Mul(c, f0) <= total && wx <= c && cx <= wy && cx <= wx
    ensures Mul(wx, f1 + f0) + Mul(cx, f1) <= total
    ensures Mul(wx, f1) + Mul(cx, f0) <= total
  {
    assert Mul(wx + wy, f1) == Mul(wx, f1) + Mul(wy, f1);
    assert Mul(wx, f1 + f0) == Mul(wx, f1) + Mul(wx, f0);
    MulLess(cx, wy, f1);
    MulLess(wx, c, f0);
    MulLess(cx, wx, f0);
  }

  lemma MulLess(a: nat, b: nat, c: nat)
    requires a <= b
    ensures Mul(a, c) <= Mul(b, c)
  {
    assert b * c == a * c + (b - a) * c;
  }

  // The sons of a root that is about to be merged are no heavier than its
  // partner, nor than the root itself.
  lemma SonsLighter(g: Shape, w: seq<nat>, t: nat, x: nat, y: nat)
    requires Merged(g) && Weighs(g, w) && Greedy(g, w) && t < |g.pairs|
    requires x in Active(g, t) && y in Active(g, t)
    ensures x < |w| && y < |w| && Heavier(g, w, x) <= w[y] && Heavier(g, w, x) <= w[x]
  {
    ActiveBelow(g, t);
    if x >= g.elems {
      var u := x - g.elems;
      WeightOrder(g, w, u, t);
      assert WeighsAt(g, w, u);
    }
  }

  // All roots after t merges are light for their depths.
  lemma {:induction false} AllLight(g: Shape, w: seq<nat>, len: seq<nat>, limit: nat, t: nat)
    requires Merged(g) && Weighs(g, w) && Greedy(g, w) && Depths(g, len, limit) && t <= |g.pairs| == |g.leaves| - 1
    ensures forall x :: x in Active(g, t) ==> x < |len| && Light(g, w, w[Root(g)], x, len[x])
    decreases |g.pairs| - t
  {
    hide Active, Mul, Fib, Heavier;
    var total := w[Root(g)];
    if t == |g.pairs| {
      OneRoot(g);
      LightRoot(g, w, total);
    } else {
      AllLight(g, w, len, limit, t + 1);
      ActiveStep(g, t);
      assert DepthAt(g, len, limit, t) && WeighsAt(g, w, t) && LightestAt(g, w, t);
      var (a, b) := g.pairs[t];
      var p := g.elems + t;
      DepthStep(g, len, limit, t);
      FatherHeavier(g, w, t);
      SonLight(g, w, len, limit, t, a, b);
      SonLight(g, w, len, limit, t, b, a);
      forall x | x in Active(g, t) ensures x < |len| && Light(g, w, total, x, len[x]) {
        assert x in Active(g, t + 1) || x == a || x == b;
      }
    }
  }

  lemma LightRoot(g: Shape, w: seq<nat>, total: nat)
    requires |g.pairs| >= 1 && Root(g) < |w| && total == w[Root(g)]
    ensures Light(g, w, total, Root(g), 0)
  {
    assert Mul(total, Fib(1)) == total && Mul(Heavier(g, w, Root(g)), Fib(0)) == 0;
  }

  lemma FatherHeavier(g: Shape, w: seq<nat>, t: nat)
    requires t < |g.pairs| && g.pairs[t].1 < |w|
    ensures Heavier(g, w, g.elems + t) == w[g.pairs[t].1]
  {
  }

  lemma SonLight(g: Shape, w: seq<nat>, len: seq<nat>, limit: nat, t: nat, x: nat, y: nat)
    requires Merged(g) && Weighs(g, w) && Greedy(g, w) && t < |g.pairs| && |len| >= g.elems + |g.pairs|
    requires DepthAt(g, len, limit, t) && LightestAt(g, w, t) && WeighsAt(g, w, t) && len[g.elems + t] <= limit
    requires (x == g.pairs[t].0 && y == g.pairs[t].1) || (x == g.pairs[t].1 && y == g.pairs[t].0)
    requires Light(g, w, w[Root(g)], g.elems + t, len[g.elems + t])
    ensures x < |len| && Light(g, w, w[Root(g)], x, len[x])
  {
    hide Active, Mul, Fib, Heavier;
    assert MergedAt(g, t);
    SonsLighter(g, w, t, x, y);
    FatherHeavier(g, w, t);
    var d := len[g.elems + t];
    LightStep(w[x], w[y], Heavier(g, w, x), w[g.pairs[t].1], Fib(d), Fib(d + 1), w[Root(g)]);
    FibStep(d);
  }

  lemma FibStep(d: nat)
    ensures Fib(d + 2) == Fib(d + 1) + Fib(d)
  {
  }

  // The root weighs as much as all leaves.
  lemma {:induction false} RootWeight(g: Shape, w: seq<nat>, t: nat)
    requires Merged(g) && Weighs(g, w) && t <= |g.pairs| == |g.leaves| - 1 && |g.pairs| >= 1
    ensures Sum(Active(g, t), Plain(w), |w|) == w[Root(g)]
    decreases |g.pairs| - t
  {
    hide Active, Sum;
    if t == |g.pairs| {
      OneRoot(g);
      SumOne(Root(g), Plain(w), |w|);
    } else {
      RootWeight(g, w, t + 1);
      SumSplit(g, Plain(w), t, |w|);
      assert WeighsAt(g, w, t);
    }
  }

  lemma {:induction false} AllPositive(g: Shape, w: seq<nat>, t: nat)
    requires Merged(g) && Weighs(g, w) && t <= |g.pairs| && forall x :: x in g.leaves ==> x < |w| && w[x] >= 1
    ensures forall x :: x in Active(g, t) ==> x < |w| && w[x] >= 1
  {
    if t > 0 {
      AllPositive(g, w, t - 1);
      ActiveStep(g, t - 1);
      assert WeighsAt(g, w, t - 1);
    }
  }

  // A tree in which a node lies below the limit is heavy.
  lemma {:induction false} DeepIsHeavy(g: Shape, w: seq<nat>, len: seq<nat>, limit: nat, t: nat)
    requires Merged(g) && Weighs(g, w) && Greedy(g, w) && Depths(g, len, limit) && t <= |g.pairs| == |g.leaves| - 1
    requires Over(g, len, limit, t) > 0 && forall x :: x in g.leaves ==> x < |w| && w[x] >= 1
    ensures Fib(limit + 3) <= w[Root(g)]
    decreases |g.pairs| - t
  {
    if len[g.elems + t] + 1 > limit {
      hide Active, Mul, Fib, Heavier;
      DepthStep(g, len, limit, t);
      AllLight(g, w, len, limit, t + 1);
      ActiveStep(g, t);
      AllPositive(g, w, t);
      assert WeighsAt(g, w, t);
      FatherHeavier(g, w, t);
      assert Light(g, w, w[Root(g)], g.elems + t, limit);
      TwoAndOne(w[g.elems + t], w[g.pairs[t].1], limit, w[Root(g)]);
    } else {
      DeepIsHeavy(g, w, len, limit, t + 1);
    }
  }

  lemma TwoAndOne(wp: nat, c: nat, d: nat, total: nat)
    requires wp >= 2 && c >= 1 && Mul(wp, Fib(d + 1)) + Mul(c, Fib(d)) <= total
    ensures Fib(d + 3) <= total
  {
    MulLess(2, wp, Fib(d + 1));
    MulLess(1, c, Fib(d));
    assert Mul(2, Fib(d + 1)) == 2 * Fib(d + 1) && Mul(1, Fib(d)) == Fib(d);
    FibStep(d + 1);
    FibStep(d);
  }

  // ---- Depths within a limit ----

  // No leaf of the tree is deeper than limit: the depths need not be cut off.
  ghost predicate Shallow(g: Shape, limit: nat) {
    exists len :: Depths(g, len, limit) && Over(g, len, limit, 0) == 0
  }

  lemma {:induction false} DepthsUnique(g: Shape, len: seq<nat>, other: seq<nat>, limit: nat, t: nat)
    requires Merged(g) && Depths(g, len, limit) && Depths(g, other, limit) && t <= |g.pairs| == |g.leaves| - 1
    ensures forall x :: x in Active(g, t) ==> x < |len| && x < |other| && len[x] == other[x]
    ensures Over(g, len, limit, t) == Over(g, other, limit, t)
    decreases |g.pairs| - t
  {
    hide Active;
    if t == |g.pairs| {
      OneRoot(g);
    } else {
      DepthsUnique(g, len, other, limit, t + 1);
      ActiveStep(g, t);
      assert DepthAt(g, len, limit, t) && DepthAt(g, other, limit, t);
      forall x | x in Active(g, t) ensures x < |len| && x < |other| && len[x] == other[x] {
        assert x in Active(g, t + 1) || x == g.pairs[t].0 || x == g.pairs[t].1;
      }
    }
  }

  lemma ShallowIff(g: Shape, len: seq<nat>, limit: nat)
    requires Merged(g) && Depths(g, len, limit) && |g.pairs| == |g.leaves| - 1
    ensures Shallow(g, limit) <==> Over(g, len, limit, 0) == 0
  {
    if Shallow(g, limit) {
      var other :| Depths(g, other, limit) && Over(g, other, limit, 0) == 0;
      DepthsUnique(g, len, other, limit, 0);
    }
  }
}
