// The shape of a Huffman tree as build_tree() leaves it: which pair of nodes
// each merge joined. Merge t joins pairs[t].0 and pairs[t].1 into the new node
// elems + t.
module HuffmanShape {
  import opened Bits
  import opened Huffman

  datatype Shape = Shape(elems: nat, leaves: set<nat>, pairs: seq<(nat, nat)>)

  // The roots of the forest after t merges.
  ghost function Active(g: Shape, t: nat): set<nat>
    requires t <= |g.pairs|
  {
    if t == 0 then g.leaves
    else Active(g, t - 1) - {g.pairs[t - 1].0, g.pairs[t - 1].1} + {g.elems + t - 1}
  }

  // Every merge joins two different roots, older than the node it makes.
  ghost predicate Merged(g: Shape) {
    && Below(g.leaves, g.elems)
    && forall t :: 0 <= t < |g.pairs| ==> MergedAt(g, t)
  }

  ghost predicate MergedAt(g: Shape, t: nat)
    requires t < |g.pairs|
  {
    var (a, b) := g.pairs[t];
    a in Active(g, t) && b in Active(g, t) && a != b && a < g.elems + t && b < g.elems + t
  }

  // Weights add up in merges.
  ghost predicate Weighs(g: Shape, w: seq<nat>) {
    && |w| >= g.elems + |g.pairs|
    && forall t :: 0 <= t < |g.pairs| ==> WeighsAt(g, w, t)
  }

  ghost predicate WeighsAt(g: Shape, w: seq<nat>, t: nat)
    requires t < |g.pairs| && |w| >= g.elems + |g.pairs|
  {
    var (a, b) := g.pairs[t];
    a < |w| && b < |w| && w[g.elems + t] == w[a] + w[b]
  }

  // Every merge joins a lightest root with a next lightest one.
  ghost predicate Greedy(g: Shape, w: seq<nat>) {
    forall t :: 0 <= t < |g.pairs| ==> LightestAt(g, w, t)
  }

  ghost predicate LightestAt(g: Shape, w: seq<nat>, t: nat)
    requires t < |g.pairs|
  {
    var (a, b) := g.pairs[t];
    && a < |w| && b < |w| && w[a] <= w[b]
    && forall x :: x in Active(g, t) && x != a && x != b && x < |w| ==> w[b] <= w[x]
  }

  lemma {:induction false} ActiveBelow(g: Shape, t: nat)
    requires Merged(g) && t <= |g.pairs|
    ensures Below(Active(g, t), g.elems + t)
  {
    if t > 0 { ActiveBelow(g, t - 1); }
  }

  lemma ActiveStep(g: Shape, t: nat)
    requires Merged(g) && t < |g.pairs|
    ensures MergedAt(g, t) && g.elems + t !in Active(g, t)
    ensures Active(g, t + 1) == Active(g, t) - {g.pairs[t].0, g.pairs[t].1} + {g.elems + t}
  {
    ActiveBelow(g, t);
    assert MergedAt(g, t);
  }

  lemma {:induction false} ActiveSize(g: Shape, t: nat)
    requires Merged(g) && t <= |g.pairs|
    ensures |Active(g, t)| == |g.leaves| - t
  {
    if t > 0 {
      ActiveSize(g, t - 1);
      ActiveStep(g, t - 1);
      hide Active;
      var (a, b) := g.pairs[t - 1];
      ReplaceTwo(Active(g, t - 1), a, b, g.elems + t - 1);
    }
  }

  lemma ReplaceTwo(s: set<nat>, a: nat, b: nat, c: nat)
    requires a in s && b in s && a != b && c !in s
    ensures |s - {a, b} + {c}| == |s| - 1
  {
    assert s == (s - {a, b}) + {a, b};
    assert |s| == |s - {a, b}| + |{a, b}|;
  }

  // A root that is no leaf was made by a merge.
  lemma {:induction false} ActiveLeaf(g: Shape, t: nat, x: nat)
    requires t <= |g.pairs| && x in Active(g, t) && x < g.elems
    ensures x in g.leaves
  {
    if t > 0 { ActiveLeaf(g, t - 1, x); }
  }

  // After the last merge only one node is left, the one made last.
  lemma OneRoot(g: Shape)
    requires Merged(g) && |g.leaves| == |g.pairs| + 1 && |g.pairs| >= 1
    ensures Active(g, |g.pairs|) == {g.elems + |g.pairs| - 1}
  {
    var t := |g.pairs|;
    hide Active, Merged, MergedAt;
    ActiveSize(g, t);
    ActiveStep(g, t - 1);
    var r := g.elems + t - 1;
    var s := Active(g, t);
    assert s == (s - {r}) + {r};
    assert |s| == |s - {r}| + 1;
    assert s - {r} == {};
  }

  // A node that has been merged never comes back.
  lemma {:induction false} Gone(g: Shape, x: nat, t: nat, u: nat)
    requires Merged(g) && t <= u <= |g.pairs| && x < g.elems + t && x !in Active(g, t)
    ensures x !in Active(g, u)
    decreases u
  {
    hide Active;
    if t < u {
      Gone(g, x, t, u - 1);
      ActiveStep(g, u - 1);
    }
  }

  // Nodes of different merges are different.
  lemma PairsDistinct(g: Shape, t: nat, u: nat)
    requires Merged(g) && t < u < |g.pairs|
    ensures {g.pairs[t].0, g.pairs[t].1} !! {g.pairs[u].0, g.pairs[u].1}
  {
    hide Active;
    ActiveStep(g, t);
    ActiveStep(g, u);
    Gone(g, g.pairs[t].0, t + 1, u);
    Gone(g, g.pairs[t].1, t + 1, u);
  }

  // Every root that is not there at time u was merged before.
  lemma {:induction false} MergedWhen(g: Shape, x: nat, t: nat, u: nat) returns (v: nat)
    requires Merged(g) && t <= u <= |g.pairs| && x in Active(g, t) && x !in Active(g, u)
    ensures t <= v < u && (x == g.pairs[v].0 || x == g.pairs[v].1)
    decreases u
  {
    hide Active;
    assert u > t;
    ActiveStep(g, u - 1);
    if x in Active(g, u - 1) {
      v := u - 1;
    } else {
      v := MergedWhen(g, x, t, u - 1);
    }
  }

  // ---- One more merge ----

  ghost function Extend(g: Shape, a: nat, b: nat): Shape {
    g.(pairs := g.pairs + [(a, b)])
  }

  lemma {:induction false} ActiveExtend(g: Shape, a: nat, b: nat, t: nat)
    requires t <= |g.pairs|
    ensures Active(Extend(g, a, b), t) == Active(g, t)
  {
    if t > 0 { ActiveExtend(g, a, b, t - 1); }
  }

  lemma ExtendMerged(g: Shape, a: nat, b: nat)
    requires Merged(g) && a in Active(g, |g.pairs|) && b in Active(g, |g.pairs|) && a != b
    ensures Merged(Extend(g, a, b))
    ensures Active(Extend(g, a, b), |g.pairs| + 1) == Active(g, |g.pairs|) - {a, b} + {g.elems + |g.pairs|}
  {
    var h := Extend(g, a, b);
    forall t | 0 <= t < |h.pairs| ensures MergedAt(h, t) {
      ActiveExtend(g, a, b, t);
      ActiveBelow(g, t);
      if t < |g.pairs| { assert MergedAt(g, t); }
    }
    ActiveExtend(g, a, b, |g.pairs|);
  }

  lemma ExtendWeighs(g: Shape, w: seq<nat>, a: nat, b: nat, v: nat)
    requires Weighs(g, w) && |w| == g.elems + |g.pairs| && a < |w| && b < |w| && v == w[a] + w[b]
    ensures Weighs(Extend(g, a, b), w + [v])
  {
    var h := Extend(g, a, b);
    forall t | 0 <= t < |h.pairs| ensures WeighsAt(h, w + [v], t) {
      if t < |g.pairs| { assert WeighsAt(g, w, t); }
    }
  }

  lemma ExtendGreedy(g: Shape, w: seq<nat>, a: nat, b: nat, v: nat)
    requires Merged(g) && Greedy(g, w) && |w| == g.elems + |g.pairs| && a < |w| && b < |w| && w[a] <= w[b]
    requires forall x :: x in Active(g, |g.pairs|) && x != a && x != b && x < |w| ==> w[b] <= w[x]
    ensures Greedy(Extend(g, a, b), w + [v])
  {
    var h := Extend(g, a, b);
    forall t | 0 <= t < |h.pairs| ensures LightestAt(h, w + [v], t) {
      ActiveExtend(g, a, b, t);
      ActiveBelow(g, t);
      if t < |g.pairs| { assert LightestAt(g, w, t); }
    }
  }

  // ---- The cost of merging, and its optimality ----

  // The weight of all nodes made by the first t merges.
  function MadeWeight(g: Shape, w: seq<nat>, t: nat): nat
    requires t <= |g.pairs| && |w| >= g.elems + |g.pairs|
  {
    if t == 0 then 0 else MadeWeight(g, w, t - 1) + w[g.elems + t - 1]
  }

  lemma {:induction false} MergesCheapest(g: Shape, w: seq<nat>, l: seq<nat>, m: nat, t: nat) returns (k: seq<nat>)
    requires Merged(g) && Weighs(g, w) && Greedy(g, w) && t <= |g.pairs|
    requires |l| == |w| && PrefixLengths(g.leaves, l, m)
    ensures |k| == |w| && PrefixLengths(Active(g, t), k, m)
    ensures MadeWeight(g, w, t) + Cost(Active(g, t), w, k) <= Cost(g.leaves, w, l)
  {
    if t == 0 {
      k := l;
    } else {
      var j := MergesCheapest(g, w, l, m, t - 1);
      var (a, b) := g.pairs[t - 1];
      ActiveBelow(g, t - 1);
      ActiveStep(g, t - 1);
      assert LightestAt(g, w, t - 1) && WeighsAt(g, w, t - 1);
      hide Active, Cost, Greedy, Merged, Weighs;
      k := MergeStep(Active(g, t - 1), w, j, m, a, b, g.elems + t - 1);
    }
  }

  // No prefix code for the leaves costs less than the merges do.
  lemma HuffmanOptimal(g: Shape, w: seq<nat>, l: seq<nat>, m: nat)
    requires Merged(g) && Weighs(g, w) && Greedy(g, w)
    requires |l| == |w| && PrefixLengths(g.leaves, l, m)
    ensures MadeWeight(g, w, |g.pairs|) <= Cost(g.leaves, w, l)
  {
    var k := MergesCheapest(g, w, l, m, |g.pairs|);
  }

  // Merges take nodes in the order of their weights.
  lemma {:induction false} WeightOrder(g: Shape, w: seq<nat>, t: nat, u: nat)
    requires Merged(g) && Weighs(g, w) && Greedy(g, w) && t < u <= |g.pairs|
    ensures g.pairs[t].1 < |w|
    ensures forall x :: x in Active(g, u) ==> x < |w| && w[g.pairs[t].1] <= w[x]
    decreases u
  {
    ActiveBelow(g, u);
    ActiveBelow(g, u - 1);
    ActiveStep(g, u - 1);
    hide Active;
    assert WeighsAt(g, w, u - 1) && LightestAt(g, w, t);
    if t + 1 < u {
      WeightOrder(g, w, t, u - 1);
      assert g.pairs[u - 1].0 in Active(g, u - 1);
    }
    forall x | x in Active(g, u) ensures x < |w| && w[g.pairs[t].1] <= w[x] {
      assert x in Active(g, u - 1) || x == g.elems + u - 1;
    }
  }

  // ---- Depths, cut off at a limit ----

  // len gives each node one more than its parent, but no more than limit.
  ghost predicate Depths(g: Shape, len: seq<nat>, limit: nat) {
    && |g.pairs| >= 1 && |len| >= g.elems + |g.pairs|
    && len[g.elems + |g.pairs| - 1] == 0
    && forall t :: 0 <= t < |g.pairs| ==> DepthAt(g, len, limit, t)
  }

  ghost predicate DepthAt(g: Shape, len: seq<nat>, limit: nat, t: nat)
    requires t < |g.pairs| && |len| >= g.elems + |g.pairs|
  {
    var (a, b) := g.pairs[t];
    a < |len| && b < |len| && len[a] == len[b] == Clamp(len[g.elems + t] + 1, limit)
  }

  function Clamp(x: nat, limit: nat): nat {
    if x > limit then limit else x
  }

  // How many nodes of the merges from t on were cut off.
  function Over(g: Shape, len: seq<nat>, limit: nat, t: nat): nat
    requires t <= |g.pairs| && |len| >= g.elems + |g.pairs|
    decreases |g.pairs| - t
  {
    if t == |g.pairs| then 0
    else Over(g, len, limit, t + 1) + (if len[g.elems + t] + 1 > limit then 2 else 0)
  }

  lemma {:induction false} DepthsBounded(g: Shape, len: seq<nat>, limit: nat, t: nat)
    requires Merged(g) && Depths(g, len, limit) && t <= |g.pairs| == |g.leaves| - 1
    ensures forall x :: x in Active(g, t) ==> x < |len| && len[x] <= limit
    decreases |g.pairs| - t
  {
    hide Active;
    if t == |g.pairs| {
      OneRoot(g);
    } else {
      DepthsBounded(g, len, limit, t + 1);
      ActiveStep(g, t);
      assert DepthAt(g, len, limit, t);
      forall x | x in Active(g, t) ensures x < |len| && len[x] <= limit {
        assert x in Active(g, t + 1) || x == g.pairs[t].0 || x == g.pairs[t].1;
      }
    }
  }

  // Splitting the node made by merge t back into its pair.
  lemma SumSplit(g: Shape, f: Measure, t: nat, n: nat)
    requires Merged(g) && t < |g.pairs| && n >= g.elems + |g.pairs|
    ensures Sum(Active(g, t), f, n) + Of(f, g.elems + t)
         == Sum(Active(g, t + 1), f, n) + Of(f, g.pairs[t].0) + Of(f, g.pairs[t].1)
  {
    hide Active, Sum, Of;
    ActiveStep(g, t);
    SumMerge(Active(g, t), g.pairs[t].0, g.pairs[t].1, g.elems + t, f, n);
  }

  lemma SumOne(x: nat, f: Measure, n: nat)
    requires x < n
    ensures Sum({x}, f, n) == Of(f, x)
  {
    SumRemove({x}, x, f, n);
    SumEmpty({x} - {x}, f, n);
  }

  lemma {:induction false} SumEmpty(s: set<nat>, f: Measure, n: nat)
    requires s == {}
    ensures Sum(s, f, n) == 0
  {
    if n > 0 { SumEmpty(s, f, n - 1); }
  }

  // The lengths of the node made by merge t and of the pair it is made from.
  lemma DepthStep(g: Shape, len: seq<nat>, limit: nat, t: nat)
    requires Merged(g) && Depths(g, len, limit) && t < |g.pairs| == |g.leaves| - 1
    ensures DepthAt(g, len, limit, t) && len[g.elems + t] <= limit
    ensures Over(g, len, limit, t) == Over(g, len, limit, t + 1) + (if len[g.elems + t] == limit then 2 else 0)
  {
    DepthsBounded(g, len, limit, t + 1);
    ActiveStep(g, t);
    hide Active;
    assert g.elems + t in Active(g, t + 1);
    assert DepthAt(g, len, limit, t);
  }

  // The Kraft sum exceeds one by half a unit for every node cut off.
  lemma {:induction false} DepthsKraft(g: Shape, len: seq<nat>, limit: nat, t: nat)
    requires Merged(g) && Depths(g, len, limit) && t <= |g.pairs| == |g.leaves| - 1
    ensures 2 * Sum(Active(g, t), Units(len, limit), |len|) == 2 * Pow2(limit) + Over(g, len, limit, t)
    decreases |g.pairs| - t
  {
    hide Sum, Active;
    var f := Units(len, limit);
    if t == |g.pairs| {
      OneRoot(g);
      SumOne(g.elems + t - 1, f, |len|);
    } else {
      DepthsKraft(g, len, limit, t + 1);
      SumSplit(g, f, t, |len|);
      DepthStep(g, len, limit, t);
      var d := len[g.elems + t];
      if d < limit {
        assert Pow2(limit - d) == 2 * Pow2(limit - (d + 1));
      } else {
        assert Pow2(0) == 1;
      }
    }
  }

  // More than half as many nodes sit at the limit as were cut off, if any were.
  lemma {:induction false} DepthsAtLimit(g: Shape, len: seq<nat>, limit: nat, t: nat)
    requires Merged(g) && Depths(g, len, limit) && t <= |g.pairs| == |g.leaves| - 1
    ensures Over(g, len, limit, t) > 0 ==> 2 * Sum(Active(g, t), Level(len, limit), |len|) >= Over(g, len, limit, t) + 2
    decreases |g.pairs| - t
  {
    hide Sum, Active;
    if t < |g.pairs| {
      DepthsAtLimit(g, len, limit, t + 1);
      SumSplit(g, Level(len, limit), t, |len|);
      DepthStep(g, len, limit, t);
      FatherCounts(g, Level(len, limit), t, |len|);
    }
  }

  lemma FatherCounts(g: Shape, f: Measure, t: nat, n: nat)
    requires Merged(g) && t < |g.pairs| && n >= g.elems + |g.pairs|
    ensures Sum(Active(g, t + 1), f, n) >= Of(f, g.elems + t)
  {
    hide Active, Sum, Of;
    ActiveStep(g, t);
    SumRemove(Active(g, t + 1), g.elems + t, f, n);
  }

  // With nothing cut off, the cost of the depths is the cost of the merges.
  lemma {:induction false} DepthsCost(g: Shape, w: seq<nat>, len: seq<nat>, limit: nat, t: nat)
    requires Merged(g) && Weighs(g, w) && Depths(g, len, limit) && t <= |g.pairs| == |g.leaves| - 1
    requires |w| == |len| && Over(g, len, limit, t) == 0
    ensures Cost(Active(g, t), w, len) + MadeWeight(g, w, t) == MadeWeight(g, w, |g.pairs|)
    decreases |g.pairs| - t
  {
    hide Sum, Mul, Active;
    var f := Weighted(w, len);
    if t == |g.pairs| {
      OneRoot(g);
      SumOne(g.elems + t - 1, f, |len|);
      MulZero(w[g.elems + t - 1]);
    } else {
      DepthStep(g, len, limit, t);
      DepthsCost(g, w, len, limit, t + 1);
      SumSplit(g, f, t, |len|);
      assert WeighsAt(g, w, t);
      MulSplit(w[g.pairs[t].0], w[g.pairs[t].1], len[g.elems + t]);
    }
  }

  lemma MulZero(a: nat)
    ensures Mul(a, 0) == 0
  {
  }
}
