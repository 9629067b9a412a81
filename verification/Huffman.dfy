// Huffman's algorithm on weights: repeatedly merging the two lightest nodes
// costs no more than any other prefix code. Nodes are numbers below n; a set
// of nodes stands for a forest, and sequences give each node its weight and
// its code length.
module Huffman {
  import opened Bits

  // What is summed over a set of nodes: weights; weight times length; or, for
  // lengths l, the Kraft sum in units of 2 to the -m, or the number of nodes
  // of length b.
  datatype Measure =
    | Plain(w: seq<nat>)
    | Weighted(w: seq<nat>, l: seq<nat>)
    | Units(l: seq<nat>, m: nat)
    | Level(l: seq<nat>, b: nat)

  function Mul(a: nat, b: nat): nat {
    a * b
  }

  function Of(f: Measure, x: nat): nat {
    match f
    case Plain(w) => if x < |w| then w[x] else 0
    case Weighted(w, l) => if x < |w| && x < |l| then Mul(w[x], l[x]) else 0
    case Units(l, m) => if x < |l| && l[x] <= m then Pow2(m - l[x]) else 0
    case Level(l, b) => if x < |l| && l[x] == b then 1 else 0
  }

  // The sum of f over the members of s below n.
  function Sum(s: set<nat>, f: Measure, n: nat): nat {
    if n == 0 then 0 else Sum(s, f, n - 1) + (if n - 1 in s then Of(f, n - 1) else 0)
  }

  ghost predicate Below(s: set<nat>, n: nat) {
    forall x :: x in s ==> x < n
  }

  // Sums of measures that agree on s, sets that differ in one member.
  lemma {:induction false} SumSame(s: set<nat>, f: Measure, g: Measure, n: nat)
    requires forall x :: x in s && x < n ==> Of(f, x) == Of(g, x)
    ensures Sum(s, f, n) == Sum(s, g, n)
  {
    if n > 0 { SumSame(s, f, g, n - 1); }
  }

  lemma {:induction false} SumSameSet(s: set<nat>, t: set<nat>, f: Measure, n: nat)
    requires forall x :: x < n ==> (x in s <==> x in t)
    ensures Sum(s, f, n) == Sum(t, f, n)
  {
    if n > 0 { SumSameSet(s, t, f, n - 1); }
  }

  lemma {:induction false} SumAdd(s: set<nat>, x: nat, f: Measure, n: nat)
    requires x !in s && x < n
    ensures Sum(s + {x}, f, n) == Sum(s, f, n) + Of(f, x)
  {
    if x == n - 1 {
      SumSameSet(s + {x}, s, f, n - 1);
    } else {
      SumAdd(s, x, f, n - 1);
    }
  }

  lemma SumRemove(s: set<nat>, x: nat, f: Measure, n: nat)
    requires x in s && x < n
    ensures Sum(s, f, n) == Sum(s - {x}, f, n) + Of(f, x)
  {
    SumAdd(s - {x}, x, f, n);
    assert s - {x} + {x} == s;
  }

  // Changing the measure of one member of s, or of two.
  lemma SumChange(s: set<nat>, x: nat, f: Measure, g: Measure, n: nat)
    requires x in s && x < n && forall y :: y in s && y != x ==> Of(f, y) == Of(g, y)
    ensures Sum(s, f, n) + Of(g, x) == Sum(s, g, n) + Of(f, x)
  {
    hide Sum, Of;
    SumRemove(s, x, f, n);
    SumRemove(s, x, g, n);
    SumSame(s - {x}, f, g, n);
  }

  lemma SumSwapped(s: set<nat>, a: nat, x: nat, f: Measure, g: Measure, n: nat)
    requires a in s && x in s && a != x && a < n && x < n
    requires forall y :: y in s && y != a && y != x ==> Of(f, y) == Of(g, y)
    ensures Sum(s, f, n) + Of(g, a) + Of(g, x) == Sum(s, g, n) + Of(f, a) + Of(f, x)
  {
    hide Sum, Of;
    SumRemove(s, a, f, n);
    SumRemove(s, a, g, n);
    SumChange(s - {a}, x, f, g, n);
  }

  lemma {:induction false} SumExtend(s: set<nat>, f: Measure, n: nat, m: nat)
    requires Below(s, n) && n <= m
    ensures Sum(s, f, m) == Sum(s, f, n)
    decreases m
  {
    if m > n { SumExtend(s, f, n, m - 1); }
  }

  // Replace two members a, b by a new one.
  lemma SumMerge(s: set<nat>, a: nat, b: nat, c: nat, f: Measure, n: nat)
    requires a in s && b in s && a != b && c !in s && a < n && b < n && c < n
    ensures Sum(s, f, n) + Of(f, c) == Sum(s - {a, b} + {c}, f, n) + Of(f, a) + Of(f, b)
  {
    hide Sum, Of;
    SumRemove(s, a, f, n);
    SumRemove(s - {a}, b, f, n);
    assert s - {a} - {b} == s - {a, b};
    SumAdd(s - {a, b}, c, f, n);
  }

  // The same sums written over all nodes below n.
  function Dot(w: seq<nat>, l: seq<nat>, n: nat): nat
    requires n <= |w|
  {
    if n == 0 then 0 else Dot(w, l, n - 1) + (if n - 1 < |l| then Mul(w[n - 1], l[n - 1]) else 0)
  }

  lemma {:induction false} SumIsDot(s: set<nat>, w: seq<nat>, l: seq<nat>, n: nat)
    requires n <= |w| && forall x: nat :: x < n && x !in s ==> w[x] == 0
    ensures Sum(s, Weighted(w, l), n) == Dot(w, l, n)
  {
    if n > 0 { SumIsDot(s, w, l, n - 1); }
  }

  // ---- Code lengths and their cost ----

  // Lengths that a prefix code for the members of s can have (Kraft's
  // inequality).
  ghost predicate PrefixLengths(s: set<nat>, l: seq<nat>, m: nat) {
    && Below(s, |l|)
    && (forall x :: x in s ==> l[x] <= m)
    && Sum(s, Units(l, m), |l|) <= Pow2(m)
  }

  function Cost(s: set<nat>, w: seq<nat>, l: seq<nat>): nat {
    Sum(s, Weighted(w, l), |l|)
  }

  lemma MulMono(a: nat, b: nat, c: nat)
    requires b <= c
    ensures Mul(a, b) <= Mul(a, c)
  {
  }

  lemma MulSwap(wa: nat, wx: nat, la: nat, lx: nat)
    requires wa <= wx && la <= lx
    ensures Mul(wa, lx) + Mul(wx, la) <= Mul(wa, la) + Mul(wx, lx)
  {
    var d, e := wx - wa, lx - la;
    assert wx * lx == wa * lx + d * lx;
    assert wx * la == wa * la + d * la;
    MulMono(d, la, lx);
  }

  lemma MulSplit(wa: nat, wb: nat, v: nat)
    ensures Mul(wa, v + 1) + Mul(wb, v + 1) == Mul(wa + wb, v) + wa + wb
  {
  }

  // Giving the longer of two codes to the lighter node costs no more.
  lemma SwapCheaper(s: set<nat>, w: seq<nat>, l: seq<nat>, m: nat, a: nat, x: nat)
    requires PrefixLengths(s, l, m) && |w| == |l| && a in s && x in s
    requires w[a] <= w[x] && l[a] <= l[x]
    ensures PrefixLengths(s, l[a := l[x]][x := l[a]], m)
    ensures Cost(s, w, l[a := l[x]][x := l[a]]) <= Cost(s, w, l)
  {
    hide Mul, Pow2, Sum;
    var k := l[a := l[x]][x := l[a]];
    if a == x {
      assert k == l;
    } else {
      SumSwapped(s, a, x, Units(l, m), Units(k, m), |l|);
      SumSwapped(s, a, x, Weighted(w, l), Weighted(w, k), |l|);
      MulSwap(w[a], w[x], l[a], l[x]);
    }
  }

  lemma {:induction false} Longest(s: set<nat>, l: seq<nat>, n: nat) returns (x: nat)
    requires Below(s, n) && n <= |l| && s != {}
    ensures x in s && forall y :: y in s ==> l[y] <= l[x]
    decreases n
  {
    if n - 1 in s && s != {n - 1} {
      x := Longest(s - {n - 1}, l, n - 1);
      if l[x] < l[n - 1] { x := n - 1; }
    } else if n - 1 in s {
      x := n - 1;
    } else {
      x := Longest(s, l, n - 1);
    }
  }

  // Every unit of a sum of codes no longer than k is a multiple of 2^(m-k).
  lemma {:induction false} UnitsMultiple(s: set<nat>, l: seq<nat>, m: nat, k: nat, n: nat) returns (q: nat)
    requires k <= m && n <= |l| && forall x :: x in s && x < |l| ==> l[x] <= k
    ensures Sum(s, Units(l, m), n) == Shl(q, m - k)
  {
    hide Pow2, Shl;
    if n == 0 {
      q := 0;
      ShlZero(m - k);
    } else {
      q := UnitsMultiple(s, l, m, k, n - 1);
      if n - 1 in s {
        var p := Pow2(k - l[n - 1]);
        ShlPow2(k - l[n - 1], m - k);
        ShlAdd(q, p, m - k);
        q := q + p;
      }
    }
  }

  lemma RoomToShorten(s: set<nat>, l: seq<nat>, m: nat, a: nat, k: nat)
    requires PrefixLengths(s, l, m) && a in s && k <= l[a]
    requires forall x :: x in s && x != a ==> l[x] <= k
    ensures Sum(s, Units(l, m), |l|) + Pow2(m - k) <= Pow2(m) + Pow2(m - l[a])
  {
    hide Sum, Pow2, Shl;
    SumRemove(s, a, Units(l, m), |l|);
    var q := UnitsMultiple(s - {a}, l, m, k, |l|);
    ShlPow2(k, m - k);
    ShlMono(Pow2(k), q, m - k);
    ShlMono(q, Pow2(k), m - k);
    Pow2Positive(m - l[a]);
  }

  lemma Pow2Positive(n: nat)
    ensures Pow2(n) >= 1
  {
  }

  // When the longest code is alone at its length it can be shortened to the
  // next one.
  lemma ShortenLonely(s: set<nat>, w: seq<nat>, l: seq<nat>, m: nat, a: nat, k: nat)
    requires PrefixLengths(s, l, m) && |w| == |l| && a in s && k <= l[a]
    requires forall x :: x in s && x != a ==> l[x] <= k
    ensures PrefixLengths(s, l[a := k], m)
    ensures Cost(s, w, l[a := k]) <= Cost(s, w, l)
  {
    hide Mul, Pow2, Sum, Shl;
    var j := l[a := k];
    SumChange(s, a, Units(l, m), Units(j, m), |l|);
    SumChange(s, a, Weighted(w, l), Weighted(w, j), |l|);
    MulMono(w[a], k, l[a]);
    RoomToShorten(s, l, m, a, k);
  }

  // Two codes of one length are at least one bit long.
  lemma TwoNeedABit(s: set<nat>, l: seq<nat>, m: nat, a: nat, b: nat)
    requires PrefixLengths(s, l, m) && a in s && b in s && a != b && l[a] == l[b]
    ensures l[a] >= 1
  {
    hide Sum;
    SumRemove(s, a, Units(l, m), |l|);
    SumRemove(s - {a}, b, Units(l, m), |l|);
  }

  lemma MergeLengths(s: set<nat>, w: seq<nat>, l: seq<nat>, m: nat, a: nat, b: nat, c: nat)
    requires PrefixLengths(s, l, m) && |w| == |l|
    requires c < |l| && c !in s && a in s && b in s && a != b && w[c] == w[a] + w[b]
    requires l[a] == l[b] >= 1
    ensures PrefixLengths(s - {a, b} + {c}, l[c := l[a] - 1], m)
    ensures Cost(s - {a, b} + {c}, w, l[c := l[a] - 1]) + w[c] <= Cost(s, w, l)
  {
    hide Mul, Sum;
    var v: nat := l[a] - 1;
    var k := l[c := v];
    SumSame(s, Units(l, m), Units(k, m), |l|);
    SumSame(s, Weighted(w, l), Weighted(w, k), |l|);
    SumMerge(s, a, b, c, Units(k, m), |l|);
    SumMerge(s, a, b, c, Weighted(w, k), |l|);
    MulSplit(w[a], w[b], v);
    assert Pow2(m - v) == 2 * Pow2(m - l[a]);
  }

  // The greedy step: for any code lengths on s there are code lengths, no more
  // costly, on the set in which the two lightest nodes a and b are merged into
  // c; the merge itself costs the weight of c.
  lemma MergeStep(s: set<nat>, w: seq<nat>, l: seq<nat>, m: nat, a: nat, b: nat, c: nat) returns (k: seq<nat>)
    requires PrefixLengths(s, l, m) && |w| == |l|
    requires c < |l| && c !in s && a in s && b in s && a != b && w[c] == w[a] + w[b]
    requires w[a] <= w[b] && forall x :: x in s && x != a && x != b ==> w[b] <= w[x]
    ensures |k| == |l| && PrefixLengths(s - {a, b} + {c}, k, m)
    ensures Cost(s - {a, b} + {c}, w, k) + w[c] <= Cost(s, w, l)
  {
    hide Cost, Sum, Pow2;
    var x := Longest(s, l, |l|);
    SwapCheaper(s, w, l, m, a, x);
    var l1 := l[a := l[x]][x := l[a]];
    assert b in s - {a};
    var y := Longest(s - {a}, l1, |l|);
    SwapCheaper(s, w, l1, m, b, y);
    var l2 := l1[b := l1[y]][y := l1[b]];
    ShortenLonely(s, w, l2, m, a, l2[b]);
    var l3 := l2[a := l2[b]];
    TwoNeedABit(s, l3, m, a, b);
    MergeLengths(s, w, l3, m, a, b, c);
    k := l3[c := l3[a] - 1];
  }
}
