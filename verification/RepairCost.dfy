// trees.c: what the repair of over-long codes in gen_bitlen() can cost. The
// repaired lengths are not always the best ones within the limit, but they
// never cost more than a code in which all symbols have the same length.
module RepairCost {
  import opened Bits
  import opened Huffman
  import opened HuffmanShape

  // ---- Sums over sets ----

  lemma {:induction false} SumPairs(s: set<nat>, a: Measure, b: Measure, c: Measure, e: Measure, n: nat)
    requires forall x :: x in s && x < n ==> Of(a, x) + Of(b, x) <= Of(c, x) + Of(e, x)
    ensures Sum(s, a, n) + Sum(s, b, n) <= Sum(s, c, n) + Sum(s, e, n)
  {
    if n > 0 {
      hide Of;
      SumPairs(s, a, b, c, e, n - 1);
    }
  }

  lemma {:induction false} SumLess(s: set<nat>, a: Measure, b: Measure, n: nat)
    requires forall x :: x in s && x < n ==> Of(a, x) <= Of(b, x)
    ensures Sum(s, a, n) <= Sum(s, b, n)
  {
    if n > 0 {
      hide Of;
      SumLess(s, a, b, n - 1);
    }
  }

  lemma {:induction false} SumParts(s: set<nat>, part: set<nat>, f: Measure, n: nat)
    requires part <= s
    ensures Sum(s, f, n) == Sum(s - part, f, n) + Sum(part, f, n)
  {
    if n > 0 {
      hide Of;
      SumParts(s, part, f, n - 1);
    }
  }

  lemma SumMember(s: set<nat>, x: nat, f: Measure, n: nat)
    requires x in s && x < n
    ensures Of(f, x) <= Sum(s, f, n)
  {
    hide Of, Sum;
    SumRemove(s, x, f, n);
  }

  lemma {:induction false} SumLevel(s: set<nat>, l: seq<nat>, b: nat, n: nat) returns (x: nat)
    requires n <= |l| && Sum(s, Level(l, b), n) > 0
    ensures x in s && x < n && l[x] == b
  {
    if n - 1 in s && l[n - 1] == b {
      x := n - 1;
    } else {
      x := SumLevel(s, l, b, n - 1);
    }
  }

  // ---- Depths that are not cut off ----

  // All depths of the tree, for a limit that no node reaches.
  ghost predicate FullDepths(g: Shape, d: seq<nat>, limit: nat) {
    |g.pairs| <= limit && Depths(g, d, limit) && Over(g, d, limit, 0) == 0
  }

  ghost predicate DepthsFrom(g: Shape, d: seq<nat>, limit: nat, t: nat)
    requires t <= |g.pairs|
  {
    && |d| >= g.elems + |g.pairs| && |g.pairs| >= 1 && d[g.elems + |g.pairs| - 1] == 0
    && (forall u :: t <= u < |g.pairs| ==> DepthAt(g, d, limit, u))
    && Over(g, d, limit, t) == 0
    && (forall x :: x in Active(g, t) ==> x < |d| && d[x] + t <= |g.pairs|)
  }

  lemma {:induction false} OverSame(g: Shape, d: seq<nat>, e: seq<nat>, limit: nat, t: nat)
    requires t <= |g.pairs| && |d| == |e| >= g.elems + |g.pairs|
    requires forall x :: g.elems + t <= x < g.elems + |g.pairs| ==> d[x] == e[x]
    ensures Over(g, d, limit, t) == Over(g, e, limit, t)
    decreases |g.pairs| - t
  {
    if t < |g.pairs| { OverSame(g, d, e, limit, t + 1); }
  }

  lemma {:induction false} DepthsExist(g: Shape, limit: nat, n: nat, t: nat) returns (d: seq<nat>)
    requires Merged(g) && t <= |g.pairs| == |g.leaves| - 1 && 1 <= |g.pairs| <= limit && n >= g.elems + |g.pairs|
    ensures |d| == n && DepthsFrom(g, d, limit, t)
    decreases |g.pairs| - t
  {
    hide Active, Merged;
    if t == |g.pairs| {
      d := seq(n, i => 0);
      OneRoot(g);
    } else {
      var e := DepthsExist(g, limit, n, t + 1);
      ActiveStep(g, t);
      var (a, b) := g.pairs[t];
      var p := g.elems + t;
      d := e[a := e[p] + 1][b := e[p] + 1];
      NewDepths(g, e, d, limit, t);
    }
  }

  lemma NewDepths(g: Shape, e: seq<nat>, d: seq<nat>, limit: nat, t: nat)
    requires Merged(g) && t < |g.pairs| == |g.leaves| - 1 && 1 <= |g.pairs| <= limit && DepthsFrom(g, e, limit, t + 1)
    requires var (a, b) := g.pairs[t]; a < |e| && b < |e| && d == e[a := e[g.elems + t] + 1][b := e[g.elems + t] + 1]
    ensures DepthsFrom(g, d, limit, t)
  {
    hide Active, Merged;
    var (a, b) := g.pairs[t];
    ActiveStep(g, t);
    assert e[g.elems + t] + t + 1 <= |g.pairs|;
    forall u | t <= u < |g.pairs| ensures DepthAt(g, d, limit, u) {
      if t < u {
        PairsDistinct(g, t, u);
        assert DepthAt(g, e, limit, u);
      }
    }
    OverSame(g, d, e, limit, t + 1);
    forall x | x in Active(g, t) ensures x < |d| && d[x] + t <= |g.pairs| {
      assert x in Active(g, t + 1) || x == a || x == b;
    }
  }

  lemma FullDepthsExist(g: Shape, limit: nat, n: nat) returns (d: seq<nat>)
    requires Merged(g) && |g.pairs| == |g.leaves| - 1 && 1 <= |g.pairs| <= limit && n >= g.elems + |g.pairs|
    ensures |d| == n && FullDepths(g, d, limit) && forall x :: x in g.leaves ==> x < |d| && d[x] <= |g.pairs|
  {
    d := DepthsExist(g, limit, n, 0);
  }

  // Lengths cut off at m are these depths, cut off at m.
  lemma {:induction false} ClampedDepths(g: Shape, d: seq<nat>, limit: nat, len: seq<nat>, m: nat, t: nat)
    requires Merged(g) && t <= |g.pairs| == |g.leaves| - 1 && FullDepths(g, d, limit) && Depths(g, len, m)
    ensures Over(g, d, limit, t) == 0
    ensures forall x :: x in Active(g, t) ==> x < |d| && x < |len| && len[x] == Clamp(d[x], m)
    decreases |g.pairs| - t
  {
    NoneOver(g, d, limit, t);
    hide Active, Over;
    if t == |g.pairs| {
      OneRoot(g);
    } else {
      ClampedDepths(g, d, limit, len, m, t + 1);
      ActiveStep(g, t);
      DepthStep(g, d, limit, t);
      assert DepthAt(g, len, m, t) && DepthAt(g, d, limit, t);
      forall x | x in Active(g, t) ensures x < |d| && x < |len| && len[x] == Clamp(d[x], m) {
        assert x in Active(g, t + 1) || x == g.pairs[t].0 || x == g.pairs[t].1;
      }
    }
  }

  lemma {:induction false} NoneOver(g: Shape, d: seq<nat>, limit: nat, t: nat)
    requires t <= |g.pairs| && |d| >= g.elems + |g.pairs| && Over(g, d, limit, 0) == 0
    ensures Over(g, d, limit, t) == 0
  {
    if t > 0 { NoneOver(g, d, limit, t - 1); }
  }

  // ---- Lengths under repair ----

  // Symbols of s at depths d have lengths that the limit m and the repair have
  // changed: longer ones where the depth is within the limit.
  ghost predicate Limited(s: set<nat>, d: seq<nat>, len: seq<nat>, m: nat) {
    |d| == |len| && forall x :: x in s ==> x < |d| && 1 <= d[x] && 1 <= len[x] <= m && (d[x] <= m ==> d[x] <= len[x])
  }

  // Symbols from below the limit that the repair has moved up from it.
  ghost function Hung(s: set<nat>, d: seq<nat>, len: seq<nat>, m: nat): set<nat> {
    set y | y in s && y < |d| && y < |len| && d[y] > m && len[y] < m
  }

  // They hang beside the symbol x that was moved down last, at its level or
  // under it, and share a code space as large as that of x.
  ghost predicate Opened(s: set<nat>, d: seq<nat>, len: seq<nat>, m: nat, k: nat, x: nat) {
    && x in s && x < |d| && x < |len| && d[x] < len[x] < m <= k
    && (forall z :: z in s && z < |d| && z < |len| && d[z] <= m && len[z] < m ==> len[z] <= len[x])
    && (forall y :: y in Hung(s, d, len, m) && y < |len| ==> len[y] >= len[x])
    && Sum(Hung(s, d, len, m), Units(len, k), |len|) <= Pow2(k - len[x])
  }

  ghost predicate Orderly(s: set<nat>, d: seq<nat>, len: seq<nat>, m: nat, k: nat) {
    Limited(s, d, len, m) && (Hung(s, d, len, m) == {} || exists x: nat :: Opened(s, d, len, m, k, x))
  }

  // Both are prefix codes, but the lengths may still be too short.
  ghost predicate Codes(s: set<nat>, d: seq<nat>, len: seq<nat>, m: nat, k: nat) {
    && m <= k && |d| == |len| && (forall x :: x in s ==> x < |d| && d[x] + m <= k)
    && Sum(s, Units(d, k), |d|) == Pow2(k) <= Sum(s, Units(len, k), |len|)
  }

  lemma UnitsLess(d: nat, l: nat, k: nat)
    requires d <= l <= k
    ensures Pow2(k - l) <= Pow2(k - d)
    ensures d < l ==> 2 * Pow2(k - l) <= Pow2(k - d)
  {
    Pow2Mono(k - l, k - d);
  }

  lemma HungIs(s: set<nat>, d: seq<nat>, len: seq<nat>, m: nat)
    requires Limited(s, d, len, m)
    ensures Hung(s, d, len, m) <= s
    ensures forall x :: x in s ==> (x in Hung(s, d, len, m) <==> d[x] > m && len[x] < m)
  {
  }

  // While the lengths are too short some symbol from below the limit is at it.
  lemma StillAtLimit(s: set<nat>, d: seq<nat>, len: seq<nat>, m: nat, k: nat) returns (y: nat)
    requires Orderly(s, d, len, m, k) && Codes(s, d, len, m, k) && Sum(s, Units(len, k), |len|) > Pow2(k)
    ensures y in s && d[y] > m && len[y] == m
  {
    if forall v :: v in s && d[v] > m ==> len[v] != m {
      HungIs(s, d, len, m);
      NoneAtLimit(s, d, len, m, k, Hung(s, d, len, m));
    }
    y :| y in s && d[y] > m && len[y] == m;
  }

  lemma NoneAtLimit(s: set<nat>, d: seq<nat>, len: seq<nat>, m: nat, k: nat, h: set<nat>)
    requires Orderly(s, d, len, m, k) && Codes(s, d, len, m, k) && h == Hung(s, d, len, m)
    requires forall x :: x in s ==> (x in h <==> d[x] > m)
    ensures Sum(s, Units(len, k), |len|) <= Pow2(k)
  {
    HungIs(s, d, len, m);
    hide Sum, Pow2, Hung;
    var n := |len|;
    SumParts(s, h, Units(len, k), n);
    SumParts(s, h, Units(d, k), n);
    forall x | x in s - h ensures Of(Units(len, k), x) <= Of(Units(d, k), x) {
      UnitsLess(d[x], len[x], k);
    }
    if h == {} {
      SumLess(s - h, Units(len, k), Units(d, k), n);
      SumEmpty(h, Units(len, k), n);
    } else {
      var x: nat :| Opened(s, d, len, m, k, x);
      SumRemove(s - h, x, Units(len, k), n);
      SumRemove(s - h, x, Units(d, k), n);
      SumLess(s - h - {x}, Units(len, k), Units(d, k), n);
      UnitsLess(d[x], len[x], k);
    }
  }

  // ---- One repair ----

  // Move z from level b down to level b + 1 and y from the limit beside it.
  function MoveDown(len: seq<nat>, z: nat, y: nat, b: nat): (r: seq<nat>)
    requires z < |len| && y < |len|
    ensures |r| == |len|
  {
    len[z := b + 1][y := b + 1]
  }

  // Which symbol of level b to move: one from below the limit, if there is one.
  lemma Movable(s: set<nat>, d: seq<nat>, len: seq<nat>, m: nat, k: nat, b: nat, x0: nat) returns (z: nat)
    requires Orderly(s, d, len, m, k) && b < m && x0 in s && len[x0] == b
    requires forall i :: i in s ==> len[i] <= b || len[i] == m
    ensures z in s && len[z] == b && (d[z] > m || Hung(s, d, len, m) == {})
  {
    HungIs(s, d, len, m);
    hide Hung, Sum;
    z := x0;
    if d[x0] <= m && Hung(s, d, len, m) != {} {
      var x: nat :| Opened(s, d, len, m, k, x);
      z :| z in Hung(s, d, len, m);
    }
  }

  lemma MovedLimited(s: set<nat>, d: seq<nat>, len: seq<nat>, m: nat, z: nat, y: nat, b: nat)
    requires Limited(s, d, len, m) && z in s && y in s && len[z] == b < m && d[y] > m && len[y] == m
    ensures Limited(s, d, MoveDown(len, z, y, b), m)
  {
  }

  // A symbol from below the limit is moved down again: the code space of those
  // like it stays the same, or shrinks when they reach the limit.
  lemma MoveHung(s: set<nat>, d: seq<nat>, len: seq<nat>, m: nat, k: nat, z: nat, y: nat, b: nat, x: nat)
    requires Limited(s, d, len, m) && Opened(s, d, len, m, k, x)
    requires z in s && y in s && len[z] == b < m && d[z] > m && d[y] > m && len[y] == m
    ensures var r := MoveDown(len, z, y, b); Hung(s, d, r, m) == {} || Opened(s, d, r, m, k, x)
  {
    var r := MoveDown(len, z, y, b);
    var h, n := Hung(s, d, len, m), |len|;
    HungIs(s, d, len, m);
    MovedLimited(s, d, len, m, z, y, b);
    HungIs(s, d, r, m);
    hide Hung, Sum, Pow2;
    SumRemove(h, z, Units(len, k), n);
    SumSame(h - {z}, Units(len, k), Units(r, k), n);
    if b + 1 == m {
      assert Hung(s, d, r, m) == h - {z};
    } else {
      assert Hung(s, d, r, m) == h - {z} + {z} + {y};
      SumAdd(h - {z}, z, Units(r, k), n);
      SumAdd(h - {z} + {z}, y, Units(r, k), n);
      assert Pow2(k - b) == 2 * Pow2(k - (b + 1));
    }
  }

  // Another symbol is moved down, when nothing hangs.
  lemma MoveOther(s: set<nat>, d: seq<nat>, len: seq<nat>, m: nat, k: nat, z: nat, y: nat, b: nat)
    requires Limited(s, d, len, m) && Hung(s, d, len, m) == {} && m <= k
    requires z in s && y in s && len[z] == b < m && d[z] <= m && d[y] > m && len[y] == m
    requires forall i :: i in s ==> len[i] <= b || len[i] == m
    ensures var r := MoveDown(len, z, y, b); Hung(s, d, r, m) == {} || Opened(s, d, r, m, k, z)
  {
    var r := MoveDown(len, z, y, b);
    HungIs(s, d, len, m);
    MovedLimited(s, d, len, m, z, y, b);
    HungIs(s, d, r, m);
    hide Hung, Sum, Pow2;
    if b + 1 < m {
      assert Hung(s, d, r, m) == {y};
      SumOne(y, Units(r, k), |len|);
    } else {
      assert Hung(s, d, r, m) == {};
    }
  }

  lemma RepairLens(s: set<nat>, d: seq<nat>, len: seq<nat>, m: nat, k: nat, b: nat, x0: nat) returns (z: nat, y: nat)
    requires Orderly(s, d, len, m, k) && Codes(s, d, len, m, k) && Sum(s, Units(len, k), |len|) > Pow2(k)
    requires b < m && x0 in s && len[x0] == b && forall i :: i in s ==> len[i] <= b || len[i] == m
    ensures z in s && y in s && z != y && len[z] == b && len[y] == m
    ensures Orderly(s, d, MoveDown(len, z, y, b), m, k)
  {
    y := StillAtLimit(s, d, len, m, k);
    z := Movable(s, d, len, m, k, b, x0);
    HungIs(s, d, len, m);
    hide Hung, Sum, Pow2, Codes, Opened;
    MovedLimited(s, d, len, m, z, y, b);
    var r := MoveDown(len, z, y, b);
    if d[z] > m {
      assert z in Hung(s, d, len, m);
      var x: nat :| Opened(s, d, len, m, k, x);
      MoveHung(s, d, len, m, k, z, y, b, x);
    } else {
      assert m <= k by { CodesFit(s, d, len, m, k); }
      MoveOther(s, d, len, m, k, z, y, b);
    }
  }

  lemma CodesFit(s: set<nat>, d: seq<nat>, len: seq<nat>, m: nat, k: nat)
    requires Codes(s, d, len, m, k)
    ensures m <= k
  {
  }

  // ---- What the repaired lengths cost ----

  // The depths less the lengths, and t bits more: lengths of a prefix code.
  function Traded(d: seq<nat>, len: seq<nat>, t: nat): (l: seq<nat>)
    requires |d| == |len|
    ensures |l| == |d| && forall x :: 0 <= x < |l| ==> l[x] == if t + d[x] >= len[x] then t + d[x] - len[x] else 0
  {
    seq(|d|, x requires 0 <= x < |d| => if t + d[x] >= len[x] then t + d[x] - len[x] else 0)
  }

  // Its Kraft sum, in units of 2 to the m - k - t.
  function Growth(d: seq<nat>, len: seq<nat>, m: nat, k: nat): (v: seq<nat>)
    requires |d| == |len| && m <= k
    ensures |v| == |d| && forall x :: 0 <= x < |v| ==> v[x] == if d[x] <= k - m + len[x] then Pow2(k - m + len[x] - d[x]) else 0
  {
    seq(|d|, x requires 0 <= x < |d| => if d[x] <= k - m + len[x] then Pow2(k - m + len[x] - d[x]) else 0)
  }

  function Flat(v: nat, n: nat): (l: seq<nat>)
    ensures |l| == n && forall x :: 0 <= x < n ==> l[x] == v
  {
    seq(n, x => v)
  }

  lemma {:induction false} PowersMix(b: nat, a: nat, e: nat)
    ensures Pow2(b + a) + Pow2(b + e) <= Pow2(b + a + e) + Pow2(b)
    ensures a >= 1 ==> Pow2(b + a) + 2 * Pow2(b + e) <= Pow2(b + a + e) + 2 * Pow2(b)
  {
    if e > 0 {
      PowersMix(b, a, e - 1);
      Pow2Mono(b + e - 1, b + a + e - 1);
      assert Pow2(b + a + e) == 2 * Pow2(b + a + e - 1) && Pow2(b + e) == 2 * Pow2(b + e - 1);
    }
  }

  lemma {:induction false} SumFlat(s: set<nat>, v: nat, n: nat)
    requires Below(s, n)
    ensures Sum(s, Plain(Flat(v, n)), n) == Mul(|s|, v)
    decreases |s|
  {
    hide Sum, Mul, Flat;
    if s == {} {
      SumEmpty(s, Plain(Flat(v, n)), n);
      assert Mul(0, v) == 0 by { MulOne(0, v); }
    } else {
      var x :| x in s;
      SumRemove(s, x, Plain(Flat(v, n)), n);
      SumFlat(s - {x}, v, n);
      assert Flat(v, n)[x] == v;
      MulOne(|s - {x}|, v);
    }
  }

  lemma MulOne(a: nat, b: nat)
    ensures Mul(0, b) == 0 && Mul(a + 1, b) == Mul(a, b) + b
  {
  }

  lemma TermOf(d: nat, l: nat, m: nat, k: nat)
    requires d <= l <= m <= k && d + m <= k
    ensures Pow2(k - m + l - d) + Pow2(k - l) <= Pow2(k - d) + Pow2(k - m)
    ensures d < l ==> Pow2(k - m + l - d) + 2 * Pow2(k - l) <= Pow2(k - d) + 2 * Pow2(k - m)
  {
    PowersMix(k - m, l - d, m - l);
  }

  lemma HungTerm(d: nat, l: nat, m: nat, k: nat)
    requires l <= m < d && d + m <= k
    ensures Pow2(k - m + l - d) <= Pow2(k - d)
  {
    Pow2Mono(k - m + l - d, k - d);
  }

  // Term by term: what is gained is paid for by the symbol moved down last.
  lemma GrowthTerms(s: set<nat>, d: seq<nat>, len: seq<nat>, m: nat, k: nat)
    requires Limited(s, d, len, m) && Codes(s, d, len, m, k)
    ensures var a, b, c, e := Plain(Growth(d, len, m, k)), Units(d, k), Units(len, k), Plain(Flat(Pow2(k - m), |d|));
      && (forall x :: x in s && x !in Hung(s, d, len, m) ==> Of(a, x) + Of(c, x) <= Of(b, x) + Of(e, x))
      && (forall x :: x in Hung(s, d, len, m) ==> Of(a, x) <= Of(b, x))
      && (forall x :: x in s && d[x] < len[x] < m ==> Of(a, x) + 2 * Of(c, x) <= Of(b, x) + 2 * Of(e, x))
  {
    HungIs(s, d, len, m);
    hide Sum, Pow2, Hung;
    var a, b, c, e := Plain(Growth(d, len, m, k)), Units(d, k), Units(len, k), Plain(Flat(Pow2(k - m), |d|));
    forall x | x in s && x !in Hung(s, d, len, m) ensures Of(a, x) + Of(c, x) <= Of(b, x) + Of(e, x) {
      if d[x] <= m { TermOf(d[x], len[x], m, k); } else { HungTerm(d[x], len[x], m, k); }
    }
    forall x | x in Hung(s, d, len, m) ensures Of(a, x) <= Of(b, x) {
      HungTerm(d[x], len[x], m, k);
    }
    forall x | x in s && d[x] < len[x] < m ensures Of(a, x) + 2 * Of(c, x) <= Of(b, x) + 2 * Of(e, x) {
      TermOf(d[x], len[x], m, k);
    }
  }

  lemma GrowthSum(s: set<nat>, d: seq<nat>, len: seq<nat>, m: nat, k: nat)
    requires Orderly(s, d, len, m, k) && Codes(s, d, len, m, k) && Sum(s, Units(len, k), |len|) == Pow2(k)
    ensures Sum(s, Plain(Growth(d, len, m, k)), |d|) <= Mul(|s|, Pow2(k - m))
  {
    var h, n, u := Hung(s, d, len, m), |d|, Flat(Pow2(k - m), |d|);
    var a, b, c, e := Plain(Growth(d, len, m, k)), Units(d, k), Units(len, k), Plain(u);
    HungIs(s, d, len, m);
    GrowthTerms(s, d, len, m, k);
    SumFlat(s, Pow2(k - m), n);
    hide Sum, Pow2, Hung, Mul, Growth, Flat;
    SumParts(s, h, a, n);
    SumParts(s, h, b, n);
    SumParts(s, h, c, n);
    SumParts(s, h, e, n);
    SumLess(h, a, b, n);
    if h == {} {
      SumPairs(s - h, a, c, b, e, n);
      SumEmpty(h, c, n);
    } else {
      var x: nat :| Opened(s, d, len, m, k, x);
      HungUnit(h, u, n, k - m);
      OneMore(s - h, x, a, b, c, e, n);
      assert Of(c, x) == Pow2(k - len[x]) && Of(e, x) == Pow2(k - m) by { UnitHere(len, u, x, m, k); }
    }
  }

  lemma UnitHere(len: seq<nat>, u: seq<nat>, x: nat, m: nat, k: nat)
    requires x < |len| == |u| && len[x] <= k && m <= k && u == Flat(Pow2(k - m), |u|)
    ensures Of(Units(len, k), x) == Pow2(k - len[x]) && Of(Plain(u), x) == Pow2(k - m)
  {
  }

  lemma OneMore(s: set<nat>, x: nat, a: Measure, b: Measure, c: Measure, e: Measure, n: nat)
    requires x in s && x < n && forall y :: y in s ==> Of(a, y) + Of(c, y) <= Of(b, y) + Of(e, y)
    requires Of(a, x) + 2 * Of(c, x) <= Of(b, x) + 2 * Of(e, x)
    ensures Sum(s, a, n) + Sum(s, c, n) + Of(c, x) <= Sum(s, b, n) + Sum(s, e, n) + Of(e, x)
  {
    hide Sum, Of;
    SumPairs(s - {x}, a, c, b, e, n);
    SumRemove(s, x, a, n);
    SumRemove(s, x, b, n);
    SumRemove(s, x, c, n);
    SumRemove(s, x, e, n);
  }

  lemma HungUnit(h: set<nat>, u: seq<nat>, n: nat, b: nat)
    requires h != {} && Below(h, n) && u == Flat(Pow2(b), n)
    ensures Sum(h, Plain(u), n) >= Pow2(b)
  {
    hide Sum, Pow2;
    var y :| y in h;
    SumMember(h, y, Plain(u), n);
  }

  lemma GrowthAt(s: set<nat>, d: seq<nat>, len: seq<nat>, m: nat, k: nat, t: nat, x: nat)
    requires Limited(s, d, len, m) && Codes(s, d, len, m, k) && x in s
    requires Sum(s, Plain(Growth(d, len, m, k)), |d|) <= Pow2(k - m + t)
    ensures len[x] <= t + d[x] && Traded(d, len, t)[x] <= k - m + t
    ensures Of(Plain(Growth(d, len, m, k)), x) == Of(Units(Traded(d, len, t), k - m + t), x)
  {
    hide Sum, Pow2;
    var v, l := Growth(d, len, m, k), Traded(d, len, t);
    SumMember(s, x, Plain(v), |d|);
    TradedUnit(d[x], len[x], m, k, t, v[x], l[x]);
  }

  lemma PrefixBySum(s: set<nat>, l: seq<nat>, v: seq<nat>, j: nat)
    requires Below(s, |l|) && (forall x :: x in s ==> x < |l| && l[x] <= j && Of(Plain(v), x) == Of(Units(l, j), x))
    requires Sum(s, Plain(v), |l|) <= Pow2(j)
    ensures PrefixLengths(s, l, j)
  {
    hide Sum, Pow2, Of;
    SumSame(s, Plain(v), Units(l, j), |l|);
  }

  lemma OrderlyParts(s: set<nat>, d: seq<nat>, len: seq<nat>, m: nat, k: nat)
    requires Orderly(s, d, len, m, k) && Codes(s, d, len, m, k)
    ensures Limited(s, d, len, m) && |d| == |len| && m <= k && forall x :: x in s ==> x < |d|
  {
  }

  lemma GrowthAll(s: set<nat>, d: seq<nat>, len: seq<nat>, m: nat, k: nat, t: nat)
    requires Limited(s, d, len, m) && Codes(s, d, len, m, k)
    requires Sum(s, Plain(Growth(d, len, m, k)), |d|) <= Pow2(k - m + t)
    ensures forall x :: x in s ==> len[x] <= t + d[x]
    ensures PrefixLengths(s, Traded(d, len, t), k - m + t)
  {
    var v, l, j := Growth(d, len, m, k), Traded(d, len, t), k - m + t;
    forall x | x in s ensures len[x] <= t + d[x] && l[x] <= j && Of(Plain(v), x) == Of(Units(l, j), x) {
      GrowthAt(s, d, len, m, k, t, x);
    }
    hide Sum, Pow2, Of, Growth, Traded;
    PrefixBySum(s, l, v, j);
  }

  // So t bits are enough to keep these lengths positive, and to fit the code.
  lemma TradedPrefix(s: set<nat>, d: seq<nat>, len: seq<nat>, m: nat, k: nat, t: nat)
    requires Orderly(s, d, len, m, k) && Codes(s, d, len, m, k) && Sum(s, Units(len, k), |len|) == Pow2(k) && |s| <= Pow2(t)
    ensures |d| == |len| && m <= k && forall x :: x in s ==> x < |d| && len[x] <= t + d[x]
    ensures PrefixLengths(s, Traded(d, len, t), k - m + t)
  {
    OrderlyParts(s, d, len, m, k);
    hide *;
    GrowthSum(s, d, len, m, k);
    MulPow2(|s|, k - m, t);
    GrowthAll(s, d, len, m, k, t);
  }

  lemma TradedUnit(d: nat, l: nat, m: nat, k: nat, t: nat, v: nat, r: nat)
    requires m <= k && d + m <= k && v == Pow2(k - m + l - d) <= Pow2(k - m + t)
    requires r == if t + d >= l then t + d - l else 0
    ensures l <= t + d && r <= k - m + t && v == Pow2(k - m + t - r)
  {
    hide Pow2;
    if t + d < l { Pow2Mono(k - m + t, k - m + l - d); }
  }

  lemma {:induction false} MulPow2(a: nat, b: nat, t: nat)
    requires a <= Pow2(t)
    ensures Mul(a, Pow2(b)) <= Pow2(b + t)
    decreases b
  {
    if b > 0 {
      MulPow2(a, b - 1, t);
      assert a * (2 * Pow2(b - 1)) == 2 * (a * Pow2(b - 1));
    }
  }

  lemma TradedTerm(w: nat, d: nat, l: nat, t: nat)
    requires l <= t + d
    ensures Mul(w, t + d - l) + Mul(w, l) == Mul(w, d) + Mul(w, t)
  {
    assert w * (t + d - l) + w * l == w * (t + d);
  }

  lemma {:induction false} PlainIsFlat(s: set<nat>, w: seq<nat>, t: nat, n: nat)
    requires n <= |w|
    ensures Sum(s, Weighted(w, Flat(t, |w|)), n) == Mul(t, Sum(s, Plain(w), n))
  {
    if n == 0 {
      assert Mul(t, 0) == 0;
    } else {
      PlainIsFlat(s, w, t, n - 1);
      var a, b := Sum(s, Plain(w), n - 1), w[n - 1];
      assert t * (a + b) == t * a + b * t;
    }
  }

  // Repaired lengths cost no more than t bits for every symbol, if that many
  // codes of t bits exist.
  lemma RepairedCost(g: Shape, w: seq<nat>, d: seq<nat>, len: seq<nat>, m: nat, k: nat, t: nat)
    requires Merged(g) && Weighs(g, w) && Greedy(g, w) && |g.pairs| == |g.leaves| - 1 && |d| == |len| == |w|
    requires FullDepths(g, d, k) && Orderly(g.leaves, d, len, m, k) && Codes(g.leaves, d, len, m, k)
    requires Sum(g.leaves, Units(len, k), |len|) == Pow2(k) && |g.leaves| <= Pow2(t)
    ensures Cost(g.leaves, w, len) <= Mul(t, Sum(g.leaves, Plain(w), |w|))
  {
    hide Sum, Pow2, Mul, Merged, Weighs, Greedy, Depths, Orderly, Codes, Over, Below, Active;
    var s, l, n := g.leaves, Traded(d, len, t), |w|;
    TradedPrefix(s, d, len, m, k, t);
    HuffmanOptimal(g, w, l, k - m + t) by { CodesFit(s, d, len, m, k); }
    FullCost(g, w, d, k);
    forall x | x in s && x < n
      ensures Of(Weighted(w, l), x) + Of(Weighted(w, len), x) <= Of(Weighted(w, d), x) + Of(Weighted(w, Flat(t, n)), x)
    {
      TradedTerm(w[x], d[x], len[x], t);
    }
    SumPairs(s, Weighted(w, l), Weighted(w, len), Weighted(w, d), Weighted(w, Flat(t, n)), n);
    PlainIsFlat(s, w, t, n);
  }

  lemma FullCost(g: Shape, w: seq<nat>, d: seq<nat>, k: nat)
    requires Merged(g) && Weighs(g, w) && |g.pairs| == |g.leaves| - 1 && |w| == |d| && FullDepths(g, d, k)
    ensures Cost(g.leaves, w, d) == MadeWeight(g, w, |g.pairs|)
  {
    DepthsCost(g, w, d, k, 0);
  }

  // ---- Handing the lengths out by frequency ----

  // A symbol that occurs less often never has a shorter code.
  ghost predicate RarerNoShorter(s: set<nat>, w: seq<nat>, len: seq<nat>) {
    forall x, y :: x in s && y in s && x < |w| && y < |w| && x < |len| && y < |len| && w[x] < w[y] ==> len[x] >= len[y]
  }

  ghost predicate SameLevels(s: set<nat>, a: seq<nat>, b: seq<nat>, n: nat) {
    forall i: nat :: Sum(s, Level(a, i), n) == Sum(s, Level(b, i), n)
  }

  // The lightest of the symbols with the longest code.
  lemma {:induction false} LightestLongest(s: set<nat>, w: seq<nat>, a: seq<nat>, n: nat) returns (x: nat)
    requires Below(s, n) && n <= |a| && n <= |w| && s != {} && RarerNoShorter(s, w, a)
    ensures x in s && (forall y :: y in s ==> a[y] <= a[x] && w[x] <= w[y])
    decreases n
  {
    if s == {n - 1} {
      x := n - 1;
    } else if n - 1 in s {
      x := LightestLongest(s - {n - 1}, w, a, n - 1);
      if a[x] < a[n - 1] || (a[x] == a[n - 1] && w[n - 1] < w[x]) { x := n - 1; }
    } else {
      x := LightestLongest(s, w, a, n - 1);
    }
  }

  lemma AtLevel(s: set<nat>, a: seq<nat>, b: seq<nat>, n: nat, x: nat) returns (z: nat)
    requires SameLevels(s, a, b, n) && n <= |a| && n <= |b| && x in s && x < n
    ensures z in s && z < n && b[z] == a[x]
  {
    hide Sum;
    SumMember(s, x, Level(a, a[x]), n);
    z := SumLevel(s, b, a[x], n);
  }

  // Of all ways to hand out the same lengths, the one that gives the longer
  // ones to the rarer symbols costs least.
  lemma {:induction false} RarerCheapest(s: set<nat>, w: seq<nat>, a: seq<nat>, b: seq<nat>, n: nat)
    requires Below(s, n) && n <= |w| && n <= |a| && n <= |b| && RarerNoShorter(s, w, a) && SameLevels(s, a, b, n)
    ensures Sum(s, Weighted(w, a), n) <= Sum(s, Weighted(w, b), n)
    decreases |s|
  {
    hide Sum, Mul, SameLevels;
    if s == {} {
      SumEmpty(s, Weighted(w, a), n);
    } else {
      var x := LightestLongest(s, w, a, n);
      var z := AtLevel(s, a, b, n, x);
      var v := AtLevel(s, b, a, n, x) by { LevelsBack(s, a, b, n); }
      var c := b[x := b[z]][z := b[x]];
      MulSwap(w[x], w[z], b[x], b[z]);
      if x == z { assert c == b; } else { SumSwapped(s, z, x, Weighted(w, b), Weighted(w, c), n); }
      SwapLevels(s, a, b, c, n, x, z);
      SumRemove(s, x, Weighted(w, a), n);
      SumRemove(s, x, Weighted(w, c), n);
      RarerCheapest(s - {x}, w, a, c, n);
    }
  }

  lemma LevelsBack(s: set<nat>, a: seq<nat>, b: seq<nat>, n: nat)
    requires SameLevels(s, a, b, n)
    ensures SameLevels(s, b, a, n)
  {
  }

  lemma SwapLevels(s: set<nat>, a: seq<nat>, b: seq<nat>, c: seq<nat>, n: nat, x: nat, z: nat)
    requires SameLevels(s, a, b, n) && Below(s, n) && n <= |a| && n <= |b| && x in s && z in s
    requires b[z] == a[x] && c == b[x := b[z]][z := b[x]]
    ensures SameLevels(s - {x}, a, c, n)
  {
    hide Sum;
    forall i: nat ensures Sum(s - {x}, Level(a, i), n) == Sum(s - {x}, Level(c, i), n) {
      if x == z { assert c == b; } else { SumSwapped(s, z, x, Level(b, i), Level(c, i), n); }
      assert Sum(s, Level(a, i), n) == Sum(s, Level(b, i), n);
      SumRemove(s, x, Level(a, i), n);
      SumRemove(s, x, Level(c, i), n);
    }
  }
}
