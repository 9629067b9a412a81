// What the codes of a dynamic block can cost more than codes in which all
// lengths, and all distances, are equally likely.
module UniformCode {
  import opened Bits
  import opened CanonicalCode
  import opened Format
  import opened Huffman
  import HuffmanDepth
  import opened GenBitlen
  import opened Trees
  import StaticTrees
  import BlockCost
  import opened DynamicTrees

  // ---- The best code lengths ----

  // No prefix code for the symbols that occur, of frequencies w, makes their
  // total length less.
  ghost predicate NoneCheaper(lens: seq<nat>, w: seq<nat>) {
    forall l: seq<nat>, m: nat :: |l| == |w| && PrefixLengths(NonZero(w, |w|), l, m) ==> Dot(w, lens, |w|) <= Dot(w, l, |w|)
  }

  // A symbol with a code of j bits or more is rare.
  ghost predicate SteepLens(lens: seq<nat>, w: seq<nat>, j: nat) {
    forall s :: 0 <= s < |lens| && s < |w| && w[s] > 0 && lens[s] >= j ==> Mul(w[s], HuffmanDepth.Fib(j + 1)) <= Total(w, |w|)
  }

  // No more symbols have codes than occur, or two.
  ghost predicate FewCodes(lens: seq<nat>, w: seq<nat>) {
    |NonZero(lens, |lens|)| <= Most(2, |NonZero(w, |w|)|)
  }

  function Most(a: nat, b: nat): nat {
    if a >= b then a else b
  }

  // Code lengths that build_tree() makes for the frequencies w. They are the
  // best unless so many symbols occur that the lengths had to be limited.
  ghost predicate Best(lens: seq<nat>, w: seq<nat>) {
    && (forall i, j :: 0 <= i < |lens| && i < |w| && 0 <= j < |lens| && j < |w| && 0 < w[i] < w[j] ==> lens[i] >= lens[j])
    && (HuffmanDepth.Fib(MAX_BITS + 3) <= Total(w, |w|) || |NonZero(w, |w|)| < 2 || NoneCheaper(lens, w))
    && (forall j :: 1 <= j <= MAX_BITS && Upper(MAX_BITS, j - 1, |w|) ==> SteepLens(lens, w, j))
    && FewCodes(lens, w) && |lens| <= |w| && lens != [] && lens[|lens| - 1] > 0
    && (forall s :: 0 <= s < |w| && w[s] > 0 ==> s < |lens| && lens[s] > 0)
    && (forall s :: 0 <= s < |lens| && lens[s] > 1 ==> HuffmanDepth.Fib(lens[s] + 2) <= Total(w, |w|))
    && (|NonZero(w, |w|)| >= 2 ==> forall s :: 0 <= s < |lens| && lens[s] > 0 ==> w[s] > 0)
  }

  // ---- A uniform code ----

  // Code lengths with which every match takes 24 bits with its extra bits: all
  // lengths are equally likely, and so are all distances.
  function UnitLit(): (u: seq<nat>)
    ensures |u| == L_CODES && forall s :: 0 <= s < L_CODES ==> u[s] == if s <= 256 then 15 else 9 - EXTRA_LBITS[s - 257]
  {
    assert forall i :: 0 <= i < LENGTH_CODES ==> EXTRA_LBITS[i] <= 5;
    seq(L_CODES, s requires 0 <= s < L_CODES => if s <= 256 then 15 else 9 - EXTRA_LBITS[s - 257])
  }

  function UnitDist(): (u: seq<nat>)
    ensures |u| == D_CODES && forall d :: 0 <= d < D_CODES ==> u[d] == 15 - EXTRA_DBITS[d]
  {
    assert forall i :: 0 <= i < D_CODES ==> EXTRA_DBITS[i] <= 13;
    seq(D_CODES, d requires 0 <= d < D_CODES => 15 - EXTRA_DBITS[d])
  }

  lemma LitSpans(u: seq<nat>)
    requires u == UnitLit()
    ensures |u| == 286 && LengthsInRange(u)
    ensures forall i :: 0 <= i < 257 ==> u[i] == 15
    ensures forall i :: 257 <= i < 265 ==> u[i] == 9
    ensures forall i :: 265 <= i < 269 ==> u[i] == 8
    ensures forall i :: 269 <= i < 273 ==> u[i] == 7
    ensures forall i :: 273 <= i < 277 ==> u[i] == 6
    ensures forall i :: 277 <= i < 281 ==> u[i] == 5
    ensures forall i :: 281 <= i < 285 ==> u[i] == 4
    ensures u[285] == 9
  {
  }

  lemma UnitLitKraft(u: seq<nat>)
    requires u == UnitLit()
    ensures LengthsInRange(u) && KraftTo(u, |u|) <= Pow2(15)
  {
    Pow2Values();
    UnitShifts();
    LitSpans(u);
    assert Shl(257, 0) == 257;
    hide KraftTo, Pow2, UnitLit, Shl;
    NoKraft(u);
    StaticTrees.KraftSpan(u, 0, 257, 15);
    StaticTrees.KraftSpan(u, 257, 265, 9);
    StaticTrees.KraftSpan(u, 265, 269, 8);
    StaticTrees.KraftSpan(u, 269, 273, 7);
    StaticTrees.KraftSpan(u, 273, 277, 6);
    StaticTrees.KraftSpan(u, 277, 281, 5);
    StaticTrees.KraftSpan(u, 281, 285, 4);
    StaticTrees.KraftSpan(u, 285, 286, 9);
  }

  lemma UnitShifts()
    ensures Shl(8, 6) == 512 && Shl(1, 6) == 64 && Shl(4, 0) == 4
    ensures Shl(4, 7) == 512 && Shl(4, 8) == 1024 && Shl(4, 9) == 2048 && Shl(4, 10) == 4096 && Shl(4, 11) == 8192
  {
    Pow2Values();
    forall a: nat, b: nat ensures Shl(Pow2(a), b) == Pow2(a + b) {
      ShlPow2(a, b);
    }
    hide Shl, Pow2;
    assert Shl(Pow2(3), 6) == 512 && Shl(Pow2(0), 6) == 64 && Shl(Pow2(2), 0) == 4;
    assert Shl(Pow2(2), 7) == 512 && Shl(Pow2(2), 8) == 1024 && Shl(Pow2(2), 9) == 2048;
    assert Shl(Pow2(2), 10) == 4096 && Shl(Pow2(2), 11) == 8192;
  }

  lemma NoKraft(u: seq<nat>)
    requires LengthsInRange(u)
    ensures KraftTo(u, 0) == 0
  {
  }

  // Two distance codes for every number of extra bits but zero.
  lemma {:induction false} DistKraft(u: seq<nat>, e: nat)
    requires u == UnitDist() && e <= 13 && LengthsInRange(u)
    ensures KraftTo(u, 2 * e + 4) == Pow2(e + 2)
  {
    hide KraftTo, Pow2, Shl, UnitDist;
    if e == 0 {
      Pow2Values();
      UnitShifts();
      NoKraft(u);
      assert forall i :: 0 <= i < 4 ==> EXTRA_DBITS[i] == 0;
      StaticTrees.KraftSpan(u, 0, 4, 15);
    } else {
      DistKraft(u, e - 1);
      DistPair(e);
      StaticTrees.KraftSpan(u, 2 * e + 2, 2 * e + 4, 15 - e);
      ShlPow2(1, e);
      assert Pow2(1) == 2 by { Pow2Values(); }
      Pow2Twice(e + 1);
    }
  }

  lemma DistPair(e: nat)
    requires 1 <= e <= 13
    ensures EXTRA_DBITS[2 * e + 2] == e && EXTRA_DBITS[2 * e + 3] == e
  {
  }

  lemma Pow2Twice(n: nat)
    ensures Pow2(n + 1) == 2 * Pow2(n)
  {
  }

  lemma UnitDistKraft(u: seq<nat>)
    requires u == UnitDist()
    ensures LengthsInRange(u) && KraftTo(u, |u|) <= Pow2(15)
  {
    assert LengthsInRange(u);
    DistKraft(u, 13);
  }

  // By how much a code is longer than it would be in the uniform code.
  function Excess(lens: seq<nat>, u: seq<nat>): (x: seq<nat>)
    ensures |x| == |u| && forall s :: 0 <= s < |u| ==> x[s] == if s < |lens| && lens[s] > u[s] then lens[s] - u[s] else 0
  {
    seq(|u|, s requires 0 <= s < |u| => if s < |lens| && lens[s] > u[s] then lens[s] - u[s] else 0)
  }

  // The shorter of the two codes of every symbol, and one bit more.
  function Shorter(lens: seq<nat>, u: seq<nat>): (x: seq<nat>)
    ensures |x| == |u| && forall s :: 0 <= s < |u| ==> x[s] == 1 + if s < |lens| && lens[s] < u[s] then lens[s] else u[s]
  {
    seq(|u|, s requires 0 <= s < |u| => 1 + if s < |lens| && lens[s] < u[s] then lens[s] else u[s])
  }

  // That is a prefix code: each of the two gets half of the code space.
  lemma {:induction false} ShorterKraft(s: set<nat>, lens: seq<nat>, u: seq<nat>, n: nat)
    requires LengthsInRange(lens) && LengthsInRange(u) && n <= |u|
    requires forall x :: x in s && x < n ==> x < |lens| && lens[x] > 0 && u[x] > 0
    ensures Sum(s, Units(Shorter(lens, u), 16), n) <= KraftTo(lens, if n < |lens| then n else |lens|) + KraftTo(u, n)
  {
    hide Pow2, Shorter, Of, Sum, KraftTo;
    KraftSteps(u, n);
    SumSteps(s, Units(Shorter(lens, u), 16), n);
    if n > 0 {
      ShorterKraft(s, lens, u, n - 1);
      if n <= |lens| { KraftSteps(lens, n); }
      if n - 1 in s {
        UnitIs(Shorter(lens, u), 16, n - 1);
        UnitOfShorter(lens[n - 1], u[n - 1]);
      }
    }
  }

  lemma KraftSteps(lens: seq<nat>, n: nat)
    requires LengthsInRange(lens) && n <= |lens|
    ensures KraftTo(lens, n) == if n == 0 then 0 else KraftTo(lens, n - 1) + if lens[n - 1] == 0 then 0 else Pow2(15 - lens[n - 1])
  {
    hide Pow2;
  }

  lemma SumSteps(s: set<nat>, f: Measure, n: nat)
    ensures Sum(s, f, n) == if n == 0 then 0 else Sum(s, f, n - 1) + if n - 1 in s then Of(f, n - 1) else 0
  {
    hide Of;
  }

  lemma UnitIs(l: seq<nat>, m: nat, x: nat)
    requires x < |l| && l[x] <= m
    ensures Of(Units(l, m), x) == Pow2(m - l[x])
  {
  }

  // The unit of the shorter code, halved, is no more than both units.
  lemma UnitOfShorter(a: nat, b: nat)
    requires a <= 15 && b <= 15
    ensures var l := 1 + if a < b then a else b; l <= 16 && Pow2(16 - l) <= Pow2(15 - a) + Pow2(15 - b)
    ensures Pow2(15 - a) >= 1 && Pow2(15 - b) >= 1
  {
    hide Pow2;
  }

  lemma {:induction false} ShorterCost(w: seq<nat>, lens: seq<nat>, u: seq<nat>, n: nat)
    requires n <= |w| == |u| && forall s :: 0 <= s < |w| && w[s] > 0 ==> s < |lens|
    ensures Dot(w, Shorter(lens, u), n) + Dot(w, Excess(lens, u), n) == Dot(w, lens, n) + Total(w, n)
  {
    if n > 0 {
      ShorterCost(w, lens, u, n - 1);
      var s := n - 1;
      ShorterMul(w[s], if s < |lens| then lens[s] else 0, u[s], s < |lens|);
    }
  }

  lemma ShorterMul(a: nat, l: nat, u: nat, coded: bool)
    requires a > 0 ==> coded
    ensures Mul(a, 1 + if coded && l < u then l else u) + Mul(a, if coded && l > u then l - u else 0)
         == (if coded then Mul(a, l) else 0) + a
  {
    if coded && l > u {
      assert a * (1 + u) + a * (l - u) == a * (1 + l);
    }
  }

  // In the best code, the excess over the uniform code is no more than one bit
  // for every symbol of the block.
  lemma ExcessSmall(lens: seq<nat>, w: seq<nat>, u: seq<nat>)
    requires Best(lens, w) && Total(w, |w|) < HuffmanDepth.Fib(MAX_BITS + 3) && Complete(lens) && |u| == |w| <= 16384
    requires LengthsInRange(u) && KraftTo(u, |u|) <= Pow2(15) && forall s :: 0 <= s < |u| ==> u[s] >= 1
    ensures Dot(w, Excess(lens, u), |w|) <= Total(w, |w|)
  {
    hide HuffmanDepth.Fib, Upper, Sum, Dot, KraftTo, Pow2, Best, Total, NonZero, Excess, SteepLens, NoneCheaper,
      Complete, FewCodes;
    BestParts(lens, w);
    if |NonZero(w, |w|)| >= 2 {
      ManyExcess(lens, w, u);
    } else {
      assert Pow2(14) == 16384 by { Pow2Values(); }
      UpperIs(1, |w|);
      OneSymbol(lens, w, u);
    }
  }

  lemma BestParts(lens: seq<nat>, w: seq<nat>)
    requires Best(lens, w)
    ensures HuffmanDepth.Fib(MAX_BITS + 3) <= Total(w, |w|) || |NonZero(w, |w|)| < 2 || NoneCheaper(lens, w)
    ensures Upper(MAX_BITS, 1, |w|) ==> SteepLens(lens, w, 2)
    ensures |lens| <= |w| && forall s :: 0 <= s < |w| && w[s] > 0 ==> s < |lens| && lens[s] > 0
  {
    hide HuffmanDepth.Fib, Upper, SteepLens, NoneCheaper, FewCodes, NonZero, Total;
  }

  lemma ManyExcess(lens: seq<nat>, w: seq<nat>, u: seq<nat>)
    requires NoneCheaper(lens, w) && Complete(lens) && |u| == |w| && |lens| <= |w|
    requires LengthsInRange(u) && KraftTo(u, |u|) <= Pow2(15) && forall s :: 0 <= s < |u| ==> u[s] >= 1
    requires forall s :: 0 <= s < |w| && w[s] > 0 ==> s < |lens| && lens[s] > 0
    ensures Dot(w, Excess(lens, u), |w|) <= Total(w, |w|)
  {
    hide Sum, Dot, KraftTo, Pow2, Excess;
    var n, l := |w|, Shorter(lens, u);
    ShorterKraft(NonZero(w, n), lens, u, n);
    assert Pow2(16) == 2 * Pow2(15) by { Pow2Values(); }
    assert PrefixLengths(NonZero(w, n), l, 16);
    ShorterCost(w, lens, u, n);
  }

  lemma UpperIs(b: nat, n: nat)
    requires b < MAX_BITS && Pow2(MAX_BITS - b) >= n
    ensures Upper(MAX_BITS, b, n)
  {
  }

  lemma OneSymbol(lens: seq<nat>, w: seq<nat>, u: seq<nat>)
    requires SteepLens(lens, w, 2) && |NonZero(w, |w|)| < 2 && |u| == |w| && forall s :: 0 <= s < |u| ==> u[s] >= 1
    ensures Dot(w, Excess(lens, u), |w|) <= Total(w, |w|)
  {
    hide Dot, HuffmanDepth.Fib, Total, NonZero, SteepLens;
    var x := Excess(lens, u);
    forall s | 0 <= s < |w| ensures w[s] == 0 || x[s] == 0 {
      if w[s] > 0 {
        OnlyOne(w, s, |w|);
        OneBitCode(lens, w, s);
      }
    }
    NoDot(w, x, |w|);
  }

  lemma OneBitCode(lens: seq<nat>, w: seq<nat>, s: nat)
    requires SteepLens(lens, w, 2) && s < |w| && w[s] > 0 && Total(w, |w|) == w[s]
    ensures s < |lens| ==> lens[s] <= 1
  {
    assert HuffmanDepth.Fib(3) == 2;
    assert Mul(w[s], 2) > w[s];
  }

  lemma {:induction false} OnlyOne(w: seq<nat>, s: nat, n: nat)
    requires s < n <= |w| && w[s] > 0 && |NonZero(w, |w|)| < 2
    ensures Total(w, n) == w[s]
  {
    assert forall t :: 0 <= t < |w| && t != s ==> w[t] == 0 by {
      forall t | 0 <= t < |w| && t != s ensures w[t] == 0 {
        if w[t] > 0 {
          assert {s, t} <= NonZero(w, |w|);
          SubsetSize({s, t}, NonZero(w, |w|));
        }
      }
    }
    TotalOne(w, s, n);
  }

  lemma {:induction false} TotalOne(w: seq<nat>, s: nat, n: nat)
    requires n <= |w| && s < |w| && forall t :: 0 <= t < |w| && t != s ==> w[t] == 0
    ensures Total(w, n) == if s < n then w[s] else 0
  {
    if n > 0 { TotalOne(w, s, n - 1); }
  }

  lemma {:induction false} SubsetSize(a: set<nat>, b: set<nat>)
    requires a <= b
    ensures |a| <= |b|
    decreases |a|
  {
    if x :| x in a {
      SubsetSize(a - {x}, b - {x});
    }
  }

  lemma {:induction false} NoDot(w: seq<nat>, x: seq<nat>, n: nat)
    requires n <= |w| == |x| && forall s :: 0 <= s < |w| ==> w[s] == 0 || x[s] == 0
    ensures Dot(w, x, n) == 0
  {
    if n > 0 {
      NoDot(w, x, n - 1);
      BlockCost.MulNone(x[n - 1]);
      assert Mul(w[n - 1], 0) == 0;
    }
  }
}
