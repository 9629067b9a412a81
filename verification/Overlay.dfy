// trees.c: the pending output and the symbol buffer share an array. A block in
// dynamic codes is chosen when it is smaller than in the fixed codes; this is
// why its output, too, never overtakes the symbols still to be read.
module Overlay {
  import opened Bits
  import opened CanonicalCode
  import opened Format
  import opened Huffman
  import opened HuffmanDepth
  import GenBitlen
  import TreeHeader
  import opened BlockFormat
  import opened BlockCost
  import CompressBlock
  import opened DynamicTrees
  import opened UniformCode
  import opened HeaderSize
  import opened SymbolSizes
  import opened SmallBuffer

  // ---- Codes that may have been limited ----

  // What 4 bits of a code and 10 of its extra bits exceed.
  function LitWeight(lens: seq<nat>): (x: seq<nat>)
    ensures |x| == L_CODES
    ensures forall s :: 0 <= s < L_CODES ==> x[s] == LitOver(lens, s)
  {
    seq(L_CODES, s requires 0 <= s < L_CODES => LitOver(lens, s))
  }

  function LitOver(lens: seq<nat>, s: nat): nat
    requires s < L_CODES
  {
    if 257 <= s < |lens| && 10 * EXTRA_LBITS[s - 257] + 4 * lens[s] > 90 then 10 * EXTRA_LBITS[s - 257] + 4 * lens[s] - 90 else 0
  }

  function DistWeight(lens: seq<nat>): (x: seq<nat>)
    ensures |x| == D_CODES
    ensures forall d :: 0 <= d < D_CODES ==> x[d] == DistOver(lens, d)
  {
    seq(D_CODES, d requires 0 <= d < D_CODES => DistOver(lens, d))
  }

  function DistOver(lens: seq<nat>, d: nat): nat
    requires d < D_CODES
  {
    if d < |lens| && 10 * EXTRA_DBITS[d] + 4 * lens[d] > 138 then 10 * EXTRA_DBITS[d] + 4 * lens[d] - 138 else 0
  }

  lemma MatchSizes(ll: seq<nat>, dl: seq<nat>, t: Token)
    requires TokenOk(t) && t.Match? && Coded(ll, dl, t)
    ensures var s, d := LitSym(t), DistSym(t);
      && 257 <= s < L_CODES && s < |ll| && d < D_CODES && d < |dl|
      && TokenSize(ll, dl, t) == ll[s] + EXTRA_LBITS[s - 257] + (dl[d] + EXTRA_DBITS[d])
  {
    LengthCodeFits(t.len - MIN_MATCH);
    DistCodeFits(t.dist - 1);
    hide LengthCode, DistCode, StreamCode, Pow2;
    assert LitSym(t) == 257 + LengthCode(t.len - MIN_MATCH) && DistSym(t) == DistCode(t.dist - 1);
  }

  lemma WeightToken(ll: seq<nat>, dl: seq<nat>, t: Token)
    requires TokenOk(t) && Coded(ll, dl, t) && Coded(FixedLitLens(), FixedDistLens(), t) && LengthsInRange(ll)
    ensures LitSym(t) < L_CODES && (t.Match? ==> DistSym(t) < D_CODES)
    ensures 6 * TokenSize(FixedLitLens(), FixedDistLens(), t) + 4 * TokenSize(ll, dl, t)
      <= 306 + LitWeight(ll)[LitSym(t)] + (if t.Match? then DistWeight(dl)[DistSym(t)] else 0)
  {
    TokenSyms(t);
    if t.Match? {
      MatchSizes(ll, dl, t);
      MatchSizes(FixedLitLens(), FixedDistLens(), t);
      hide TokenSize, Coded, LitSym, DistSym, LengthsInRange;
    } else {
      hide LengthCode, DistCode, LitWeight, DistWeight;
    }
  }

  lemma {:induction false} WeightPrefix(ll: seq<nat>, dl: seq<nat>, ts: seq<Token>, k: nat)
    requires BothCoded(ll, dl, ts) && LengthsInRange(ll) && k <= |ts|
    ensures 6 * FixBits(ts, k) + 4 * DynBits(ll, dl, ts, k) <= 306 * k + Spent(LitWeight(ll), DistWeight(dl), ts[..k])
  {
    hide TokensBits, TokenSize, Coded, LitWeight, DistWeight, Spent, TokenOk;
    if k == 0 {
      NoTokens(ll, dl, ts);
      NoTokens(FixedLitLens(), FixedDistLens(), ts);
    } else {
      WeightPrefix(ll, dl, ts, k - 1);
      SizeStep(ll, dl, ts, k - 1);
      SizeStep(FixedLitLens(), FixedDistLens(), ts, k - 1);
      assert TokenOk(ts[k - 1]);
      WeightToken(ll, dl, ts[k - 1]);
      SpentStep(LitWeight(ll), DistWeight(dl), ts, k - 1);
    }
  }

  // Sums of products, term by term.
  lemma {:induction false} DotScaled(w: seq<nat>, x: seq<nat>, q: seq<nat>, total: nat, c: nat, n: nat)
    requires n <= |w| && n <= |x| && n <= |q|
    requires forall s :: 0 <= s < n ==> Mul(c, Mul(w[s], x[s])) <= Mul(q[s], total)
    ensures Mul(c, Dot(w, x, n)) <= Mul(Total(q, n), total)
  {
    if n > 0 {
      DotScaled(w, x, q, total, c, n - 1);
      var d, m := Dot(w, x, n - 1), Mul(w[n - 1], x[n - 1]);
      assert Mul(c, d + m) == Mul(c, d) + Mul(c, m);
      assert Mul(Total(q, n - 1) + q[n - 1], total) == Mul(Total(q, n - 1), total) + Mul(q[n - 1], total);
    }
  }

  lemma Scaled(w: nat, x: nat, q: nat, f: nat, c: nat, total: nat)
    requires Mul(w, f) <= total && c * x <= q * f
    ensures Mul(c, Mul(w, x)) <= Mul(q, total)
  {
    assert c * (w * x) == w * (c * x);
    assert w * (c * x) <= w * (q * f);
    assert w * (q * f) == q * (w * f);
    assert q * (w * f) <= q * total;
  }

  // A bound on the weight of a length symbol, in units of a 21st of all symbols.
  function LitQuota(): (q: seq<nat>)
    ensures |q| == L_CODES
    ensures forall s :: 0 <= s < L_CODES ==> q[s] == if 281 <= s < 285 then 20 else if 277 <= s < 281 then 10 else 0
  {
    seq(L_CODES, s => if 281 <= s < 285 then 20 else if 277 <= s < 281 then 10 else 0)
  }

  lemma {:induction false} TotalSpan(q: seq<nat>, a: nat, b: nat, v: nat)
    requires a <= b <= |q| && forall i :: a <= i < b ==> q[i] == v
    ensures Total(q, b) == Total(q, a) + Mul(b - a, v)
    decreases b
  {
    if a < b {
      TotalSpan(q, a, b - 1, v);
      assert Mul(b - a, v) == Mul(b - 1 - a, v) + v;
    } else {
      assert Mul(0, v) == 0;
    }
  }

  lemma LitQuotaTotal(q: seq<nat>)
    requires q == LitQuota()
    ensures Total(q, L_CODES) == 120
  {
    TotalZeros(q, 277);
    hide Total, LitQuota;
    TotalSpan(q, 277, 281, 10);
    TotalSpan(q, 281, 285, 20);
    TotalSpan(q, 285, 286, 0);
    assert Mul(4, 10) == 40 && Mul(4, 20) == 80 && Mul(1, 0) == 0;
  }

  lemma LitWeights(ll: seq<nat>, w: seq<nat>)
    requires Best(ll, w) && |w| == L_CODES && LengthsInRange(ll)
    ensures 21 * Dot(w, LitWeight(ll), L_CODES) <= 120 * Total(w, L_CODES)
  {
    assert Pow2(9) == 512 by { Pow2Values(); }
    UpperIs(6, L_CODES);
    assert SteepLens(ll, w, 7);
    assert Fib(8) == 21 by { FibValues(); }
    hide Dot, Total, Fib, GenBitlen.Upper, NoneCheaper, Pow2, Best;
    var q, total := LitQuota(), Total(w, L_CODES);
    forall s | 0 <= s < L_CODES ensures Mul(21, Mul(w[s], LitWeight(ll)[s])) <= Mul(q[s], total) {
      LitEntry(ll, w, s, total);
    }
    LitQuotaTotal(q);
    DotScaled(w, LitWeight(ll), q, total, 21, L_CODES);
    MulIs(21, Dot(w, LitWeight(ll), L_CODES));
    MulIs(120, total);
  }

  lemma MulIs(a: nat, b: nat)
    ensures Mul(a, b) == a * b
  {
  }

  lemma LitEntry(ll: seq<nat>, w: seq<nat>, s: nat, total: nat)
    requires |w| == L_CODES && s < L_CODES && LengthsInRange(ll) && total == Total(w, L_CODES)
    requires SteepLens(ll, w, 7) && Fib(8) == 21
    ensures Mul(21, Mul(w[s], LitWeight(ll)[s])) <= Mul(LitQuota()[s], total)
  {
    hide Fib, Total;
    var x := LitWeight(ll)[s];
    LitExtras(s);
    if w[s] == 0 || x == 0 {
      assert Mul(w[s], x) == 0;
    } else {
      assert ll[s] >= 7;
      Scaled(w[s], x, LitQuota()[s], 21, 21, total);
    }
  }

  lemma LitExtras(s: nat)
    requires s < L_CODES
    ensures 257 <= s < 277 ==> EXTRA_LBITS[s - 257] <= 3
    ensures 277 <= s < 281 ==> EXTRA_LBITS[s - 257] == 4
    ensures 281 <= s < 285 ==> EXTRA_LBITS[s - 257] == 5
    ensures s == 285 ==> EXTRA_LBITS[s - 257] == 0
  {
  }

  // A bound on the weight of a distance symbol with e extra bits, in units of a
  // thousandth of all symbols.
  function Quota(e: nat): nat {
    if e >= 13 then 1600 else if e == 12 then 477 else if e == 11 then 223 else if e == 10 then 153
    else if e == 9 then 84 else if e == 8 then 14 else 0
  }

  function DistQuota(): (q: seq<nat>)
    ensures |q| == D_CODES && forall d :: 0 <= d < D_CODES ==> q[d] == Quota(EXTRA_DBITS[d])
  {
    seq(D_CODES, d requires 0 <= d < D_CODES => Quota(EXTRA_DBITS[d]))
  }

  lemma DistQuotaTotal(q: seq<nat>)
    requires q == DistQuota()
    ensures Total(q, D_CODES) == 5102
  {
    assert forall d :: 0 <= d < 18 ==> EXTRA_DBITS[d] <= 7;
    TotalZeros(q, 18);
    assert q[18] == q[19] == 14 && q[20] == q[21] == 84 && q[22] == q[23] == 153;
    assert q[24] == q[25] == 223 && q[26] == q[27] == 477 && q[28] == q[29] == 1600;
    hide Total, DistQuota, Quota;
    TotalSpan(q, 18, 20, 14);
    TotalSpan(q, 20, 22, 84);
    TotalSpan(q, 22, 24, 153);
    TotalSpan(q, 24, 26, 223);
    TotalSpan(q, 26, 28, 477);
    TotalSpan(q, 28, 30, 1600);
    assert Mul(2, 14) == 28 && Mul(2, 84) == 168 && Mul(2, 153) == 306;
    assert Mul(2, 223) == 446 && Mul(2, 477) == 954 && Mul(2, 1600) == 3200;
  }

  // The Fibonacci number that a code of l bits stands for.
  function Rarity(l: nat): nat {
    if l <= 2 then 1 else if l == 3 then 3 else if l == 4 then 5 else if l == 5 then 8 else if l == 6 then 13
    else if l == 7 then 21 else if l == 8 then 34 else if l == 9 then 55 else if l == 10 then 89 else 144
  }

  lemma RarityTable(e: nat, l: nat)
    requires e <= 13 && l <= 15 && 10 * e + 4 * l > 138
    ensures 1000 * (10 * e + 4 * l - 138) <= Quota(e) * Rarity(l)
  {
    assert e >= 8;
    if e == 13 {
      assert Quota(e) == 1600;
    } else if e == 12 {
      assert Quota(e) == 477;
    } else if e == 11 {
      assert Quota(e) == 223;
    } else if e == 10 {
      assert Quota(e) == 153;
    } else if e == 9 {
      assert Quota(e) == 84;
    } else {
      assert Quota(e) == 14;
    }
  }

  lemma RarityIs(l: nat)
    requires 3 <= l
    ensures Rarity(l) == Fib((if l <= 11 then l else 11) + 1)
  {
    FibValues();
  }

  lemma DistWeights(dl: seq<nat>, w: seq<nat>)
    requires Best(dl, w) && |w| == D_CODES && LengthsInRange(dl)
    ensures 1000 * Dot(w, DistWeight(dl), D_CODES) <= 5102 * Total(w, D_CODES)
  {
    hide Dot, Total, Fib, NoneCheaper, Pow2, DistWeight, DistQuota, Best;
    var q, total := DistQuota(), Total(w, D_CODES);
    forall d | 0 <= d < D_CODES ensures Mul(1000, Mul(w[d], DistWeight(dl)[d])) <= Mul(q[d], total) {
      DistEntry(dl, w, d, total);
    }
    DistQuotaTotal(q);
    DotScaled(w, DistWeight(dl), q, total, 1000, D_CODES);
    MulIs(1000, Dot(w, DistWeight(dl), D_CODES));
    MulIs(5102, total);
  }

  lemma DistEntry(dl: seq<nat>, w: seq<nat>, d: nat, total: nat)
    requires |w| == D_CODES && d < D_CODES && LengthsInRange(dl) && total == Total(w, D_CODES) && Best(dl, w)
    ensures Mul(1000, Mul(w[d], DistWeight(dl)[d])) <= Mul(DistQuota()[d], total)
  {
    hide Fib, Total, Quota, Rarity, NoneCheaper, Best;
    var x := DistWeight(dl)[d];
    DistExtras(d);
    if w[d] == 0 || x == 0 {
      assert Mul(w[d], x) == 0;
    } else {
      var l := dl[d];
      var j := if l <= 11 then l else 11;
      RarityTable(EXTRA_DBITS[d], l);
      RarityIs(l);
      SteepUpTo(dl, w, j);
      assert Mul(w[d], Fib(j + 1)) <= total;
      Scaled(w[d], x, Quota(EXTRA_DBITS[d]), Rarity(l), 1000, total);
    }
  }

  lemma SteepUpTo(dl: seq<nat>, w: seq<nat>, j: nat)
    requires Best(dl, w) && |w| == D_CODES && 1 <= j <= 11
    ensures SteepLens(dl, w, j)
  {
    Pow2Values();
    Pow2Mono(5, 16 - j);
    hide Pow2, Fib, NoneCheaper, SteepLens;
    UpperIs(j - 1, D_CODES);
  }

  // ---- Overlay safety of dynamic blocks ----

  // Where the codes may have been limited there are thousands of symbols, and
  // the gain over the fixed codes makes up for what single symbols exceed.
  lemma LimitedAhead(h: Header, ts: seq<Token>, k: nat, s: nat, n: nat)
    requires BuiltHeader(h, ts) && BothCoded(h.ll, h.dl, ts) && SmallerThanFixed(h, ts) && k <= |ts| <= n - 1 && s <= 10 && n >= 4096
    ensures s + HeaderLength(h) + DynBits(h.ll, h.dl, ts, k) < 8 * (n + 3 * k)
  {
    hide BuiltHeader, Best, HeaderLength, TokensBits, LitHist, DistHist, LitWeight, DistWeight, Total, Dot, HeaderOk,
      SmallerThanFixed, Gains, Coded, KraftTo, DynBits, FixBits, TokenOk, LeanItems;
    BuiltParts(h, ts);
    ChosenPrefix(h, ts, k);
    WeightPrefix(h.ll, h.dl, ts, k);
    SpentMono(LitWeight(h.ll), DistWeight(h.dl), ts, k);
    LitWeights(h.ll, LitHist(ts));
    DistWeights(h.dl, DistHist(ts));
    LitTotal(ts);
    DistTotal(ts);
  }

  // Where the codes are the best ones and the buffer is not the smallest, the
  // header and what symbols exceed 24 bits by fit into the buffer's free part.
  lemma UncutAhead(h: Header, ts: seq<Token>, k: nat, s: nat, n: nat)
    requires BuiltHeader(h, ts) && BothCoded(h.ll, h.dl, ts) && k <= |ts| <= n - 1 && s <= 10 && (n == 256 || 512 <= n <= 2048)
    ensures s + HeaderLength(h) + DynBits(h.ll, h.dl, ts, k) < 8 * (n + 3 * k)
  {
    hide BuiltHeader, Best, HeaderLength, TokensBits, LitHist, DistHist, Total, Dot, HeaderOk, Coded, KraftTo,
      DynBits, TokenOk, LeanItems, BothItems, Complete, Fib, TreeHeader.Symbolic;
    BuiltParts(h, ts);
    FibValues();
    UncutPrefix(h.ll, h.dl, ts, k);
    if n == 256 {
      FewSymbols(h, ts, 11);
      ShortHeaderBound(h);
    }
  }

  lemma DynamicPrefix(h: Header, ts: seq<Token>, k: nat, s: nat, n: nat, b: nat)
    requires BuiltHeader(h, ts) && BothCoded(h.ll, h.dl, ts) && SmallerThanFixed(h, ts) && k <= |ts| <= n - 1 && s <= 10
    requires n == Pow2(b) && n >= 128
    ensures s + HeaderLength(h) + DynBits(h.ll, h.dl, ts, k) < 8 * (n + 3 * k)
  {
    PowerSteps(n, b);
    hide BuiltHeader, Best, HeaderLength, LitHist, DistHist, HeaderOk, SmallerThanFixed, Coded, Pow2, DynBits,
      TokenOk, LeanItems, BothItems, TreeHeader.Symbolic, Complete;
    BuiltParts(h, ts);
    if n >= 4096 {
      LimitedAhead(h, ts, k, s, n);
    } else if n >= 256 {
      UncutAhead(h, ts, k, s, n);
    } else {
      SmallPrefix(h, ts, k);
    }
  }

  lemma PowerSteps(n: nat, b: nat)
    requires n == Pow2(b) && n >= 128
    ensures n == 128 || n == 256 || 512 <= n <= 2048 || n >= 4096
  {
    Pow2Values();
    hide Pow2;
    if b >= 12 {
      Pow2Mono(12, b);
    } else if b >= 9 {
      Pow2Mono(9, b);
      Pow2Mono(b, 11);
    } else if b < 7 {
      Pow2Mono(b, 6);
    }
  }

  // The output of a dynamic block that is chosen stays behind the symbols still
  // to be read, in a buffer for n symbols, whatever power of two n is: the
  // smallest buffer holds 128.
  lemma DynamicAhead(h: Header, ts: seq<Token>, s: nat, n: nat, b: nat)
    requires BuiltHeader(h, ts) && BothCoded(h.ll, h.dl, ts) && SmallerThanFixed(h, ts) && |ts| <= n - 1 && s <= 10
    requires n == Pow2(b) && n >= 128
    ensures CompressBlock.Ahead(h.ll, h.dl, ts, s + |HeaderBits(h)|, n)
  {
    BuiltParts(h, ts);
    LengthIs(h);
    hide BuiltHeader, HeaderOk, HeaderBits, HeaderLength, TokensBits, SmallerThanFixed, Coded, Pow2, TokenOk, Best,
      TreeHeader.Symbolic, LeanItems;
    forall k | 0 <= k <= |ts|
      ensures s + |HeaderBits(h)| + |TokensBits(h.ll, h.dl, ts[..k])| < 8 * (n + 3 * k)
    {
      DynamicPrefix(h, ts, k, s, n, b);
    }
  }
}
