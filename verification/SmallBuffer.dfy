// The smallest buffers, for 128 symbols. A dynamic header can be larger there
// than what the symbols leave free; but a header is large only when many
// different symbols have codes, and then the dynamic codes gain little over the
// fixed ones, and are not chosen.
module SmallBuffer {
  import opened Bits
  import opened CanonicalCode
  import opened Format
  import opened Huffman
  import opened HuffmanDepth
  import GenBitlen
  import Trees
  import TreeHeader
  import opened BlockFormat
  import opened BlockCost
  import opened DynamicTrees
  import opened UniformCode
  import opened HeaderSize
  import opened SymbolSizes

  // ---- How many literals and matches a block has ----

  lemma {:induction false} TotalIncIs(w: seq<nat>, s: nat, n: nat)
    requires n <= |w|
    ensures Total(Inc(w, s), n) == Total(w, n) + (if s < n then 1 else 0)
  {
    if n > 0 { TotalIncIs(w, s, n - 1); }
  }

  lemma {:induction false} HistTotals(ts: seq<Token>)
    requires TokensOk(ts)
    ensures Total(LitHist(ts), END_BLOCK) + Total(DistHist(ts), D_CODES) == |ts|
    ensures LitHist(ts)[END_BLOCK] == 1 && Total(LitHist(ts), L_CODES) == |ts| + 1
  {
    hide Total, Inc, LitSym, DistSym;
    if ts == [] {
      TotalZeros(Zeros(L_CODES), L_CODES);
      TotalZeros(Zeros(L_CODES), END_BLOCK);
      TotalZeros(Zeros(D_CODES), D_CODES);
      TotalIncIs(Zeros(L_CODES), END_BLOCK, L_CODES);
      TotalIncIs(Zeros(L_CODES), END_BLOCK, END_BLOCK);
      assert Inc(Zeros(L_CODES), END_BLOCK)[END_BLOCK] == 1 by { IncAt(Zeros(L_CODES), END_BLOCK, END_BLOCK); }
    } else {
      var front, t := ts[..|ts| - 1], ts[|ts| - 1];
      HistTotals(front);
      assert TokenOk(t);
      SymOf(t);
      TotalIncIs(LitHist(front), LitSym(t), L_CODES);
      TotalIncIs(LitHist(front), LitSym(t), END_BLOCK);
      TotalIncIs(DistHist(front), DistSym(t), D_CODES);
      IncAt(LitHist(front), LitSym(t), END_BLOCK);
    }
  }

  lemma IncAt(w: seq<nat>, s: nat, i: nat)
    requires i < |w|
    ensures Inc(w, s)[i] == w[i] + (if s == i then 1 else 0)
  {
  }

  lemma SymOf(t: Token)
    requires TokenOk(t)
    ensures LitSym(t) < L_CODES && LitSym(t) != END_BLOCK && (LitSym(t) < END_BLOCK <==> t.Literal?)
    ensures DistSym(t) < D_CODES <==> t.Match?
  {
    TokenSyms(t);
  }

  // ---- What symbols gain, against what their codes take of the code space ----

  // How many symbols have codes longer than in the uniform code.
  function Longer(w: seq<nat>, x: seq<nat>, n: nat): nat
    requires n <= |w| && n <= |x|
  {
    if n == 0 then 0 else Longer(w, x, n - 1) + (if x[n - 1] > 0 then w[n - 1] else 0)
  }

  lemma {:induction false} LongerFew(w: seq<nat>, x: seq<nat>, n: nat, c: nat)
    requires n <= |w| && n <= |x| && forall s :: 0 <= s < n ==> x[s] <= c
    ensures Dot(w, x, n) <= Mul(c, Longer(w, x, n))
  {
    hide Mul;
    if n == 0 {
      MulNone(c);
      Trees.MulSwapped(c, 0);
    } else {
      LongerFew(w, x, n - 1, c);
      LongerStep(c, Longer(w, x, n - 1), w[n - 1], x[n - 1]);
    }
  }

  lemma LongerStep(c: nat, a: nat, w: nat, x: nat)
    requires x <= c
    ensures Mul(c, a) + Mul(w, x) <= Mul(c, a + (if x > 0 then w else 0))
  {
    MulMono(w, x, c);
    assert c * (a + w) == c * a + w * c;
    assert Mul(w, 0) == 0;
  }

  // The first occurrence of a literal gains 9 - l bits at most, which is two
  // and what 64 times its code space exceeds one by; the others gain 8.
  lemma LiteralGain(w: nat, f: nat, l: nat)
    requires 1 <= w && f <= 9 && 1 <= l <= 15
    ensures 512 * Mul(w, f) + 3072 <= 512 * Mul(w, l) + 4096 * w + Pow2(15 - l)
  {
    Pow2Values();
    assert 3584 <= 512 * l + Pow2(15 - l);
    assert Mul(w, f) <= 9 * w by { MulLess(f, 9, w); Trees.MulSwapped(w, f); }
    assert Mul(w, l) >= l + w - 1 by { MulAtLeast(w, l); }
  }

  lemma MulAtLeast(w: nat, l: nat)
    requires w >= 1 && l >= 1
    ensures Mul(w, l) >= l + w - 1
  {
    assert w * l == l + (w - 1) * l;
    assert (w - 1) * l >= w - 1;
  }

  lemma {:induction false} LiteralGains(w: seq<nat>, ll: seq<nat>, n: nat)
    requires n <= END_BLOCK < |ll| && |w| == L_CODES && LengthsInRange(ll)
    requires forall s :: 0 <= s < L_CODES && w[s] > 0 ==> s < |ll| && ll[s] > 0
    ensures 512 * Dot(w, FixedLitLens(), n) + 3072 * Kinds(w, n) <= 512 * Dot(w, ll, n) + 4096 * Total(w, n) + KraftTo(ll, n)
  {
    hide Pow2;
    if n > 0 {
      LiteralGains(w, ll, n - 1);
      KraftSteps(ll, n);
      if w[n - 1] > 0 {
        LiteralGain(w[n - 1], FixedLitLens()[n - 1], ll[n - 1]);
      } else {
        MulNone(FixedLitLens()[n - 1]);
        MulNone(ll[n - 1]);
      }
    }
  }

  // Matches gain 7 bits at most by their lengths, or 6 where no length has a
  // code of one bit; where the code is longer than in the uniform code, what it
  // exceeds and what it gains are 4 bits at most.
  lemma MatchGain(w: nat, s: nat, l: nat)
    requires END_BLOCK < s < L_CODES && w >= 1 && 1 <= l <= 15
    ensures var u := UnitLit()[s]; var x := if l > u then l - u else 0;
      && Mul(w, FixedLen(s)) + Mul(w, x) + (if x > 0 then 3 * w else 0) <= Mul(w, l) + 7 * w
      && (l >= 2 ==> Mul(w, FixedLen(s)) + Mul(w, x) + (if x > 0 then 2 * w else 0) <= Mul(w, l) + 6 * w)
  {
    LitExcess(s);
    var f, u := FixedLen(s), UnitLit()[s];
    assert Mul(w, 0) == 0;
    assert w * (l + 4) == w * l + 4 * w && w * (l + 6) == w * l + 6 * w && w * (l + 7) == w * l + 7 * w;
    if l > u {
      assert w * f + w * (l - u) == w * (f + l - u);
      MulMono(w, f + l - u, l + 4);
    } else {
      MulMono(w, f, l + 7);
      if l >= 2 { MulMono(w, f, l + 6); }
    }
  }

  lemma LitExcess(s: nat)
    requires END_BLOCK < s < L_CODES
    ensures 4 <= UnitLit()[s] <= 9 && FixedLen(s) <= 8 && FixedLen(s) <= UnitLit()[s] + 4
  {
    assert forall i :: 0 <= i < LENGTH_CODES ==> EXTRA_LBITS[i] <= 5;
  }

  // What the first n symbols gain and exceed, less what is allowed for it.
  ghost function Margin(w: seq<nat>, ll: seq<nat>, n: nat, one: bool): int
    requires n <= |w| == L_CODES
  {
    var x := Excess(ll, UnitLit());
    Dot(w, FixedLitLens(), n) + Dot(w, x, n) - Dot(w, ll, n)
    + (if one then 3 * Longer(w, x, n) - 7 * Total(w, n) else 2 * Longer(w, x, n) - 6 * Total(w, n))
  }

  lemma MarginStep(w: seq<nat>, ll: seq<nat>, s: nat, one: bool)
    requires END_BLOCK < s < L_CODES == |w| && LengthsInRange(ll) && (w[s] > 0 ==> s < |ll| && ll[s] > 0)
    requires one || (w[s] > 0 ==> ll[s] >= 2)
    ensures Margin(w, ll, s + 1, one) <= Margin(w, ll, s, one)
  {
    var f, x := FixedLitLens(), Excess(ll, UnitLit());
    assert x[s] == if s < |ll| && ll[s] > UnitLit()[s] then ll[s] - UnitLit()[s] else 0;
    DotStep(w, f, s);
    DotStep(w, x, s);
    if s < |ll| { DotStep(w, ll, s); }
    hide UnitLit, FixedLen, Mul, Excess, FixedLitLens;
    if w[s] > 0 {
      MatchGain(w[s], s, ll[s]);
    } else {
      MulNone(f[s]);
      MulNone(x[s]);
      MulNone(if s < |ll| then ll[s] else 0);
    }
  }

  lemma {:induction false} MatchGains(w: seq<nat>, ll: seq<nat>, n: nat, one: bool)
    requires END_BLOCK < n <= L_CODES == |w| && LengthsInRange(ll)
    requires forall s :: 0 <= s < L_CODES && w[s] > 0 ==> s < |ll| && ll[s] > 0
    requires one || forall s :: END_BLOCK < s < L_CODES && w[s] > 0 ==> ll[s] >= 2
    ensures Margin(w, ll, n, one) <= Margin(w, ll, END_BLOCK + 1, one)
  {
    hide Margin;
    if n > END_BLOCK + 1 {
      MatchGains(w, ll, n - 1, one);
      MarginStep(w, ll, n - 1, one);
    }
  }

  lemma {:induction false} NoExcess(w: seq<nat>, ll: seq<nat>, n: nat)
    requires n <= END_BLOCK + 1 && |w| == L_CODES && LengthsInRange(ll)
    ensures Dot(w, Excess(ll, UnitLit()), n) == 0 && Longer(w, Excess(ll, UnitLit()), n) == 0
  {
    if n > 0 {
      NoExcess(w, ll, n - 1);
      assert Excess(ll, UnitLit())[n - 1] == 0;
      assert Mul(w[n - 1], 0) == 0;
    }
  }

  // A length with a code of one bit leaves half of the code space.
  lemma {:induction false} KraftMono(ll: seq<nat>, a: nat, b: nat)
    requires LengthsInRange(ll) && a <= b <= |ll|
    ensures KraftTo(ll, a) <= KraftTo(ll, b)
    decreases b
  {
    if a < b { KraftMono(ll, a, b - 1); }
  }

  lemma HalfLeft(ll: seq<nat>, s: nat)
    requires Complete(ll) && END_BLOCK < s < |ll| && ll[s] == 1
    ensures KraftTo(ll, END_BLOCK + 1) <= 16384
  {
    Pow2Values();
    hide KraftTo, Pow2;
    KraftMono(ll, END_BLOCK + 1, s);
    KraftSteps(ll, s + 1);
    KraftMono(ll, s + 1, |ll|);
  }

  lemma FrontGains(w: seq<nat>, ll: seq<nat>)
    requires |w| == L_CODES && END_BLOCK < |ll| && LengthsInRange(ll) && w[END_BLOCK] == 1
    requires forall s :: 0 <= s < L_CODES && w[s] > 0 ==> s < |ll| && ll[s] > 0
    ensures 512 * Dot(w, FixedLitLens(), END_BLOCK + 1) + 3072 * Kinds(w, END_BLOCK)
      <= 512 * Dot(w, ll, END_BLOCK + 1) + 4096 * Total(w, END_BLOCK) + KraftTo(ll, END_BLOCK + 1)
    ensures Total(w, END_BLOCK + 1) == Total(w, END_BLOCK) + 1
  {
    LiteralGains(w, ll, END_BLOCK);
    KraftSteps(ll, END_BLOCK + 1);
    LiteralGain(1, 9, ll[END_BLOCK]);
    assert FixedLitLens()[END_BLOCK] == 7;
    assert Mul(1, 9) == 9 && Mul(1, 7) == 7;
    DotStep(w, FixedLitLens(), END_BLOCK);
    DotStep(w, ll, END_BLOCK);
  }

  lemma DotStep(w: seq<nat>, l: seq<nat>, n: nat)
    requires n < |w| && n < |l|
    ensures Dot(w, l, n + 1) == Dot(w, l, n) + Mul(w[n], l[n])
  {
  }

  // What the literals, lengths and the end gain, with what they exceed the
  // uniform code by.
  ghost predicate LitGain(w: seq<nat>, ll: seq<nat>, one: bool)
    requires |w| == L_CODES
  {
    var x, p := Excess(ll, UnitLit()), Total(w, L_CODES) - Total(w, END_BLOCK) - 1;
    Dot(w, FixedLitLens(), L_CODES) + Dot(w, x, L_CODES) + 6 * Kinds(w, END_BLOCK)
      <= Dot(w, ll, L_CODES) + 8 * Total(w, END_BLOCK)
         + (if one then 7 * p - 3 * Longer(w, x, L_CODES) + 32 else 6 * p - 2 * Longer(w, x, L_CODES) + 64)
  }

  lemma LitGains(w: seq<nat>, ll: seq<nat>)
    requires |w| == L_CODES && END_BLOCK < |ll| && Complete(ll) && w[END_BLOCK] == 1
    requires forall s :: 0 <= s < L_CODES && w[s] > 0 ==> s < |ll| && ll[s] > 0
    ensures LitGain(w, ll, true) || LitGain(w, ll, false)
  {
    Pow2Values();
    hide Dot, Total, KraftTo, Longer, Kinds, UnitLit, Pow2, Excess;
    NoExcess(w, ll, END_BLOCK + 1);
    FrontGains(w, ll);
    if s :| END_BLOCK < s < L_CODES && w[s] > 0 && ll[s] == 1 {
      HalfLeft(ll, s);
      MatchGains(w, ll, L_CODES, true);
    } else {
      KraftMono(ll, END_BLOCK + 1, |ll|);
      MatchGains(w, ll, L_CODES, false);
    }
  }

  // By a distance a match gains 4 bits at most, or 3 together with what its
  // code exceeds the uniform code by.
  lemma {:induction false} DistGains(v: seq<nat>, dl: seq<nat>, n: nat)
    requires n <= D_CODES == |v| && LengthsInRange(dl)
    requires forall s :: 0 <= s < D_CODES && v[s] > 0 ==> s < |dl| && dl[s] > 0
    ensures var x := Excess(dl, UnitDist());
      Dot(v, FixedDistLens(), n) + Dot(v, x, n) + Longer(v, x, n) <= Dot(v, dl, n) + 4 * Total(v, n)
  {
    if n > 0 {
      DistGains(v, dl, n - 1);
      DistStep(v, dl, n - 1);
    }
  }

  lemma DistStep(v: seq<nat>, dl: seq<nat>, d: nat)
    requires d < D_CODES == |v| && (v[d] > 0 ==> d < |dl| && dl[d] > 0)
    ensures var x := Excess(dl, UnitDist());
      Mul(v[d], FixedDistLens()[d]) + Mul(v[d], x[d]) + (if x[d] > 0 then v[d] else 0)
        <= (if d < |dl| then Mul(v[d], dl[d]) else 0) + 4 * v[d]
  {
    var x := Excess(dl, UnitDist());
    assert x[d] == if d < |dl| && dl[d] > UnitDist()[d] then dl[d] - UnitDist()[d] else 0;
    hide UnitDist, Mul, Excess;
    if v[d] > 0 {
      DistGain(v[d], d, dl[d]);
    } else {
      MulNone(5);
      MulNone(x[d]);
      MulNone(if d < |dl| then dl[d] else 0);
    }
  }

  lemma DistGain(w: nat, d: nat, l: nat)
    requires d < D_CODES && w >= 1 && 1 <= l
    ensures var u := UnitDist()[d]; var x := if l > u then l - u else 0;
      Mul(w, 5) + Mul(w, x) + (if x > 0 then w else 0) <= Mul(w, l) + 4 * w
  {
    DistExtras(d);
    var u := UnitDist()[d];
    assert u >= 2;
    if l > u {
      assert w * 5 + w * (l - u) + w == w * (6 + l - u);
      MulMono(w, 6 + l - u, l + 4);
      assert w * (l + 4) == w * l + 4 * w;
    } else {
      MulMono(w, 5, l + 4);
      assert w * (l + 4) == w * l + 4 * w;
      assert Mul(w, 0) == 0;
    }
  }

  lemma DistExtras(d: nat)
    requires d < D_CODES
    ensures EXTRA_DBITS[d] <= 13
  {
  }

  // ---- Both bounds together ----

  lemma ShortLens(lens: seq<nat>, w: seq<nat>, top: nat)
    requires Best(lens, w) && Total(w, |w|) < Fib(top + 3) && top >= 1
    ensures forall s :: 0 <= s < |lens| ==> lens[s] <= top
  {
    BestHeavy(lens, w);
    hide Best, Fib, Total;
    forall s | 0 <= s < |lens| ensures lens[s] <= top {
      if lens[s] > top { FibMono(top + 3, lens[s] + 2); }
    }
  }

  lemma BestHeavy(lens: seq<nat>, w: seq<nat>)
    requires Best(lens, w)
    ensures forall s :: 0 <= s < |lens| && lens[s] > 1 ==> Fib(lens[s] + 2) <= Total(w, |w|)
    ensures forall s :: 0 <= s < |w| && w[s] > 0 ==> s < |lens| && lens[s] > 0
    ensures |Trees.NonZero(w, |w|)| >= 2 ==> forall s :: 0 <= s < |lens| && lens[s] > 0 ==> w[s] > 0
    ensures |lens| <= |w|
  {
    hide Fib, Total, GenBitlen.Upper, SteepLens, NoneCheaper, FewCodes, Trees.NonZero;
  }

  // At most 128 symbols, or 256, make codes of at most 9 bits, or 11.
  lemma FewSymbols(h: Header, ts: seq<Token>, top: nat)
    requires Best(h.ll, LitHist(ts)) && Best(h.dl, DistHist(ts))
    requires (top == 9 && |ts| <= 127) || (top == 11 && |ts| <= 255)
    ensures (forall s :: 0 <= s < |h.ll| ==> h.ll[s] <= top) && forall s :: 0 <= s < |h.dl| ==> h.dl[s] <= top
  {
    hide Best, Fib, LitHist, DistHist, Total;
    FibValues();
    LitTotal(ts);
    DistTotal(ts);
    ShortLens(h.ll, LitHist(ts), top);
    ShortLens(h.dl, DistHist(ts), top);
  }

  lemma {:induction false} SameKinds(a: seq<nat>, b: seq<nat>, n: nat)
    requires n <= |a| && n <= |b| && forall s :: 0 <= s < n ==> (a[s] > 0 <==> b[s] > 0)
    ensures Kinds(a, n) == Kinds(b, n)
  {
    if n > 0 { SameKinds(a, b, n - 1); }
  }

  lemma {:induction false} KindsFew(w: seq<nat>, n: nat)
    requires n <= |w|
    ensures Kinds(w, n) <= Total(w, n)
  {
    if n > 0 { KindsFew(w, n - 1); }
  }

  lemma {:induction false} LongerTotal(w: seq<nat>, x: seq<nat>, n: nat, m: nat)
    requires m <= n <= |w| && n <= |x| && forall s :: 0 <= s < m ==> x[s] == 0
    ensures Longer(w, x, n) + Total(w, m) <= Total(w, n)
    decreases n
  {
    if n > m {
      LongerTotal(w, x, n - 1, m);
    } else if n > 0 {
      LongerTotal(w, x, n - 1, m - 1);
    }
  }

  lemma TwoKinds(ts: seq<Token>)
    requires TokensOk(ts) && ts != []
    ensures |Trees.NonZero(LitHist(ts), L_CODES)| >= 2
  {
    assert TokenOk(ts[0]);
    TokenSyms(ts[0]);
    HistMono(ts, 0);
    EndCounted(ts);
    hide LitHist, LitSym;
    SubsetSize({END_BLOCK, LitSym(ts[0])}, Trees.NonZero(LitHist(ts), L_CODES));
  }

  lemma KindsAgree(lens: seq<nat>, w: seq<nat>, n: nat)
    requires Best(lens, w) && |Trees.NonZero(w, |w|)| >= 2 && n <= |lens|
    ensures n <= |w| && Kinds(lens, n) == Kinds(w, n)
  {
    BestHeavy(lens, w);
    hide Best, Trees.NonZero, Fib, Total;
    SameKinds(lens, w, n);
  }

  // The header is large only by the number of different literals.
  lemma HeaderByKinds(h: Header, ts: seq<Token>)
    requires BuiltHeader(h, ts) && TokensOk(ts) && ts != [] && |ts| <= 127
    ensures HeaderLength(h) <= 400 + 11 * Kinds(LitHist(ts), END_BLOCK)
  {
    BuiltParts(h, ts);
    hide Best, LitHist, DistHist, HeaderLength, Trees.NonZero, Fib, Total, LeanItems, Kinds, HeaderOk, TokenOk,
      BothItems, BuiltHeader, Complete;
    FewSymbols(h, ts, 9);
    ShortHeaderBound(h);
    TwoKinds(ts);
    KindsAgree(h.ll, LitHist(ts), END_BLOCK);
  }

  // The sums that the choice of the dynamic block compares.
  lemma SmallerSums(h: Header, ts: seq<Token>)
    requires HeaderOk(h) && BothCoded(h.ll, h.dl, ts) && SmallerThanFixed(h, ts)
    ensures HeaderLength(h) + Dot(LitHist(ts), h.ll, L_CODES) + Dot(DistHist(ts), h.dl, D_CODES)
      < Dot(LitHist(ts), FixedLitLens(), L_CODES) + Dot(DistHist(ts), FixedDistLens(), D_CODES)
  {
    hide Dot, LitHist, DistHist, LitExtra, DistExtra, HeaderLength, BodyBits, Coded, TokenOk, Complete, Transmits,
      TreeHeader.ItemsCoded, OrderOk;
    BodySize(h.ll, h.dl, ts);
    BodySize(FixedLitLens(), FixedDistLens(), ts);
  }

  // q literals, of k kinds, and p matches; a and b of them have long codes,
  // which exceed the uniform code by x and y bits.
  lemma Balance(header: nat, q: nat, k: nat, p: nat, a: nat, b: nat, x: nat, y: nat, one: bool, empty: bool)
    requires q + p <= 127 && k <= q && a <= p && b <= p && x <= 5 * a && y <= 7 * b && x <= q + p + 1 && y <= p
    requires !empty ==> header <= 400 + 11 * k
    requires empty ==> q + p == 0
    requires header + x + y + 6 * k + 1 <= 8 * q + 4 * p - b + (if one then 7 * p - 3 * a + 32 else 6 * p - 2 * a + 64)
    ensures header + x + y <= 1013
  {
  }

  // What the symbols of a block of at most 127 exceed the uniform code by.
  lemma ExceedingParts(h: Header, ts: seq<Token>)
    requires BuiltHeader(h, ts) && |ts| <= 127
    ensures var w, v, x, y := LitHist(ts), DistHist(ts), Excess(h.ll, UnitLit()), Excess(h.dl, UnitDist());
      && Exceeding(h.ll, h.dl, ts) == Dot(w, x, L_CODES) + Dot(v, y, D_CODES)
      && Dot(w, x, L_CODES) <= Total(w, L_CODES) && Dot(w, x, L_CODES) <= 5 * Longer(w, x, L_CODES)
      && Dot(v, y, D_CODES) <= Total(v, D_CODES) && Dot(v, y, D_CODES) <= 7 * Longer(v, y, D_CODES)
      && Longer(w, x, L_CODES) + Total(w, END_BLOCK + 1) <= Total(w, L_CODES)
      && Longer(v, y, D_CODES) <= Total(v, D_CODES)
  {
    BuiltParts(h, ts);
    FewSymbols(h, ts, 9);
    ShortExcess(h.ll, h.dl);
    FibValues();
    hide Best, LitHist, DistHist, HeaderOk, BuiltHeader, LeanItems, Complete, Fib, Excess, UnitLit, UnitDist, Dot,
      Longer, Total, Mul;
    var w, v, x, y := LitHist(ts), DistHist(ts), Excess(h.ll, UnitLit()), Excess(h.dl, UnitDist());
    ExcessTotals(h.ll, h.dl, ts);
    LongerFew(w, x, L_CODES, 5);
    LongerFew(v, y, D_CODES, 7);
    LongerTotal(w, x, L_CODES, END_BLOCK + 1);
    LongerTotal(v, y, D_CODES, 0);
    TimesIs(5, Longer(w, x, L_CODES));
    TimesIs(7, Longer(v, y, D_CODES));
  }

  lemma TimesIs(a: nat, b: nat)
    ensures Mul(a, b) == a * b
  {
  }

  lemma ShortExcess(ll: seq<nat>, dl: seq<nat>)
    requires (forall s :: 0 <= s < |ll| ==> ll[s] <= 9) && forall s :: 0 <= s < |dl| ==> dl[s] <= 9
    ensures |Excess(ll, UnitLit())| == L_CODES && |Excess(dl, UnitDist())| == D_CODES
    ensures forall s :: 0 <= s < L_CODES ==> Excess(ll, UnitLit())[s] <= 5
    ensures forall s :: 0 <= s <= END_BLOCK ==> Excess(ll, UnitLit())[s] == 0
    ensures forall d :: 0 <= d < D_CODES ==> Excess(dl, UnitDist())[d] <= 7
  {
    forall s | 0 <= s < L_CODES ensures Excess(ll, UnitLit())[s] <= 5 {
      if s > END_BLOCK { LitExcess(s); }
    }
    forall d | 0 <= d < D_CODES ensures Excess(dl, UnitDist())[d] <= 7 {
      DistExtras(d);
    }
  }

  // What the choice of the dynamic block says about its header.
  lemma HeaderByGains(h: Header, ts: seq<Token>) returns (one: bool)
    requires BuiltHeader(h, ts) && BothCoded(h.ll, h.dl, ts) && SmallerThanFixed(h, ts)
    ensures var w, v, x, y := LitHist(ts), DistHist(ts), Excess(h.ll, UnitLit()), Excess(h.dl, UnitDist());
      HeaderLength(h) + Dot(w, x, L_CODES) + Dot(v, y, D_CODES) + 6 * Kinds(w, END_BLOCK) + 1
        <= 8 * Total(w, END_BLOCK) + 4 * Total(v, D_CODES) - Longer(v, y, D_CODES)
          + (if one then 7 * (Total(w, L_CODES) - Total(w, END_BLOCK) - 1) - 3 * Longer(w, x, L_CODES) + 32
             else 6 * (Total(w, L_CODES) - Total(w, END_BLOCK) - 1) - 2 * Longer(w, x, L_CODES) + 64)
  {
    BuiltParts(h, ts);
    hide Best, LitHist, DistHist, HeaderOk, BuiltHeader, LeanItems, TokenOk, Coded, Complete, Excess, UnitLit,
      UnitDist, Dot, Longer, Total, Kinds, SmallerThanFixed, HeaderLength;
    BestHeavy(h.ll, LitHist(ts));
    BestHeavy(h.dl, DistHist(ts));
    HistTotals(ts);
    SmallerSums(h, ts);
    LitGains(LitHist(ts), h.ll);
    DistGains(DistHist(ts), h.dl, D_CODES);
    one := LitGain(LitHist(ts), h.ll, true);
  }

  lemma SmallTotal(h: Header, ts: seq<Token>)
    requires BuiltHeader(h, ts) && BothCoded(h.ll, h.dl, ts) && SmallerThanFixed(h, ts) && |ts| <= 127
    ensures HeaderLength(h) + Exceeding(h.ll, h.dl, ts) <= 1013
  {
    assert HeaderOk(h) by { BuiltParts(h, ts); }
    hide Best, LitHist, DistHist, HeaderOk, BuiltHeader, LeanItems, TokenOk, Coded, Complete, Excess, UnitLit,
      UnitDist, Dot, Longer, Total, Kinds, SmallerThanFixed, HeaderLength, Exceeding;
    ExceedingParts(h, ts);
    var one := HeaderByGains(h, ts);
    HistTotals(ts);
    if ts != [] { HeaderByKinds(h, ts); }
    var w, v, x, y := LitHist(ts), DistHist(ts), Excess(h.ll, UnitLit()), Excess(h.dl, UnitDist());
    KindsFew(w, END_BLOCK);
    TotalStep(w, END_BLOCK);
    Balance(HeaderLength(h), Total(w, END_BLOCK), Kinds(w, END_BLOCK), Total(v, D_CODES), Longer(w, x, L_CODES),
      Longer(v, y, D_CODES), Dot(w, x, L_CODES), Dot(v, y, D_CODES), one, ts == []);
  }

  // The header and the first symbols stay within the free part of the buffer,
  // and what has been read of the others.
  lemma SmallPrefix(h: Header, ts: seq<Token>, k: nat)
    requires BuiltHeader(h, ts) && BothCoded(h.ll, h.dl, ts) && SmallerThanFixed(h, ts) && k <= |ts| <= 127
    ensures HeaderLength(h) + DynBits(h.ll, h.dl, ts, k) <= 24 * k + 1013
  {
    BuiltParts(h, ts);
    hide Best, HeaderOk, BuiltHeader, LeanItems, TokenOk, Coded, Complete, SmallerThanFixed, HeaderLength, DynBits,
      Exceeding;
    PrefixSize(h.ll, h.dl, ts, k);
    SmallTotal(h, ts);
  }

  lemma TotalStep(w: seq<nat>, n: nat)
    requires n < |w|
    ensures Total(w, n + 1) == Total(w, n) + w[n]
  {
  }
}
