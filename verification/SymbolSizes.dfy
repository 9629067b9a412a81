// How many bits the first symbols of a block take, in dynamic codes and in the
// fixed ones.
module SymbolSizes {
  import opened Bits
  import opened CanonicalCode
  import opened Format
  import opened Huffman
  import HuffmanDepth
  import TreeHeader
  import opened BlockFormat
  import opened BlockCost
  import CompressBlock
  import opened DynamicTrees
  import opened UniformCode
  import HeaderSize

  // ---- The sizes of symbols ----

  // By how much the fixed code of a symbol can be longer than a dynamic one.
  function Gain(t: Token): nat {
    match t
    case Literal(c) => FixedLen(c) - 1
    case Match(_, _) => FixedLen(LitSym(t)) + 3
  }

  function Gains(ts: seq<Token>): nat {
    if ts == [] then 0 else Gains(ts[..|ts| - 1]) + Gain(ts[|ts| - 1])
  }

  ghost predicate BothCoded(ll: seq<nat>, dl: seq<nat>, ts: seq<Token>) {
    TokensOk(ts) && AllCoded(ll, dl, ts) && AllCoded(FixedLitLens(), FixedDistLens(), ts)
  }

  // The bits of the first k symbols, in the dynamic and in the fixed codes.
  ghost function DynBits(ll: seq<nat>, dl: seq<nat>, ts: seq<Token>, k: nat): nat
    requires AllCoded(ll, dl, ts) && k <= |ts|
  {
    |TokensBits(ll, dl, ts[..k])|
  }

  ghost function FixBits(ts: seq<Token>, k: nat): nat
    requires AllCoded(FixedLitLens(), FixedDistLens(), ts) && k <= |ts|
  {
    |TokensBits(FixedLitLens(), FixedDistLens(), ts[..k])|
  }

  lemma SizeStep(ll: seq<nat>, dl: seq<nat>, ts: seq<Token>, k: nat)
    requires AllCoded(ll, dl, ts) && k < |ts|
    ensures Coded(ll, dl, ts[k])
    ensures |TokensBits(ll, dl, ts[..k + 1])| == |TokensBits(ll, dl, ts[..k])| + TokenSize(ll, dl, ts[k])
  {
    hide TokenBits, TokenSize, Coded;
    CompressBlock.TokensMore(ll, dl, ts, k);
    assert Coded(ll, dl, ts[k]);
    TokenBitsSize(ll, dl, ts[k]);
  }

  lemma NoTokens(ll: seq<nat>, dl: seq<nat>, ts: seq<Token>)
    requires AllCoded(ll, dl, ts)
    ensures |TokensBits(ll, dl, ts[..0])| == 0
  {
  }

  lemma GainsStep(ts: seq<Token>, k: nat)
    requires k < |ts|
    ensures Gains(ts[..k + 1]) == Gains(ts[..k]) + Gain(ts[k])
  {
    assert ts[..k + 1][..k] == ts[..k];
  }

  lemma GainToken(ll: seq<nat>, dl: seq<nat>, t: Token)
    requires TokenOk(t) && Coded(ll, dl, t) && Coded(FixedLitLens(), FixedDistLens(), t)
    ensures Gain(t) <= 11
    ensures TokenSize(FixedLitLens(), FixedDistLens(), t) <= TokenSize(ll, dl, t) + Gain(t)
  {
    TokenSyms(t);
    if t.Match? { CompressBlock.ExtraLimits(t.len - MIN_MATCH, t.dist - 1); }
    hide LengthCode, DistCode;
  }

  lemma GainsOne(ll: seq<nat>, dl: seq<nat>, ts: seq<Token>, i: nat)
    requires BothCoded(ll, dl, ts) && i < |ts|
    ensures FixBits(ts, i + 1) + DynBits(ll, dl, ts, i) + Gains(ts[..i])
         <= FixBits(ts, i) + DynBits(ll, dl, ts, i + 1) + Gains(ts[..i + 1])
    ensures Gains(ts[..i + 1]) <= Gains(ts[..i]) + 11
  {
    hide TokensBits, Gains, Gain, TokenSize, Coded;
    SizeStep(ll, dl, ts, i);
    SizeStep(FixedLitLens(), FixedDistLens(), ts, i);
    GainsStep(ts, i);
    GainToken(ll, dl, ts[i]);
  }

  // What the fixed codes of the symbols after the first k can gain.
  lemma {:induction false} GainsRest(ll: seq<nat>, dl: seq<nat>, ts: seq<Token>, k: nat, i: nat)
    requires BothCoded(ll, dl, ts) && k <= i <= |ts|
    ensures FixBits(ts, i) + DynBits(ll, dl, ts, k) + Gains(ts[..k]) <= FixBits(ts, k) + DynBits(ll, dl, ts, i) + Gains(ts[..i])
    ensures Gains(ts[..i]) <= Gains(ts[..k]) + 11 * (i - k)
    decreases i - k
  {
    hide FixBits, DynBits, Gains, Coded, TokenOk;
    if i > k {
      GainsRest(ll, dl, ts, k, i - 1);
      GainsOne(ll, dl, ts, i - 1);
    }
  }

  // A dynamic block that is smaller than a fixed one.
  ghost predicate SmallerThanFixed(h: Header, ts: seq<Token>)
    requires HeaderOk(h) && AllCoded(h.ll, h.dl, ts) && AllCoded(FixedLitLens(), FixedDistLens(), ts)
  {
    HeaderSize.HeaderLength(h) + |BodyBits(h.ll, h.dl, ts)| < |BodyBits(FixedLitLens(), FixedDistLens(), ts)|
  }

  // The header and the first k symbols take no more bits than the fixed codes
  // of these symbols, and what can be gained on the others.
  lemma ChosenPrefix(h: Header, ts: seq<Token>, k: nat)
    requires HeaderOk(h) && BothCoded(h.ll, h.dl, ts) && k <= |ts| && SmallerThanFixed(h, ts)
    ensures HeaderSize.HeaderLength(h) + DynBits(h.ll, h.dl, ts, k) + Gains(ts[..k]) <= FixBits(ts, k) + Gains(ts) + 5
    ensures Gains(ts) <= Gains(ts[..k]) + 11 * (|ts| - k)
  {
    hide TokensBits, Gains, HeaderSize.HeaderLength, Complete, Transmits, TreeHeader.ItemsCoded, OrderOk, StreamCode;
    assert ts[..|ts|] == ts;
    GainsRest(h.ll, h.dl, ts, k, |ts|);
    BitsOfLength(StreamCode(h.ll, END_BLOCK), h.ll[END_BLOCK]);
    BitsOfLength(StreamCode(FixedLitLens(), END_BLOCK), 7);
    assert FixedLitLens()[END_BLOCK] == 7;
  }

  // ---- Weights of symbols, added up over a block ----

  ghost function Spent(xl: seq<nat>, xd: seq<nat>, ts: seq<Token>): nat {
    Dot(LitHist(ts), xl, L_CODES) + Dot(DistHist(ts), xd, D_CODES)
  }

  lemma SpentStep(xl: seq<nat>, xd: seq<nat>, ts: seq<Token>, k: nat)
    requires k < |ts| && TokenOk(ts[k]) && |xl| == L_CODES && |xd| == D_CODES
    ensures LitSym(ts[k]) < L_CODES && (ts[k].Match? ==> DistSym(ts[k]) < D_CODES)
    ensures Spent(xl, xd, ts[..k + 1])
         == Spent(xl, xd, ts[..k]) + xl[LitSym(ts[k])] + (if ts[k].Match? then xd[DistSym(ts[k])] else 0)
  {
    var t := ts[k];
    TokenSyms(t);
    assert ts[..k + 1] == ts[..k] + [t];
    assert t.Literal? ==> DistSym(t) == D_CODES;
    hide Dot, LitHist, DistHist, Inc, LitSym, DistSym;
    HistStep(ts[..k], t);
    DotInc(LitHist(ts[..k]), xl, LitSym(t), L_CODES);
    DotInc(DistHist(ts[..k]), xd, DistSym(t), D_CODES);
  }

  lemma {:induction false} SpentMono(xl: seq<nat>, xd: seq<nat>, ts: seq<Token>, k: nat)
    requires k <= |ts| && TokensOk(ts) && |xl| == L_CODES && |xd| == D_CODES
    ensures Spent(xl, xd, ts[..k]) <= Spent(xl, xd, ts)
    decreases |ts| - k
  {
    hide Spent, TokenOk;
    if k == |ts| {
      assert ts[..k] == ts;
    } else {
      assert TokenOk(ts[k]);
      SpentMono(xl, xd, ts, k + 1);
      SpentStep(xl, xd, ts, k);
    }
  }

  // ---- Codes that did not have to be limited ----

  lemma ExcessToken(ll: seq<nat>, dl: seq<nat>, t: Token)
    requires TokenOk(t) && Coded(ll, dl, t) && LengthsInRange(ll)
    ensures LitSym(t) < L_CODES && (t.Match? ==> DistSym(t) < D_CODES)
    ensures TokenSize(ll, dl, t)
      <= 24 + Excess(ll, UnitLit())[LitSym(t)] + (if t.Match? then Excess(dl, UnitDist())[DistSym(t)] else 0)
  {
    TokenSyms(t);
    hide LengthCode, DistCode;
  }

  lemma {:induction false} ExcessPrefix(ll: seq<nat>, dl: seq<nat>, ts: seq<Token>, k: nat)
    requires TokensOk(ts) && AllCoded(ll, dl, ts) && LengthsInRange(ll) && k <= |ts|
    ensures DynBits(ll, dl, ts, k) <= 24 * k + Spent(Excess(ll, UnitLit()), Excess(dl, UnitDist()), ts[..k])
  {
    hide TokensBits, TokenSize, Coded, Excess, UnitLit, UnitDist, Spent, TokenOk;
    if k == 0 {
      NoTokens(ll, dl, ts);
    } else {
      var xl, xd := Excess(ll, UnitLit()), Excess(dl, UnitDist());
      assert |xl| == L_CODES && |xd| == D_CODES by { ExcessSizes(ll, dl); }
      ExcessPrefix(ll, dl, ts, k - 1);
      SizeStep(ll, dl, ts, k - 1);
      assert TokenOk(ts[k - 1]);
      ExcessToken(ll, dl, ts[k - 1]);
      SpentStep(xl, xd, ts, k - 1);
    }
  }

  lemma ExcessSizes(ll: seq<nat>, dl: seq<nat>)
    ensures |Excess(ll, UnitLit())| == L_CODES && |Excess(dl, UnitDist())| == D_CODES
  {
  }

  // What the symbols of a block exceed 24 bits by, all together.
  ghost function Exceeding(ll: seq<nat>, dl: seq<nat>, ts: seq<Token>): nat {
    Spent(Excess(ll, UnitLit()), Excess(dl, UnitDist()), ts)
  }

  lemma PrefixSize(ll: seq<nat>, dl: seq<nat>, ts: seq<Token>, k: nat)
    requires TokensOk(ts) && AllCoded(ll, dl, ts) && LengthsInRange(ll) && k <= |ts|
    ensures DynBits(ll, dl, ts, k) <= 24 * k + Exceeding(ll, dl, ts)
  {
    hide TokensBits, Coded, LitHist, DistHist, UnitLit, UnitDist, Excess, Dot;
    ExcessPrefix(ll, dl, ts, k);
    ExcessSizes(ll, dl);
    SpentMono(Excess(ll, UnitLit()), Excess(dl, UnitDist()), ts, k);
  }

  // In codes that did not have to be limited that is no more than one bit for
  // every length or literal, and one for every distance.
  lemma ExcessTotals(ll: seq<nat>, dl: seq<nat>, ts: seq<Token>)
    requires Complete(ll) && Complete(dl) && Best(ll, LitHist(ts)) && Best(dl, DistHist(ts)) && |ts| + 1 < HuffmanDepth.Fib(18)
    ensures Dot(LitHist(ts), Excess(ll, UnitLit()), L_CODES) <= Total(LitHist(ts), L_CODES)
    ensures Dot(DistHist(ts), Excess(dl, UnitDist()), D_CODES) <= Total(DistHist(ts), D_CODES)
  {
    hide Best, HuffmanDepth.Fib, LitHist, DistHist, KraftTo, UnitLit, UnitDist, Excess, Total, Dot, Complete, Pow2;
    LitTotal(ts);
    DistTotal(ts);
    UnitLitKraft(UnitLit());
    UnitDistKraft(UnitDist());
    UnitSizes();
    ExcessSmall(ll, LitHist(ts), UnitLit());
    ExcessSmall(dl, DistHist(ts), UnitDist());
  }

  // All symbols together take at most two bits each more than 24.
  lemma UncutPrefix(ll: seq<nat>, dl: seq<nat>, ts: seq<Token>, k: nat)
    requires TokensOk(ts) && AllCoded(ll, dl, ts) && Complete(ll) && Complete(dl) && k <= |ts|
    requires Best(ll, LitHist(ts)) && Best(dl, DistHist(ts)) && |ts| + 1 < HuffmanDepth.Fib(18)
    ensures DynBits(ll, dl, ts, k) <= 24 * k + 2 * |ts| + 1
  {
    hide TokensBits, Coded, Best, HuffmanDepth.Fib, LitHist, DistHist, KraftTo, UnitLit, UnitDist, Excess, Total, Dot;
    LitTotal(ts);
    DistTotal(ts);
    ExcessTotals(ll, dl, ts);
    PrefixSize(ll, dl, ts, k);
  }

  lemma UnitSizes()
    ensures |UnitLit()| == L_CODES && |UnitDist()| == D_CODES
    ensures forall s :: 0 <= s < L_CODES ==> UnitLit()[s] >= 1
    ensures forall d :: 0 <= d < D_CODES ==> UnitDist()[d] >= 1
  {
  }
}
