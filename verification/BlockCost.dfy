// How often each symbol occurs in a block, and what the block costs in bits.
module BlockCost {
  import opened CanonicalCode
  import opened Format
  import opened Huffman
  import opened GenBitlen
  import opened TreeHeader
  function Zeros(n: nat): (s: seq<nat>)
    ensures |s| == n && forall i :: 0 <= i < n ==> s[i] == 0
  {
    seq(n, i => 0)
  }

  // One more occurrence of symbol s.
  function Inc(w: seq<nat>, s: nat): (r: seq<nat>)
    ensures |r| == |w|
  {
    if s < |w| then w[s := w[s] + 1] else w
  }

  lemma {:induction false} DotInc(w: seq<nat>, l: seq<nat>, s: nat, n: nat)
    requires n <= |w|
    ensures Dot(Inc(w, s), l, n) == Dot(w, l, n) + (if s < n && s < |l| then l[s] else 0)
  {
    if n > 0 {
      DotInc(w, l, s, n - 1);
      MulInc(w[n - 1], if n - 1 < |l| then l[n - 1] else 0);
    }
  }

  lemma MulInc(a: nat, b: nat)
    ensures Mul(a + 1, b) == Mul(a, b) + b
  {
  }

  lemma {:induction false} DotZeros(w: seq<nat>, l: seq<nat>, n: nat)
    requires n <= |w| && forall i :: 0 <= i < n ==> w[i] == 0
    ensures Dot(w, l, n) == 0
  {
    if n > 0 { DotZeros(w, l, n - 1); }
  }

  lemma {:induction false} DotAdd(w: seq<nat>, s: seq<nat>, x: seq<nat>, n: nat)
    requires n <= |w| && n <= |x| <= |s|
    ensures Dot(w, AddLens(s, x), n) == Dot(w, s, n) + Dot(w, x, n)
  {
    if n > 0 {
      DotAdd(w, s, x, n - 1);
      MulPlus(w[n - 1], s[n - 1], x[n - 1]);
    }
  }

  // Lengths of symbols that do not occur do not matter.
  lemma {:induction false} DotWhere(w: seq<nat>, l: seq<nat>, k: seq<nat>, n: nat)
    requires n <= |w|
    requires forall i :: 0 <= i < n && w[i] != 0 ==> i < |l| && i < |k| && l[i] == k[i]
    ensures Dot(w, l, n) == Dot(w, k, n)
  {
    if n > 0 {
      DotWhere(w, l, k, n - 1);
      MulNone(if n - 1 < |l| then l[n - 1] else 0);
      MulNone(if n - 1 < |k| then k[n - 1] else 0);
    }
  }

  lemma MulNone(b: nat)
    ensures Mul(0, b) == 0
  {
  }

  // ---- Literals, lengths and distances ----

  function LitSym(t: Token): nat {
    match t
    case Literal(c) => c
    case Match(len, _) => if len < MIN_MATCH then L_CODES else LITERALS + 1 + LengthCode(len - MIN_MATCH)
  }

  function DistSym(t: Token): nat {
    match t
    case Literal(_) => D_CODES
    case Match(_, dist) => if dist < 1 then D_CODES else DistCode(dist - 1)
  }

  // The end-of-block symbol is counted from the start (init_block()).
  function LitHist(ts: seq<Token>): (w: seq<nat>)
    ensures |w| == L_CODES
  {
    if ts == [] then Inc(Zeros(L_CODES), END_BLOCK) else Inc(LitHist(ts[..|ts| - 1]), LitSym(ts[|ts| - 1]))
  }

  function DistHist(ts: seq<Token>): (w: seq<nat>)
    ensures |w| == D_CODES
  {
    if ts == [] then Zeros(D_CODES) else Inc(DistHist(ts[..|ts| - 1]), DistSym(ts[|ts| - 1]))
  }

  lemma TokenSyms(t: Token)
    requires TokenOk(t)
    ensures LitSym(t) < L_CODES && LitSym(t) != END_BLOCK && (t.Match? ==> DistSym(t) < D_CODES)
  {
    if t.Match? {
      LengthCodeFits(t.len - MIN_MATCH);
      DistCodeFits(t.dist - 1);
    }
  }

  lemma {:induction false} HistMono(ts: seq<Token>, i: nat)
    requires i < |ts| && TokensOk(ts)
    ensures LitHist(ts)[LitSym(ts[i])] > 0 || LitSym(ts[i]) >= L_CODES
    ensures ts[i].Match? ==> DistHist(ts)[DistSym(ts[i])] > 0 || DistSym(ts[i]) >= D_CODES
    decreases |ts|
  {
    hide LitSym, DistSym;
    if i < |ts| - 1 {
      HistMono(ts[..|ts| - 1], i);
    }
  }

  lemma {:induction false} EndCounted(ts: seq<Token>)
    ensures LitHist(ts)[END_BLOCK] > 0
  {
    if ts != [] { EndCounted(ts[..|ts| - 1]); }
  }

  function TokenSize(ll: seq<nat>, dl: seq<nat>, t: Token): nat
    requires Coded(ll, dl, t)
  {
    match t
    case Literal(c) => ll[c]
    case Match(len, dist) =>
      LengthCodeFits(len - MIN_MATCH);
      DistCodeFits(dist - 1);
      ll[LitSym(t)] + EXTRA_LBITS[LengthCode(len - MIN_MATCH)] + (dl[DistSym(t)] + EXTRA_DBITS[DistCode(dist - 1)])
  }

  lemma TokenBitsSize(ll: seq<nat>, dl: seq<nat>, t: Token)
    requires Coded(ll, dl, t)
    ensures |TokenBits(ll, dl, t)| == TokenSize(ll, dl, t)
  {
  }

  function LitExtra(): seq<nat> {
    ExtraBits(EXTRA_LBITS, LITERALS + 1, L_CODES)
  }

  function DistExtra(): seq<nat> {
    ExtraBits(EXTRA_DBITS, 0, D_CODES)
  }

  // What all symbols cost, with their extra bits.
  ghost function BodyCost(ll: seq<nat>, dl: seq<nat>, ts: seq<Token>): nat {
    Dot(LitHist(ts), ll, L_CODES) + Dot(LitHist(ts), LitExtra(), L_CODES)
    + Dot(DistHist(ts), dl, D_CODES) + Dot(DistHist(ts), DistExtra(), D_CODES)
  }

  lemma CostStep(ll: seq<nat>, dl: seq<nat>, ts: seq<Token>, t: Token)
    requires Coded(ll, dl, t)
    ensures BodyCost(ll, dl, ts + [t]) == BodyCost(ll, dl, ts) + TokenSize(ll, dl, t)
  {
    assert (ts + [t])[..|ts|] == ts;
    TokenSyms(t);
    var s, d := LitSym(t), DistSym(t);
    ExtraAt(t);
    hide Dot, LitHist, DistHist, Inc, LitSym, DistSym, ExtraBits, LitExtra, DistExtra;
    HistStep(ts, t);
    DotInc(LitHist(ts), ll, s, L_CODES);
    DotInc(LitHist(ts), LitExtra(), s, L_CODES);
    DotInc(DistHist(ts), dl, d, D_CODES);
    DotInc(DistHist(ts), DistExtra(), d, D_CODES);
  }

  lemma HistStep(ts: seq<Token>, t: Token)
    ensures LitHist(ts + [t]) == Inc(LitHist(ts), LitSym(t)) && DistHist(ts + [t]) == Inc(DistHist(ts), DistSym(t))
  {
    assert (ts + [t])[..|ts|] == ts;
  }

  lemma ExtraAt(t: Token)
    requires TokenOk(t)
    ensures |LitExtra()| == L_CODES && |DistExtra()| == D_CODES && LitSym(t) < L_CODES
    ensures t.Literal? ==> DistSym(t) == D_CODES && LitExtra()[LitSym(t)] == 0
    ensures t.Match? ==> LitExtra()[LitSym(t)] == EXTRA_LBITS[LengthCode(t.len - MIN_MATCH)]
    ensures t.Match? ==> DistSym(t) < D_CODES && DistExtra()[DistSym(t)] == EXTRA_DBITS[DistCode(t.dist - 1)]
  {
    TokenSyms(t);
  }

  lemma {:induction false} TokensCost(ll: seq<nat>, dl: seq<nat>, ts: seq<Token>)
    requires AllCoded(ll, dl, ts) && END_BLOCK < |ll|
    ensures |TokensBits(ll, dl, ts)| + ll[END_BLOCK] == BodyCost(ll, dl, ts)
  {
    hide BodyCost, TokenSize, TokenBits, Coded;
    if ts == [] {
      EmptyCost(ll, dl);
    } else {
      var n := |ts| - 1;
      assert Coded(ll, dl, ts[n]);
      TokensCost(ll, dl, ts[..n]);
      CostStep(ll, dl, ts[..n], ts[n]);
      TokenBitsSize(ll, dl, ts[n]);
      assert ts[..n] + [ts[n]] == ts;
    }
  }

  lemma EmptyCost(ll: seq<nat>, dl: seq<nat>)
    requires END_BLOCK < |ll|
    ensures BodyCost(ll, dl, []) == ll[END_BLOCK]
  {
    var z := Zeros(L_CODES);
    assert |LitExtra()| == L_CODES && LitExtra()[END_BLOCK] == 0;
    hide Dot, Inc, LitExtra, DistExtra, ExtraBits;
    DotInc(z, ll, END_BLOCK, L_CODES);
    DotInc(z, LitExtra(), END_BLOCK, L_CODES);
    DotZeros(z, ll, L_CODES);
    DotZeros(z, LitExtra(), L_CODES);
    DotZeros(Zeros(D_CODES), dl, D_CODES);
    DotZeros(Zeros(D_CODES), DistExtra(), D_CODES);
  }

  // The symbols of a block and its end take as many bits as their codes cost.
  lemma BodySize(ll: seq<nat>, dl: seq<nat>, ts: seq<Token>)
    requires AllCoded(ll, dl, ts) && END_BLOCK < |ll|
    ensures |BodyBits(ll, dl, ts)| == BodyCost(ll, dl, ts)
  {
    TokensCost(ll, dl, ts);
    BitsOfLength(StreamCode(ll, END_BLOCK), ll[END_BLOCK]);
  }

  // ---- Items ----

  function ItemHist(items: seq<Item>): (w: seq<nat>)
    ensures |w| == BL_CODES
  {
    if items == [] then Zeros(BL_CODES) else Inc(ItemHist(items[..|items| - 1]), items[|items| - 1].sym)
  }

  lemma {:induction false} ItemHistCounts(items: seq<Item>, s: nat)
    requires s < BL_CODES
    ensures ItemHist(items)[s] == ItemCount(items, s)
  {
    if items != [] { ItemHistCounts(items[..|items| - 1], s); }
  }

  function ItemExtra(): seq<nat> {
    ExtraBits(EXTRA_BLBITS, 0, BL_CODES)
  }

  lemma {:induction false} ItemsSize(bl: seq<nat>, items: seq<Item>)
    requires |bl| == BL_CODES && Symbolic(items)
    ensures |ItemsBits(bl, items)| == Dot(ItemHist(items), bl, BL_CODES) + Dot(ItemHist(items), ItemExtra(), BL_CODES)
  {
    if items == [] {
      DotZeros(Zeros(BL_CODES), bl, BL_CODES);
      DotZeros(Zeros(BL_CODES), ItemExtra(), BL_CODES);
    } else {
      var front, it := items[..|items| - 1], items[|items| - 1];
      ItemsSize(bl, front);
      ItemBitsLength(bl, it);
      assert ItemExtra()[it.sym] == EXTRA_BLBITS[it.sym];
      hide Dot, ItemExtra, ItemBits, Inc;
      DotInc(ItemHist(front), bl, it.sym, BL_CODES);
      DotInc(ItemHist(front), ItemExtra(), it.sym, BL_CODES);
    }
  }
}
