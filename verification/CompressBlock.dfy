// trees.c: the symbol buffer, and sending its symbols as the body of a block.
// The symbol buffer shares its array with the pending output.
module CompressBlock {
  import opened Bits
  import opened CanonicalCode
  import opened BitWriter
  import opened Format
  import opened Heap
  import Trees
  import opened TreeHeader
  import opened BlockFormat
  import StaticTrees
  import BlockCost

  // The tables that map lengths and distances to codes.
  ghost predicate Tables(length_code: seq<nat>, dist_code: seq<nat>) {
    && |length_code| == 256 && |dist_code| == 512
    && (forall lc :: 0 <= lc < 256 ==> length_code[lc] == LengthCode(lc))
    && (forall d: nat :: d < 32768 ==> StaticTrees.DCode(dist_code, d) == DistCode(d))
  }

  // ---- Symbols as three bytes: the distance, zero for a literal, and the
  // ---- literal or length less MIN_MATCH ----

  function DistOf(t: Token): nat {
    match t
    case Literal(_) => 0
    case Match(_, dist) => dist
  }

  function LcOf(t: Token): int {
    match t
    case Literal(c) => c
    case Match(len, _) => len - MIN_MATCH
  }

  // A number of two bytes, low byte first.
  function Short(lo: int, hi: int): int {
    lo + 256 * hi
  }

  predicate HoldsAt(buf: seq<byte>, at: nat, t: Token) {
    at + 3 <= |buf| && Short(buf[at], buf[at + 1]) == DistOf(t) && buf[at + 2] == LcOf(t)
  }

  // The symbols from number i on are in the buffer behind base.
  ghost predicate SymBuf(buf: seq<byte>, base: nat, ts: seq<Token>, i: nat) {
    forall k :: i <= k < |ts| ==> HoldsAt(buf, base + 3 * k, ts[k])
  }

  lemma SymBufKept(before: seq<byte>, after: seq<byte>, base: nat, ts: seq<Token>, i: nat, lo: nat, hi: nat)
    requires SymBuf(before, base, ts, i) && Kept(before, after, lo, hi) && hi <= base + 3 * i
    ensures SymBuf(after, base, ts, i)
  {
    forall k | i <= k < |ts| ensures HoldsAt(after, base + 3 * k, ts[k]) {
      assert HoldsAt(before, base + 3 * k, ts[k]);
    }
  }

  lemma SymBufAdd(before: seq<byte>, after: seq<byte>, base: nat, ts: seq<Token>, t: Token)
    requires SymBuf(before, base, ts, 0) && Kept(before, after, base + 3 * |ts|, base + 3 * |ts| + 3)
    requires HoldsAt(after, base + 3 * |ts|, t)
    ensures SymBuf(after, base, ts + [t], 0)
  {
    forall k | 0 <= k < |ts + [t]| ensures HoldsAt(after, base + 3 * k, (ts + [t])[k]) {
      if k < |ts| {
        assert HoldsAt(before, base + 3 * k, ts[k]);
      }
    }
  }

  // While the symbols are sent, the output stays behind the next one to read.
  ghost predicate Ahead(ll: seq<nat>, dl: seq<nat>, ts: seq<Token>, s0: nat, base: nat)
    requires AllCoded(ll, dl, ts)
  {
    forall k :: 0 <= k <= |ts| ==> s0 + |TokensBits(ll, dl, ts[..k])| < 8 * (base + 3 * k)
  }

  lemma FixedTokenSize(t: Token)
    requires Coded(FixedLitLens(), FixedDistLens(), t)
    ensures |TokenBits(FixedLitLens(), FixedDistLens(), t)| <= 31
  {
    hide LengthCode, DistCode, StreamCode, BitsOf, TokenBits;
    BlockCost.TokenBitsSize(FixedLitLens(), FixedDistLens(), t);
    if t.Match? {
      assert BlockCost.LitSym(t) >= 257;
      ExtraLimits(t.len - MIN_MATCH, t.dist - 1);
    }
  }

  lemma ExtraLimits(lc: nat, d: nat)
    requires lc <= 255 && d < 32768
    ensures LengthCode(lc) < LENGTH_CODES && EXTRA_LBITS[LengthCode(lc)] <= 5
    ensures DistCode(d) < D_CODES && EXTRA_DBITS[DistCode(d)] <= 13
  {
    LengthCodeFits(lc);
    DistCodeFits(d);
  }

  lemma {:induction false} FixedSize(ts: seq<Token>)
    requires AllCoded(FixedLitLens(), FixedDistLens(), ts)
    ensures |TokensBits(FixedLitLens(), FixedDistLens(), ts)| <= 31 * |ts|
  {
    if ts != [] {
      hide TokenBits, Coded;
      FixedSize(ts[..|ts| - 1]);
      FixedTokenSize(ts[|ts| - 1]);
    }
  }

  // Overlay safety: with the fixed codes, and at most 7 bits held when the
  // block starts, the output never overtakes the symbols still to be read.
  lemma FixedAhead(ts: seq<Token>, s0: nat, n: nat)
    requires AllCoded(FixedLitLens(), FixedDistLens(), ts)
    requires s0 <= 7 + 3 && |ts| <= n - 1 && n >= 4
    ensures Ahead(FixedLitLens(), FixedDistLens(), ts, s0, n)
  {
    hide TokensBits;
    forall k | 0 <= k <= |ts|
      ensures s0 + |TokensBits(FixedLitLens(), FixedDistLens(), ts[..k])| < 8 * (n + 3 * k)
    {
      FixedSize(ts[..k]);
    }
  }

  // ---- compress_block() ----

  lemma TokensMore(ll: seq<nat>, dl: seq<nat>, ts: seq<Token>, i: nat)
    requires AllCoded(ll, dl, ts) && i < |ts|
    ensures TokensBits(ll, dl, ts[..i + 1]) == TokensBits(ll, dl, ts[..i]) + TokenBits(ll, dl, ts[i])
  {
    assert ts[..i + 1][..i] == ts[..i];
  }

  lemma {:induction false} TokensMono(ll: seq<nat>, dl: seq<nat>, ts: seq<Token>, i: nat)
    requires AllCoded(ll, dl, ts) && i <= |ts|
    ensures |TokensBits(ll, dl, ts[..i])| <= |TokensBits(ll, dl, ts)|
    decreases |ts| - i
  {
    if i == |ts| {
      assert ts[..i] == ts;
    } else {
      hide TokensBits;
      TokensMono(ll, dl, ts, i + 1);
      TokensMore(ll, dl, ts, i);
    }
  }

  // Send the bits of one symbol.
  method SendToken(w: BitWriter, dist: nat, lc: byte, ltree: array<CtData>, dtree: array<CtData>, length_code: seq<nat>,
                   dist_code: seq<nat>, ghost ll: seq<nat>, ghost dl: seq<nat>, ghost t: Token)
    requires Tables(length_code, dist_code) && Ready(ltree[..], ll) && Ready(dtree[..], dl)
    requires Coded(ll, dl, t) && dist == DistOf(t) && lc == LcOf(t)
    requires w.Valid() && w.Sent() + |TokenBits(ll, dl, t)| <= 8 * w.buf.Length
    modifies w, w.buf
    ensures w.Valid() && w.Sent() == old(w.Sent()) + |TokenBits(ll, dl, t)|
    ensures w.Written() == old(w.Written()) + TokenBits(ll, dl, t)
    ensures old(w.pending) <= w.pending && Kept(old(w.buf[..]), w.buf[..], old(w.pending), w.pending)
  {
    hide CodeBits, LengthBits, DistBits, TokenBits, BitsOf, Pow2, Ready, Tables;
    if dist == 0 {
      LiteralBits(ll, dl, t);
      SendCode(w, lc, ltree, ll);
    } else {
      MatchBits(ll, dl, t);
      ghost var start := w.Written();
      assert start + (LengthBits(ll, lc) + DistBits(dl, dist - 1)) == start + LengthBits(ll, lc) + DistBits(dl, dist - 1);
      SendLength(w, lc, ltree, length_code, dist_code, ll);
      SendDist(w, dist - 1, dtree, length_code, dist_code, dl);
    }
  }

  lemma LiteralBits(ll: seq<nat>, dl: seq<nat>, t: Token)
    requires Coded(ll, dl, t) && DistOf(t) == 0
    ensures t.Literal? && |TokenBits(ll, dl, t)| == ll[t.c]
    ensures TokenBits(ll, dl, t) == CodeBits(ll, t.c)
  {
    BlockCost.TokenBitsSize(ll, dl, t);
  }

  method SendLength(w: BitWriter, lc: byte, ltree: array<CtData>, length_code: seq<nat>, ghost dist_code: seq<nat>, ghost ll: seq<nat>)
    requires Tables(length_code, dist_code) && Ready(ltree[..], ll)
    requires LITERALS + 1 + LengthCode(lc) < |ll| && ll[LITERALS + 1 + LengthCode(lc)] > 0
    requires w.Valid() && w.Sent() + |LengthBits(ll, lc)| <= 8 * w.buf.Length
    modifies w, w.buf
    ensures w.Valid() && w.Sent() == old(w.Sent()) + |LengthBits(ll, lc)|
    ensures w.Written() == old(w.Written()) + LengthBits(ll, lc)
    ensures old(w.pending) <= w.pending && Kept(old(w.buf[..]), w.buf[..], old(w.pending), w.pending)
  {
    hide BitsOf, Pow2, Prefixed, LengthCode, StreamCode, BytesBits, Trees.HasCodes;
    LengthCodeFits(lc);
    var code := length_code[lc];
    BitsOfLength(StreamCode(ll, LITERALS + 1 + code), ll[LITERALS + 1 + code]);
    ghost var start, c, e := w.Written(), CodeBits(ll, code + LITERALS + 1), BitsOf(lc - BASE_LENGTH[code], EXTRA_LBITS[code]);
    assert start + (c + e) == (start + c) + e;
    SendCode(w, code + LITERALS + 1, ltree, ll);
    var extra := EXTRA_LBITS[code];
    if extra != 0 {
      w.SendBits(lc - BASE_LENGTH[code], extra);
    } else {
      assert start + c + e == start + c;
    }
  }

  method SendDist(w: BitWriter, dist: nat, dtree: array<CtData>, ghost length_code: seq<nat>, dist_code: seq<nat>, ghost dl: seq<nat>)
    requires Tables(length_code, dist_code) && Ready(dtree[..], dl)
    requires dist < 32768 && DistCode(dist) < |dl| && dl[DistCode(dist)] > 0
    requires w.Valid() && w.Sent() + |DistBits(dl, dist)| <= 8 * w.buf.Length
    modifies w, w.buf
    ensures w.Valid() && w.Sent() == old(w.Sent()) + |DistBits(dl, dist)|
    ensures w.Written() == old(w.Written()) + DistBits(dl, dist)
    ensures old(w.pending) <= w.pending && Kept(old(w.buf[..]), w.buf[..], old(w.pending), w.pending)
  {
    hide BitsOf, Pow2, Prefixed, DistCode, StreamCode;
    DistCodeFits(dist);
    var code := StaticTrees.DCode(dist_code, dist);
    BitsOfLength(StreamCode(dl, code), dl[code]);
    ghost var start, c, e := w.Written(), CodeBits(dl, code), BitsOf(dist - BASE_DIST[code], EXTRA_DBITS[code]);
    assert start + (c + e) == (start + c) + e;
    SendCode(w, code, dtree, dl);
    var extra := EXTRA_DBITS[code];
    if extra != 0 {
      w.SendBits(dist - BASE_DIST[code], extra);
    } else {
      assert start + c + e == start + c;
    }
  }

  // Write the codes of all symbols, and of the end of the block. The symbols
  // are read from the array that w writes to, from lit_bufsize on.
  method CompressBlock(w: BitWriter, lit_bufsize: nat, sym_next: nat, ltree: array<CtData>, dtree: array<CtData>,
                       length_code: seq<nat>, dist_code: seq<nat>,
                       ghost ll: seq<nat>, ghost dl: seq<nat>, ghost ts: seq<Token>)
    requires Tables(length_code, dist_code) && Ready(ltree[..], ll) && Ready(dtree[..], dl)
    requires AllCoded(ll, dl, ts) && END_BLOCK < |ll| && ll[END_BLOCK] > 0
    requires sym_next == 3 * |ts| && SymBuf(w.buf[..], lit_bufsize, ts, 0)
    requires w.Valid() && w.Sent() + |BodyBits(ll, dl, ts)| <= 8 * w.buf.Length
    requires Ahead(ll, dl, ts, w.Sent(), lit_bufsize)
    modifies w, w.buf
    ensures w.Valid() && w.Sent() == old(w.Sent()) + |BodyBits(ll, dl, ts)|
    ensures w.Written() == old(w.Written()) + BodyBits(ll, dl, ts)
  {
    hide TokensBits, TokenBits, CodeBits, Coded, Ready, Tables, SymBuf;
    ghost var start, s0 := w.Written(), w.Sent();
    var sx: nat := 0;
    ghost var i: nat := 0;
    assert TokensBits(ll, dl, ts[..0]) == [] by { EmptyTokens(ll, dl, ts[..0]); }
    CodeSize(ll);
    while sx < sym_next
      invariant i <= |ts| && sx == 3 * i
      invariant w.Valid() && w.Sent() == s0 + |TokensBits(ll, dl, ts[..i])|
      invariant w.Written() == start + TokensBits(ll, dl, ts[..i])
      invariant SymBuf(w.buf[..], lit_bufsize, ts, i)
    {
      SymbolAt(w.buf[..], lit_bufsize, ts, i);
      var dist := Short(w.buf[lit_bufsize + sx], w.buf[lit_bufsize + sx + 1]);
      var lc := w.buf[lit_bufsize + sx + 2];
      sx := sx + 3;
      TokensMore(ll, dl, ts, i);
      TokensMono(ll, dl, ts, i + 1);
      ghost var done := TokensBits(ll, dl, ts[..i]);
      assert start + (done + TokenBits(ll, dl, ts[i])) == start + done + TokenBits(ll, dl, ts[i]);
      ghost var before := w.buf[..];
      ghost var p := w.pending;
      SendToken(w, dist, lc, ltree, dtree, length_code, dist_code, ll, dl, ts[i]);
      i := i + 1;
      assert w.Sent() < 8 * (lit_bufsize + 3 * i);
      SymBufNext(before, w.buf[..], lit_bufsize, ts, i, p, w.pending);
    }
    assert ts[..i] == ts;
    assert start + (TokensBits(ll, dl, ts) + CodeBits(ll, END_BLOCK)) == start + TokensBits(ll, dl, ts) + CodeBits(ll, END_BLOCK);
    SendCode(w, END_BLOCK, ltree, ll);
  }

  lemma CodeSize(ll: seq<nat>)
    requires END_BLOCK < |ll|
    ensures |CodeBits(ll, END_BLOCK)| == ll[END_BLOCK]
  {
    BitsOfLength(StreamCode(ll, END_BLOCK), ll[END_BLOCK]);
  }

  lemma EmptyTokens(ll: seq<nat>, dl: seq<nat>, ts: seq<Token>)
    requires ts == []
    ensures AllCoded(ll, dl, ts) && TokensBits(ll, dl, ts) == []
  {
  }

  lemma SymbolAt(buf: seq<byte>, base: nat, ts: seq<Token>, i: nat)
    requires SymBuf(buf, base, ts, i) && i < |ts|
    ensures base + 3 * i + 3 <= |buf|
    ensures Short(buf[base + 3 * i], buf[base + 3 * i + 1]) == DistOf(ts[i]) && buf[base + 3 * i + 2] == LcOf(ts[i])
  {
    assert HoldsAt(buf, base + 3 * i, ts[i]);
  }

  lemma SymBufNext(before: seq<byte>, after: seq<byte>, base: nat, ts: seq<Token>, i: nat, lo: nat, hi: nat)
    requires i >= 1 && SymBuf(before, base, ts, i - 1) && Kept(before, after, lo, hi) && hi <= base + 3 * i
    ensures SymBuf(after, base, ts, i)
  {
    SymBufKept(before, after, base, ts, i, lo, hi);
  }
}
