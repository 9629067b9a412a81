// trees.c: tallying symbols, and writing out a block in the best encoding.
module FlushBlock {
  import opened Bits
  import opened CanonicalCode
  import opened BitWriter
  import opened Format
  import opened Heap
  import opened Huffman
  import opened TreeMerge
  import opened GenBitlen
  import opened Trees
  import opened TreeHeader
  import opened BlockFormat
  import opened StaticTrees
  import opened BlockCost
  import opened CompressBlock
  import opened DynamicTrees
  import opened HuffmanShape
  import HuffmanDepth
  import opened UniformCode
  import HeaderSize
  import Overlay

  // ---- Both trees of a block, and the header that describes them ----

  lemma ExtrasAreZero()
    ensures forall i :: 0 <= i < 3 ==> LitExtra()[i] == 0 && DistExtra()[i] == 0
  {
  }

  // The codes of a tree are good for all symbols counted in it.
  lemma TreeCodes(tree: seq<CtData>, w0: seq<nat>, elems: nat, max_code: nat, lens: seq<nat>)
    requires TreeOk(tree, w0, elems, max_code, MAX_BITS) && |w0| == elems && lens == SymbolLens(tree, max_code + 1)
    ensures forall s :: 0 <= s < elems && w0[s] > 0 ==> s < |lens| && lens[s] > 0
    ensures Dot(w0, Lens(tree), elems) == Dot(w0, lens, elems)
    ensures Ready(tree, lens) && forall i :: 0 <= i < |lens| ==> lens[i] <= 15
  {
    hide Complete, Prefixed, HasCodes, Dot;
    CompleteIsPrefixed(lens);
    DotWhere(w0, Lens(tree), lens, elems);
  }

  lemma SymbolsCoded(ll: seq<nat>, dl: seq<nat>, ts: seq<Token>)
    requires TokensOk(ts)
    requires forall s :: 0 <= s < L_CODES && LitHist(ts)[s] > 0 ==> s < |ll| && ll[s] > 0
    requires forall s :: 0 <= s < D_CODES && DistHist(ts)[s] > 0 ==> s < |dl| && dl[s] > 0
    ensures AllCoded(ll, dl, ts) && END_BLOCK < |ll| && ll[END_BLOCK] > 0
  {
    hide LitHist, DistHist, LengthCode, DistCode;
    EndCounted(ts);
    forall i | 0 <= i < |ts| ensures Coded(ll, dl, ts[i]) {
      TokenSyms(ts[i]);
      HistMono(ts, i);
    }
  }

  lemma FixedCoded(ts: seq<Token>)
    requires TokensOk(ts)
    ensures AllCoded(FixedLitLens(), FixedDistLens(), ts)
  {
    hide LengthCode, DistCode;
    forall i | 0 <= i < |ts| ensures Coded(FixedLitLens(), FixedDistLens(), ts[i]) {
      TokenSyms(ts[i]);
    }
  }

  // static_len is the size of the block's body in the fixed codes.
  lemma StaticSize(ts: seq<Token>)
    requires TokensOk(ts)
    ensures AllCoded(FixedLitLens(), FixedDistLens(), ts)
    ensures |BodyBits(FixedLitLens(), FixedDistLens(), ts)|
         == Dot(LitHist(ts), StaticBits(FixedLitLens(), LitExtra()), L_CODES)
          + Dot(DistHist(ts), StaticBits(FixedDistLens(), DistExtra()), D_CODES)
  {
    FixedCoded(ts);
    hide Dot, LitHist, DistHist, LitExtra, DistExtra, BodyBits;
    BodySize(FixedLitLens(), FixedDistLens(), ts);
    ExtraLengths();
    DotAdd(LitHist(ts), FixedLitLens(), LitExtra(), L_CODES);
    DotAdd(DistHist(ts), FixedDistLens(), DistExtra(), D_CODES);
  }

  lemma ExtraLengths()
    ensures |LitExtra()| == L_CODES && |DistExtra()| == D_CODES
  {
  }

  lemma TreeBest(tree: seq<CtData>, w0: seq<nat>, elems: nat, max_code: nat, lens: seq<nat>, cut: bool, g: Shape, occ: nat)
    requires TreeOk(tree, w0, elems, max_code, MAX_BITS) && |w0| == elems && lens == SymbolLens(tree, max_code + 1)
    requires !cut && |NonZero(w0, elems)| >= 2 ==> Optimal(tree, w0, elems)
    requires occ <= Total(w0, elems) && (cut ==> HuffmanDepth.Fib(MAX_BITS + 3) <= occ)
    requires forall j :: 1 <= j <= MAX_BITS && (cut ==> Upper(MAX_BITS, j - 1, elems)) ==> SteepFor(tree, w0, elems, occ, j)
    requires TreeOf(g, w0) && forall i :: 0 <= i < elems && i !in g.leaves ==> tree[i].dl == 0
    requires Modest(Lens(tree), w0, elems, occ)
    ensures Best(lens, w0)
  {
    hide HuffmanDepth.Fib, Upper, Total, PrefixLengths, NoneCheaper, Optimal, TreeOf, TreeOk, Modest, NonZero, FewCodes,
      SteepFor, SteepLens;
    LengthFacts(tree, w0, elems, max_code, lens, occ);
    if !cut && |NonZero(w0, elems)| >= 2 { TreeCheapest(tree, w0, elems, lens); }
    TreeSteep(tree, w0, elems, lens, cut, occ);
    FewCoded(g, w0, lens);
  }

  lemma LengthFacts(tree: seq<CtData>, w0: seq<nat>, elems: nat, max_code: nat, lens: seq<nat>, occ: nat)
    requires TreeOk(tree, w0, elems, max_code, MAX_BITS) && |w0| == elems && lens == SymbolLens(tree, max_code + 1)
    requires occ <= Total(w0, elems) && Modest(Lens(tree), w0, elems, occ)
    ensures forall i, j :: 0 <= i < |lens| && 0 <= j < |lens| && 0 < w0[i] < w0[j] ==> lens[i] >= lens[j]
    ensures |lens| == max_code + 1 && elems <= |tree| && forall i :: 0 <= i < |lens| ==> lens[i] == tree[i].dl
    ensures |lens| <= |w0| && lens != [] && lens[|lens| - 1] > 0
    ensures forall s :: 0 <= s < |w0| && w0[s] > 0 ==> s < |lens| && lens[s] > 0
    ensures forall s :: 0 <= s < |lens| && lens[s] > 1 ==> HuffmanDepth.Fib(lens[s] + 2) <= Total(w0, |w0|)
  {
    hide Complete, HasCodes, Dot, HuffmanDepth.Fib, Mul, Total, NonZero;
    assert forall i :: 0 <= i < |lens| ==> lens[i] == tree[i].dl == Lens(tree)[i];
  }

  // How steeply the lengths of a tree fall.
  lemma TreeSteep(tree: seq<CtData>, w0: seq<nat>, elems: nat, lens: seq<nat>, cut: bool, occ: nat)
    requires |lens| <= elems <= |tree| && |w0| == elems && lens == SymbolLens(tree, |lens|)
    requires occ <= Total(w0, elems)
    requires forall j :: 1 <= j <= MAX_BITS && (cut ==> Upper(MAX_BITS, j - 1, elems)) ==> SteepFor(tree, w0, elems, occ, j)
    ensures forall j :: 1 <= j <= MAX_BITS && Upper(MAX_BITS, j - 1, |w0|) ==> SteepLens(lens, w0, j)
  {
    hide Dot, HuffmanDepth.Fib, Upper, Mul, Total;
    assert forall i :: 0 <= i < |lens| ==> lens[i] == tree[i].dl;
    forall j | 1 <= j <= MAX_BITS && Upper(MAX_BITS, j - 1, |w0|) ensures SteepLens(lens, w0, j) {
      assert SteepFor(tree, w0, elems, occ, j);
    }
  }

  lemma TreeCheapest(tree: seq<CtData>, w0: seq<nat>, elems: nat, lens: seq<nat>)
    requires |lens| <= elems <= |tree| && |w0| == elems && lens == SymbolLens(tree, |lens|)
    requires (forall i :: |lens| <= i < elems ==> w0[i] == 0) && Optimal(tree, w0, elems)
    ensures NoneCheaper(lens, w0)
  {
    hide Dot, PrefixLengths, NonZero;
    assert forall i :: 0 <= i < elems ==> Lens(tree)[i] == tree[i].dl;
    DotWhere(w0, Lens(tree), lens, elems);
  }

  lemma FewCoded(g: Shape, w0: seq<nat>, lens: seq<nat>)
    requires TreeOf(g, w0) && |lens| <= |w0| && forall i :: 0 <= i < |lens| && lens[i] > 0 ==> i in g.leaves
    ensures FewCodes(lens, w0)
    ensures |NonZero(w0, |w0|)| >= 2 ==> forall i :: 0 <= i < |lens| && lens[i] > 0 ==> w0[i] > 0
  {
    SubsetSize(NonZero(lens, |lens|), g.leaves);
  }

  lemma UsedIs(tree: seq<CtData>, n: nat)
    requires n <= |tree|
    ensures Used(tree, n) == NonZero(Freqs(tree, n), n)
  {
  }

  // What the trees of a block must be like to send it.
  ghost predicate TreesBuilt(ltree: seq<CtData>, dtree: seq<CtData>, bl_tree: seq<CtData>, lmax: nat, dmax: nat,
                             h: Header, ts: seq<Token>)
  {
    && lmax + 1 < |ltree| && dmax + 1 < |dtree| && BL_CODES <= |bl_tree|
    && HeaderSize.BuiltHeader(h, ts) && h.ll == SymbolLens(ltree, lmax + 1) && h.dl == SymbolLens(dtree, dmax + 1)
    && Ready(ltree, h.ll) && Ready(dtree, h.dl) && Ready(bl_tree, h.bl)
    && ltree[lmax + 1].dl == GUARD && dtree[dmax + 1].dl == GUARD
    && AllCoded(h.ll, h.dl, ts)
  }

  lemma OccurrencesOf(tree: seq<CtData>, w: seq<nat>, n: nat)
    requires n <= |tree| && w == Freqs(tree, n)
    ensures Occurrences(tree, n) <= Total(w, n)
  {
    SumBelowTotal(Used(tree, n), w, n);
  }

  lemma GuardedTree(before: seq<CtData>, after: seq<CtData>, n: nat, lens: seq<nat>)
    requires n < |before| && after == before[n := before[n].(dl := GUARD)]
    requires lens == SymbolLens(before, n) && Ready(before, lens)
    ensures lens == SymbolLens(after, n) && Ready(after, lens)
  {
    hide Prefixed;
    GuardKeeps(before, after, n);
  }

  lemma HeaderIsOk(h: Header)
    requires 257 <= |h.ll| <= L_CODES && 1 <= |h.dl| <= D_CODES
    requires Complete(h.ll) && Complete(h.dl) && h.ll[END_BLOCK] > 0
    requires OrderOk(h.bl, h.nb) && ItemsCoded(h.bl, h.items) && Transmits(h.items, h.ll + h.dl)
    ensures HeaderOk(h)
  {
  }

  // Construct the literal, distance and bit length trees of a block. opt and
  // static_bits are the lengths of the block's encodings without their first
  // three bits.
  method BuildTrees(ltree: array<CtData>, dtree: array<CtData>, bl_tree: array<CtData>,
                    heap: array<nat>, depth: array<nat>, bl_count: array<nat>, ghost ts: seq<Token>)
      returns (lmax: nat, dmax: nat, nb: nat, opt: nat, static_bits: nat, ghost h: Header)
    requires ltree != dtree && ltree != bl_tree && dtree != bl_tree
    requires ltree.Length == 2 * L_CODES + 1 && dtree.Length == 2 * D_CODES + 1 && bl_tree.Length == 2 * BL_CODES + 1
    requires heap != depth && heap != bl_count && heap.Length == depth.Length == HEAP_SIZE && bl_count.Length == MAX_BITS + 1
    requires TokensOk(ts) && |ts| <= 65532
    requires Freqs(ltree[..], L_CODES) == LitHist(ts) && Freqs(dtree[..], D_CODES) == DistHist(ts)
    requires Freqs(bl_tree[..], BL_CODES) == Zeros(BL_CODES)
    modifies ltree, dtree, bl_tree, heap, depth, bl_count
    ensures TreesBuilt(ltree[..], dtree[..], bl_tree[..], lmax, dmax, h, ts) && nb == h.nb
    ensures opt == |HeaderBits(h)| + |BodyBits(h.ll, h.dl, ts)|
    ensures AllCoded(FixedLitLens(), FixedDistLens(), ts)
    ensures static_bits == |BodyBits(FixedLitLens(), FixedDistLens(), ts)|
  {
    hide Sum, Dot, LitHist, DistHist, Total, Pow2, Occurrences, Optimal, Shortest, LitExtra, DistExtra, HeaderBits,
      BodyBits, TreeOk, Complete, Prefixed, HasCodes, Coded, ItemsCoded, Transmits, OrderOk, Best, HuffmanDepth.Fib,
      Upper, SteepFor, TreeOf, Ready, HeaderOk, AllCoded, BothItems, ExtraBits, StaticBits, TokensOk;
    LitTotal(ts);
    UsedIs(ltree[..], L_CODES);
    UsedIs(dtree[..], D_CODES);
    DistTotal(ts);
    OccurrencesOf(ltree[..], LitHist(ts), L_CODES);
    OccurrencesOf(dtree[..], DistHist(ts), D_CODES);
    ghost var locc, docc := Occurrences(ltree[..], L_CODES), Occurrences(dtree[..], D_CODES);
    ExtrasAreZero();
    ExtraLengths();
    Limits();
    ghost var lx, dx := LitExtra(), DistExtra();
    assert lx == ExtraBits(EXTRA_LBITS, LITERALS + 1, L_CODES) && dx == ExtraBits(EXTRA_DBITS, 0, D_CODES) by {
      ExtrasAre();
    }
    var lopt, lst, dopt, dst, bopt;
    ghost var lcut, dcut, lg, dg;
    lmax, lopt, lst, lcut, lg :=
      BuildTree(ltree, L_CODES, heap, depth, bl_count, EXTRA_LBITS, LITERALS + 1, FixedLitLens(), MAX_BITS);
    ghost var lt := ltree[..];
    dmax, dopt, dst, dcut, dg :=
      BuildTree(dtree, D_CODES, heap, depth, bl_count, EXTRA_DBITS, 0, FixedDistLens(), MAX_BITS);
    ghost var dt := dtree[..];
    ghost var ll, dl := LensUpTo(lt, lmax, LitHist(ts), L_CODES), LensUpTo(dt, dmax, DistHist(ts), D_CODES);
    TreeCodes(lt, LitHist(ts), L_CODES, lmax, ll);
    TreeCodes(dt, DistHist(ts), D_CODES, dmax, dl);
    TreeBest(lt, LitHist(ts), L_CODES, lmax, ll, lcut, lg, locc);
    TreeBest(dt, DistHist(ts), D_CODES, dmax, dl, dcut, dg, docc);
    SymbolsCoded(ll, dl, ts);
    TreeFacts(lt, LitHist(ts), L_CODES, lmax, ll);
    TreeFacts(dt, DistHist(ts), D_CODES, dmax, dl);
    nb, bopt := BuildBlTree(ltree, lmax, dtree, dmax, bl_tree, heap, depth, bl_count);
    h := Header(ll, dl, SymbolLens(bl_tree[..], BL_CODES), nb, BothItems(ll, dl));
    GuardedTree(lt, ltree[..], lmax + 1, ll);
    GuardedTree(dt, dtree[..], dmax + 1, dl);
    HeaderIsOk(h);
    BodySize(ll, dl, ts);
    StaticSize(ts);
    opt := lopt + dopt + bopt;
    static_bits := lst + dst;
  }

  ghost function LensUpTo(tree: seq<CtData>, max_code: nat, w0: seq<nat>, elems: nat): seq<nat>
    requires TreeOk(tree, w0, elems, max_code, MAX_BITS)
  {
    SymbolLens(tree, max_code + 1)
  }

  lemma TreeFacts(tree: seq<CtData>, w0: seq<nat>, elems: nat, max_code: nat, lens: seq<nat>)
    requires TreeOk(tree, w0, elems, max_code, MAX_BITS) && |w0| == elems && lens == SymbolLens(tree, max_code + 1)
    ensures Complete(lens) && max_code < elems && |lens| == max_code + 1
    ensures forall i :: 0 <= i <= max_code ==> tree[i].dl == lens[i]
  {
    hide Complete, HasCodes;
  }

  lemma ExtrasAre()
    ensures LitExtra() == ExtraBits(EXTRA_LBITS, LITERALS + 1, L_CODES) && DistExtra() == ExtraBits(EXTRA_DBITS, 0, D_CODES)
  {
  }

  lemma Limits()
    ensures |EXTRA_LBITS| == LENGTH_CODES && |EXTRA_DBITS| == D_CODES && L_CODES <= Pow2(MAX_BITS) && D_CODES <= Pow2(MAX_BITS)
  {
    Pow2Values();
  }

  // ---- Stored blocks ----

  method CopyBytes(w: BitWriter, data: seq<byte>)
    requires w.Valid() && w.bi_valid == 0 && w.pending + |data| <= w.buf.Length
    modifies w, w.buf
    ensures w.Valid() && w.bi_valid == 0 && w.Sent() == old(w.Sent()) + 8 * |data|
    ensures w.Written() == old(w.Written()) + BytesBits(data)
  {
    hide BytesBits, BitsOf, Pow2;
    var i := 0;
    EmptyBytes(data[..0]);
    ghost var start := w.Written();
    assert w.Written() == BytesBits(w.buf[..w.pending]) by { NoBits(w.bi_buf); }
    while i < |data|
      invariant 0 <= i <= |data| && w.pending == old(w.pending) + i && w.bi_valid == 0 && w.bi_buf == old(w.bi_buf)
      invariant BytesBits(w.buf[..w.pending]) == start + BytesBits(data[..i])
    {
      BytesBitsConcat(w.buf[..w.pending], [data[i]]);
      BytesBitsConcat(data[..i], [data[i]]);
      assert data[..i + 1] == data[..i] + [data[i]];
      assert start + (BytesBits(data[..i]) + BytesBits([data[i]])) == start + BytesBits(data[..i]) + BytesBits([data[i]]);
      w.PutByte(data[i]);
      i := i + 1;
    }
    assert data[..i] == data;
    NoBits(w.bi_buf);
    assert w.Written() == BytesBits(w.buf[..w.pending]) + BitsOf(w.bi_buf, 0);
  }

  lemma NoBits(v: nat)
    ensures BitsOf(v, 0) == []
  {
  }

  lemma EmptyBytes(s: seq<byte>)
    requires s == []
    ensures BytesBits(s) == []
  {
  }

  // Send a stored block.
  method StoredBlock(w: BitWriter, data: seq<byte>, last: bool)
    requires w.Valid() && |data| <= 65535 && w.Sent() + 42 + 8 * |data| <= 8 * w.buf.Length
    modifies w, w.buf
    ensures w.Valid() && w.bi_valid == 0
    ensures w.Written() == old(w.Written()) + BlockBits(Stored(data), last, old(w.Sent()))
    ensures w.Sent() == old(w.Sent()) + |BlockBits(Stored(data), last, old(w.Sent()))|
  {
    hide BytesBits, BitsOf, Pow2, BlockBits, Padding, Aligned;
    assert Pow2(3) == 8 by { Pow2Values(); }
    ghost var start, pos := w.Written(), w.Sent() + 3;
    StoredParts(data, last, w.Sent());
    StoredHead(w, |data|, last);
    CopyBytes(w, data);
    JoinStored(start, BitsOf(STORED_BLOCK * 2 + (if last then 1 else 0), 3), BitsOf(0, Padding(pos)), BitsOf(|data|, 16),
      BitsOf(65535 - |data|, 16), BytesBits(data));
  }

  // The type of a stored block, and its length from a byte boundary on.
  method StoredHead(w: BitWriter, n: nat, last: bool)
    requires w.Valid() && n <= 65535 && w.Sent() + 42 <= 8 * w.buf.Length
    modifies w, w.buf
    ensures w.Valid() && w.bi_valid == 0 && w.Sent() == old(w.Sent()) + 3 + Padding(old(w.Sent()) + 3) + 32
    ensures w.Written() == old(w.Written()) + BitsOf(STORED_BLOCK * 2 + (if last then 1 else 0), 3)
      + BitsOf(0, Padding(old(w.Sent()) + 3)) + BitsOf(n, 16) + BitsOf(65535 - n, 16)
  {
    hide BytesBits, BitsOf, Pow2, Padding;
    assert Pow2(3) == 8 by { Pow2Values(); }
    PaddingBound(w.Sent() + 3);
    w.SendBits(STORED_BLOCK * 2 + (if last then 1 else 0), 3);
    w.BiWindup();
    PutLengths(w, n);
  }

  // The length of a stored block, and its complement.
  method PutLengths(w: BitWriter, n: nat)
    requires w.Valid() && w.bi_valid == 0 && n <= 65535 && w.pending + 4 <= w.buf.Length
    modifies w, w.buf
    ensures w.Valid() && w.bi_valid == 0 && w.Sent() == old(w.Sent()) + 32
    ensures w.Written() == old(w.Written()) + BitsOf(n, 16) + BitsOf(65535 - n, 16)
  {
    hide BytesBits, BitsOf, Pow2;
    PutAligned(w, n);
    PutAligned(w, 65535 - n);
  }

  method PutAligned(w: BitWriter, v: nat)
    requires w.Valid() && w.bi_valid == 0 && v <= 65535 && w.pending + 2 <= w.buf.Length
    modifies w, w.buf
    ensures w.Valid() && w.bi_valid == 0 && w.Sent() == old(w.Sent()) + 16
    ensures w.Written() == old(w.Written()) + BitsOf(v, 16)
  {
    hide BytesBits, BitsOf, Pow2;
    NoBits(w.bi_buf);
    assert w.Written() == BytesBits(w.buf[..w.pending]) + BitsOf(w.bi_buf, 0);
    w.PutShort(v);
    NoBits(w.bi_buf);
    assert w.Written() == BytesBits(w.buf[..w.pending]) + BitsOf(w.bi_buf, 0);
  }

  lemma JoinStored(s: seq<bool>, a: seq<bool>, b: seq<bool>, c: seq<bool>, d: seq<bool>, e: seq<bool>)
    ensures s + a + b + c + d + e == s + (a + (b + c + d + e))
  {
  }

  ghost predicate Aligned(n: nat) {
    n % 8 == 0
  }

  lemma StoredParts(data: seq<byte>, last: bool, pos: nat)
    requires |data| <= 65535
    ensures BlockBits(Stored(data), last, pos) == BitsOf(STORED_BLOCK * 2 + (if last then 1 else 0), 3)
      + (BitsOf(0, Padding(pos + 3)) + BitsOf(|data|, 16) + BitsOf(65535 - |data|, 16) + BytesBits(data))
    ensures |BlockBits(Stored(data), last, pos)| == 3 + Padding(pos + 3) + 32 + 8 * |data|
    ensures Padding(pos + 3) <= 7 && Aligned(pos + 3 + Padding(pos + 3))
  {
    hide BytesBits, BitsOf;
    BitsOfLength(STORED_BLOCK * 2 + (if last then 1 else 0), 3);
    BitsOfLength(0, Padding(pos + 3));
    BitsOfLength(|data|, 16);
    BitsOfLength(65535 - |data|, 16);
  }

  // ---- _tr_flush_block() ----

  // The encoding of a block that is chosen, given the sizes of the encodings;
  // fixed says that only the fixed codes are allowed.
  ghost predicate Chosen(b: Block, data: seq<byte>, have_buf: bool, ts: seq<Token>, h: Header, opt: nat, static_bits: nat,
                         fixed: bool)
  {
    var opt_lenb, static_lenb := (opt + 3 + 7) / 8, (static_bits + 3 + 7) / 8;
    var lenb := if static_lenb <= opt_lenb || fixed then static_lenb else opt_lenb;
    b == if |data| + 4 <= lenb && have_buf then Stored(data)
         else if static_lenb == lenb then Fixed(ts)
         else Dynamic(h, ts)
  }

  // n bytes are just enough for so many bits.
  predicate BytesFor(bits: nat, n: nat) {
    bits <= 8 * n < bits + 8
  }

  // The encoding with the fewest bytes is chosen, of those that are allowed: a
  // stored block, with four bytes for its length, where it is no longer than the
  // others, and else the fixed codes where they are no longer than the dynamic
  // ones.
  lemma ChosenLeast(b: Block, data: seq<byte>, have_buf: bool, ts: seq<Token>, h: Header, opt: nat, static_bits: nat,
                    fixed: bool, d: nat, f: nat)
    requires Chosen(b, data, have_buf, ts, h, opt, static_bits, fixed)
    requires BytesFor(3 + opt, d) && BytesFor(3 + static_bits, f)
    ensures b == Stored(data) || b == Fixed(ts) || b == Dynamic(h, ts)
    ensures b.Stored? <==> have_buf && |data| + 4 <= f && (fixed || |data| + 4 <= d)
    ensures b.Fixed? <==> (have_buf ==> f < |data| + 4) && (fixed || f <= d)
    ensures b.Dynamic? <==> !fixed && d < f && (have_buf ==> d < |data| + 4)
  {
    assert (opt + 3 + 7) / 8 == d && (static_bits + 3 + 7) / 8 == f;
  }

  lemma BlockSize(b: Block, last: bool, pos: nat)
    requires BlockOk(b)
    ensures |BlockBits(b, last, pos)| == 3 + |ContentBits(b, pos + 3)|
  {
    BitsOfLength(BlockType(b) * 2 + (if last then 1 else 0), 3);
  }

  // What choosing achieves: a block whose bytes are at hand costs at most 42
  // bits more than they do, with the padding at the end of the data; and no
  // encoding allowed is more than 7 bits shorter, or 17 when the block is
  // stored.
  lemma ChosenBound(b: Block, data: seq<byte>, have_buf: bool, ts: seq<Token>, h: Header, opt: nat, static_bits: nat,
                    fixed: bool, last: bool, pos: nat)
    requires Chosen(b, data, have_buf, ts, h, opt, static_bits, fixed) && BlockOk(b)
    requires b.Fixed? ==> static_bits == |ContentBits(b, pos + 3)|
    requires b.Dynamic? ==> opt == |ContentBits(b, pos + 3)|
    ensures have_buf ==>
      |BlockBits(b, last, pos)| + (if last then Padding(pos + |BlockBits(b, last, pos)|) else 0) <= 8 * |data| + 42
    ensures b.Fixed? ==> |BlockBits(b, last, pos)| == 3 + static_bits
    ensures b.Dynamic? ==> |BlockBits(b, last, pos)| == 3 + opt
    ensures |BlockBits(b, last, pos)| <= 3 + static_bits + (if b.Stored? then 17 else 7)
    ensures !fixed ==> |BlockBits(b, last, pos)| <= 3 + opt + (if b.Stored? then 17 else 7)
  {
    hide BlockBits, ContentBits, BlockOk, Padding, Aligned, Chosen;
    var n := |BlockBits(b, last, pos)|;
    ChosenSizes(b, data, have_buf, ts, h, opt, static_bits, fixed);
    PaddingBound(pos + n);
    if b.Stored? {
      StoredBound(b, data, last, pos);
    } else {
      BlockSize(b, last, pos);
    }
  }

  lemma StoredBound(b: Block, data: seq<byte>, last: bool, pos: nat)
    requires b == Stored(data) && BlockOk(b)
    ensures var n := |BlockBits(b, last, pos)|; n <= 8 * |data| + 42 && Padding(pos + n) == 0
  {
    hide *;
    StoredShort(data);
    StoredParts(data, last, pos);
    PaddingNone(pos + 3 + Padding(pos + 3), 4 + |data|);
  }

  lemma StoredShort(data: seq<byte>)
    requires BlockOk(Stored(data))
    ensures |data| <= 65535
  {
  }

  lemma PaddingNone(n: nat, k: nat)
    requires Aligned(n)
    ensures Padding(n + 8 * k) == 0
  {
    assert (n + 8 * k) % 8 == 0;
  }

  lemma PaddingBound(n: nat)
    ensures Padding(n) <= 7
  {
  }

  lemma ChosenSizes(b: Block, data: seq<byte>, have_buf: bool, ts: seq<Token>, h: Header, opt: nat, static_bits: nat, fixed: bool)
    requires Chosen(b, data, have_buf, ts, h, opt, static_bits, fixed)
    ensures b.Stored? ==> b == Stored(data) && have_buf && 8 * |data| + 22 <= static_bits && (!fixed ==> 8 * |data| + 22 <= opt)
    ensures b.Fixed? ==> (have_buf ==> static_bits + 3 <= 8 * |data| + 24) && (!fixed ==> static_bits <= opt + 7)
    ensures b.Dynamic? ==> !fixed && (have_buf ==> opt + 3 <= 8 * |data| + 24) && opt < static_bits
  {
  }

  lemma {:induction false} EntryBelow(w: seq<nat>, s: nat, n: nat)
    requires s < n <= |w|
    ensures w[s] <= Total(w, n)
  {
    if s < n - 1 { EntryBelow(w, s, n - 1); }
  }

  lemma FreqMore(tree: seq<CtData>, s: nat, n: nat)
    requires s < n <= |tree|
    ensures tree[s].fc == Freqs(tree, n)[s]
    ensures Freqs(tree[s := tree[s].(fc := tree[s].fc + 1)], n) == Inc(Freqs(tree, n), s)
  {
  }

  // The symbols that the tables give for a match.
  lemma SymbolsOf(length_code: seq<nat>, dist_code: seq<nat>, dist: nat, lc: byte)
    requires Tables(length_code, dist_code) && 1 <= dist <= 32768
    ensures |length_code| == 256 && |dist_code| == 512
    ensures length_code[lc] + LITERALS + 1 == LitSym(Match(lc + MIN_MATCH, dist))
    ensures DCode(dist_code, dist - 1) == DistSym(Match(lc + MIN_MATCH, dist))
  {
  }

  method ClearFreqs(tree: array<CtData>, n: nat)
    requires n <= tree.Length
    modifies tree
    ensures Freqs(tree[..], n) == Zeros(n)
  {
    var i := 0;
    while i < n
      invariant 0 <= i <= n && forall k :: 0 <= k < i ==> tree[k].fc == 0
    {
      tree[i] := tree[i].(fc := 0);
      i := i + 1;
    }
  }

  // All static tables.
  method StaticInit()
      returns (static_ltree: array<CtData>, static_dtree: array<CtData>, length_code: seq<nat>, dist_code: seq<nat>)
    ensures fresh(static_ltree) && HasCodes(static_ltree[..], FixedLitLens())
    ensures fresh(static_dtree) && HasCodes(static_dtree[..], FixedDistLens())
    ensures Tables(length_code, dist_code)
  {
    hide HasCodes, LengthCode, DistCode, DCode;
    var base_length, lc := InitLengthCodes();
    var base_dist, dc := InitDistCodes();
    length_code, dist_code := lc[..], dc[..];
    static_ltree := InitFixedLits();
    static_dtree := InitFixedDists();
  }

  lemma BufferSizes(level: nat)
    requires 1 <= level <= 9
    ensures 128 <= Pow2(level + 6) <= 32768
  {
    Pow2Values();
    Pow2Mono(7, level + 6);
    Pow2Mono(level + 6, 15);
  }

  method NewTrees() returns (ltree: array<CtData>, dtree: array<CtData>, bl_tree: array<CtData>)
    ensures fresh(ltree) && fresh(dtree) && fresh(bl_tree) && ltree != dtree && ltree != bl_tree && dtree != bl_tree
    ensures ltree.Length == 2 * L_CODES + 1 && dtree.Length == 2 * D_CODES + 1 && bl_tree.Length == 2 * BL_CODES + 1
  {
    ltree := new CtData[2 * L_CODES + 1](_ => CtData(0, 0));
    dtree := new CtData[2 * D_CODES + 1](_ => CtData(0, 0));
    bl_tree := new CtData[2 * BL_CODES + 1](_ => CtData(0, 0));
  }

  method NewWork() returns (heap: array<nat>, depth: array<nat>, bl_count: array<nat>)
    ensures fresh(heap) && fresh(depth) && fresh(bl_count) && heap != depth && heap != bl_count && depth != bl_count
    ensures heap.Length == depth.Length == HEAP_SIZE && bl_count.Length == MAX_BITS + 1
  {
    heap := new nat[HEAP_SIZE](_ => 0);
    depth := new nat[HEAP_SIZE](_ => 0);
    bl_count := new nat[MAX_BITS + 1](_ => 0);
  }

  // The part of the compressor's state that blocks are made from.
  class TreeState {
    const w: BitWriter
    const mem_level: nat
    const lit_bufsize: nat
    const ltree: array<CtData>
    const dtree: array<CtData>
    const bl_tree: array<CtData>
    const static_ltree: array<CtData>
    const static_dtree: array<CtData>
    const heap: array<nat>
    const depth: array<nat>
    const bl_count: array<nat>
    const length_code: seq<nat>
    const dist_code: seq<nat>
    var sym_next: nat
    // The symbols in the buffer.
    ghost var tokens: seq<Token>

    ghost predicate Distinct()
      reads this
    {
      && ltree != dtree && ltree != bl_tree && dtree != bl_tree && heap != depth && heap != bl_count && depth != bl_count
      && ltree != static_ltree && ltree != static_dtree && dtree != static_ltree && dtree != static_dtree
      && bl_tree != static_ltree && bl_tree != static_dtree
      && ltree.Length == 2 * L_CODES + 1 && dtree.Length == 2 * D_CODES + 1 && bl_tree.Length == 2 * BL_CODES + 1
      && heap.Length == depth.Length == HEAP_SIZE && bl_count.Length == MAX_BITS + 1
    }

    ghost predicate Sized() {
      1 <= mem_level <= 9 && lit_bufsize == Pow2(mem_level + 6) && 128 <= lit_bufsize <= 32768
    }

    // lit_bufsize symbols of three bytes lie behind lit_bufsize bytes; the
    // frequencies are those of the symbols in the buffer.
    ghost predicate Valid()
      reads this, w, w.buf, ltree, dtree, bl_tree, static_ltree, static_dtree
    {
      && Distinct() && w.Valid() && Sized() && w.buf.Length == 4 * lit_bufsize
      && Tables(length_code, dist_code)
      && HasCodes(static_ltree[..], FixedLitLens()) && HasCodes(static_dtree[..], FixedDistLens())
      && TokensOk(tokens) && |tokens| <= lit_bufsize - 1 && sym_next == 3 * |tokens|
      && SymBuf(w.buf[..], lit_bufsize, tokens, 0)
      && Freqs(ltree[..], L_CODES) == LitHist(tokens) && Freqs(dtree[..], D_CODES) == DistHist(tokens)
      && Freqs(bl_tree[..], BL_CODES) == Zeros(BL_CODES)
    }

    constructor (level: nat)
      requires 1 <= level <= 9
      ensures Valid() && lit_bufsize == Pow2(level + 6) && tokens == [] && w.Sent() == 0 && w.Written() == []
      ensures fresh(w) && fresh(w.buf) && fresh(ltree) && fresh(dtree) && fresh(bl_tree)
      ensures fresh(heap) && fresh(depth) && fresh(bl_count)
    {
      BufferSizes(level);
      hide HasCodes, LitHist, DistHist, SymBuf, BytesBits, BitsOf, Tables, Pow2, Freqs, TokensOk;
      var size := Pow2(level + 6);
      var buf := new byte[4 * size];
      var wr := new BitWriter(buf);
      var st_l, st_d, lc, dc := StaticInit();
      var lt, dt, blt := NewTrees();
      var a, b, c := NewWork();
      w, mem_level, lit_bufsize := wr, level, size;
      ltree, dtree, bl_tree, static_ltree, static_dtree := lt, dt, blt, st_l, st_d;
      heap, depth, bl_count := a, b, c;
      length_code, dist_code := lc, dc;
      sym_next, tokens := 0, [];
      new;
      InitBlock();
    }

    // Initialize a new block.
    method InitBlock()
      requires Distinct() && w.Valid() && Sized() && w.buf.Length == 4 * lit_bufsize
      requires Tables(length_code, dist_code)
      requires HasCodes(static_ltree[..], FixedLitLens()) && HasCodes(static_dtree[..], FixedDistLens())
      modifies this, ltree, dtree, bl_tree
      ensures Valid() && tokens == []
    {
      hide HasCodes, Tables;
      ClearFreqs(ltree, L_CODES);
      ClearFreqs(dtree, D_CODES);
      ClearFreqs(bl_tree, BL_CODES);
      ltree[END_BLOCK] := ltree[END_BLOCK].(fc := 1);
      sym_next, tokens := 0, [];
      assert Freqs(ltree[..], L_CODES) == LitHist(tokens);
      assert Freqs(dtree[..], D_CODES) == DistHist(tokens);
    }

    // Put a symbol into the buffer and count it: a literal lc when dist is zero,
    // else a match of length lc + MIN_MATCH. full says that no more will fit.
    method Tally(dist: nat, lc: byte) returns (full: bool)
      requires Valid() && dist <= 32768 && |tokens| < lit_bufsize - 1 && w.pending <= lit_bufsize
      modifies this, w.buf, ltree, dtree
      ensures Valid() && w.Written() == old(w.Written()) && w.Sent() == old(w.Sent())
      ensures tokens == old(tokens) + [if dist == 0 then Literal(lc) else Match(lc + MIN_MATCH, dist)]
      ensures full <==> |tokens| == lit_bufsize - 1
    {
      hide LitHist, DistHist, SymBuf, BytesBits, BitsOf, Tables, HasCodes, Pow2, LitSym, DistSym;
      ghost var t := if dist == 0 then Literal(lc) else Match(lc + MIN_MATCH, dist);
      HistStep(tokens, t);
      PutSymbol(w, lit_bufsize, sym_next, dist, lc, tokens, t);
      sym_next := sym_next + 3;
      CountToken(ltree, dtree, length_code, dist_code, dist, lc, tokens, t);
      tokens := tokens + [t];
      full := sym_next == (lit_bufsize - 1) * 3;
    }

    // Price the three encodings of the symbols in the buffer, and write the block
    // in the cheapest one. data are the bytes that the symbols stand for, if they
    // are still at hand.
    method FlushBlock(data: seq<byte>, have_buf: bool, level: nat, fixed: bool, last: bool)
        returns (ghost b: Block, ghost h: Header, ghost opt: nat, ghost static_bits: nat)
      requires Valid() && w.pending == 0 && w.bi_valid <= 7
      requires have_buf ==> |data| <= 65535
      requires level == 0 ==> have_buf && |data| + 7 <= 4 * lit_bufsize
      modifies this, w, w.buf, ltree, dtree, bl_tree, heap, depth, bl_count
      ensures Valid() && tokens == []
      ensures BlockOk(b) && (last ==> w.bi_valid == 0) && w.Sent() <= 8 * w.buf.Length
      ensures b.Stored? ==> have_buf && b.data == data
      ensures !b.Stored? ==> b.tokens == old(tokens)
      ensures var bits := BlockBits(b, last, old(w.Sent()));
        w.Written() == old(w.Written()) + bits
          + BitsOf(0, if last then Padding(old(w.Sent()) + |bits|) else 0)
      ensures level > 0 ==> Priced(b, data, have_buf, old(tokens), h, opt, static_bits, fixed)
    {
      hide BlockBits, BlockOk, SymBuf, Tables, Padding, BytesBits, BitsOf, LitHist, DistHist, HasCodes, Freqs, TokensOk,
        Priced, Pow2;
      ghost var start, pos := w.Written(), w.Sent();
      b, h, opt, static_bits := EncodeBlock(data, have_buf, level, fixed, last);
      NoPadding(start + BlockBits(b, last, pos));
      InitBlock();
      if last {
        w.BiWindup();
        NoSymbols(w.buf[..], lit_bufsize, tokens);
      }
    }

    // The block itself, before the buffer is emptied.
    method EncodeBlock(data: seq<byte>, have_buf: bool, level: nat, fixed: bool, last: bool)
        returns (ghost b: Block, ghost h: Header, ghost opt: nat, ghost static_bits: nat)
      requires Valid() && w.pending == 0 && w.bi_valid <= 7
      requires have_buf ==> |data| <= 65535
      requires level == 0 ==> have_buf && |data| + 7 <= 4 * lit_bufsize
      modifies w, w.buf, ltree, dtree, bl_tree, heap, depth, bl_count
      ensures w.Valid() && w.Sent() + 7 <= 8 * w.buf.Length
      ensures BlockOk(b) && (if b.Stored? then have_buf && b.data == data else b.tokens == tokens)
      ensures w.Sent() == old(w.Sent()) + |BlockBits(b, last, old(w.Sent()))|
      ensures w.Written() == old(w.Written()) + BlockBits(b, last, old(w.Sent()))
      ensures level > 0 ==> Priced(b, data, have_buf, tokens, h, opt, static_bits, fixed)
    {
      hide BlockBits, BlockOk, HeaderBits, BodyBits, HeaderOk, Coded, SymBuf, Tables, Padding, BytesBits, BitsOf,
        LitHist, DistHist, HasCodes, Freqs, TokensOk, Ready, Best, Pow2;
      h, opt, static_bits := Header([], [], [], 0, []), 0, 0;
      if level > 0 {
        var lmax, dmax, nb, opt_len, static_len;
        lmax, dmax, nb, opt_len, static_len, h := BuildTrees(ltree, dtree, bl_tree, heap, depth, bl_count, tokens);
        opt, static_bits := opt_len, static_len;
        b := SendBest(w, lit_bufsize, sym_next, ltree, dtree, bl_tree, static_ltree, static_dtree, lmax, dmax, nb,
          length_code, dist_code, data, have_buf, fixed, last, opt_len, static_len, h, tokens, mem_level + 6);
      } else {
        b := Stored(data);
        StoredFits(data, last, w.Sent());
        StoredBlock(w, data, last);
      }
    }
  }

  // The encodings of a block and their sizes: its header is the best for its
  // symbols, and the encoding is chosen by the sizes.
  ghost predicate Priced(b: Block, data: seq<byte>, have_buf: bool, ts: seq<Token>, h: Header, opt: nat, static_bits: nat,
                         fixed: bool)
  {
    && HeaderSize.BuiltHeader(h, ts) && AllCoded(h.ll, h.dl, ts) && AllCoded(FixedLitLens(), FixedDistLens(), ts)
    && opt == |HeaderBits(h)| + |BodyBits(h.ll, h.dl, ts)|
    && static_bits == |BodyBits(FixedLitLens(), FixedDistLens(), ts)|
    && Chosen(b, data, have_buf, ts, h, opt, static_bits, fixed)
  }

  lemma NoPadding(s: seq<bool>)
    ensures s + BitsOf(0, 0) == s
  {
    NoBits(0);
  }

  // Put a symbol into the buffer behind the others.
  method PutSymbol(w: BitWriter, base: nat, sym_next: nat, dist: nat, lc: byte, ghost ts: seq<Token>, ghost t: Token)
    requires w.Valid() && dist <= 32768 && sym_next == 3 * |ts| && base + sym_next + 3 <= w.buf.Length
    requires w.pending <= base && SymBuf(w.buf[..], base, ts, 0)
    requires t == if dist == 0 then Literal(lc) else Match(lc + MIN_MATCH, dist)
    modifies w.buf
    ensures w.Valid() && w.Written() == old(w.Written()) && SymBuf(w.buf[..], base, ts + [t], 0)
  {
    hide BytesBits, BitsOf, SymBuf;
    ghost var before := w.buf[..];
    w.buf[base + sym_next] := dist % 256;
    w.buf[base + sym_next + 1] := dist / 256;
    w.buf[base + sym_next + 2] := lc;
    assert w.buf[..w.pending] == before[..w.pending];
    SymBufAdd(before, w.buf[..], base, ts, t);
  }

  // Count a symbol.
  method CountToken(ltree: array<CtData>, dtree: array<CtData>, length_code: seq<nat>, dist_code: seq<nat>,
                     dist: nat, lc: byte, ghost ts: seq<Token>, ghost t: Token)
    requires ltree != dtree && ltree.Length >= L_CODES && dtree.Length >= D_CODES && Tables(length_code, dist_code)
    requires dist <= 32768 && t == if dist == 0 then Literal(lc) else Match(lc + MIN_MATCH, dist)
    requires Freqs(ltree[..], L_CODES) == LitHist(ts) && Freqs(dtree[..], D_CODES) == DistHist(ts) && |ts| <= 65533
    modifies ltree, dtree
    ensures Freqs(ltree[..], L_CODES) == Inc(LitHist(ts), LitSym(t))
    ensures Freqs(dtree[..], D_CODES) == Inc(DistHist(ts), DistSym(t))
  {
    hide LitHist, DistHist, Total, Tables;
    LitTotal(ts);
    DistTotal(ts);
    TokenSyms(t);
    EntryBelow(LitHist(ts), LitSym(t), L_CODES);
    FreqMore(ltree[..], LitSym(t), L_CODES);
    if dist == 0 {
      AddFreq(ltree, lc, 1);
    } else {
      SymbolsOf(length_code, dist_code, dist, lc);
      EntryBelow(DistHist(ts), DistSym(t), D_CODES);
      FreqMore(dtree[..], DistSym(t), D_CODES);
      hide LitSym, DistSym;
      AddFreq(ltree, length_code[lc] + LITERALS + 1, 1);
      AddFreq(dtree, DCode(dist_code, dist - 1), 1);
    }
  }

  lemma StoredFits(data: seq<byte>, last: bool, pos: nat)
    requires |data| <= 65535
    ensures BlockOk(Stored(data)) && |BlockBits(Stored(data), last, pos)| <= 8 * |data| + 42
    ensures Padding(pos + |BlockBits(Stored(data), last, pos)|) == 0
  {
    StoredIsOk(data);
    hide BlockBits, Padding, Aligned, BitsOf, BytesBits, BlockOk;
    StoredParts(data, last, pos);
    PaddingNone(pos + 3 + Padding(pos + 3), 4 + |data|);
  }

  lemma StoredIsOk(data: seq<byte>)
    requires |data| <= 65535
    ensures BlockOk(Stored(data))
  {
  }

  // Write out the block in the encoding that takes the fewest bytes.
  method SendBest(w: BitWriter, lit_bufsize: nat, sym_next: nat, ltree: array<CtData>, dtree: array<CtData>,
                  bl_tree: array<CtData>, static_ltree: array<CtData>, static_dtree: array<CtData>, lmax: nat, dmax: nat,
                  nb: nat, length_code: seq<nat>, dist_code: seq<nat>, data: seq<byte>, have_buf: bool, fixed: bool,
                  last: bool, opt_len: nat, static_len: nat, ghost h: Header, ghost ts: seq<Token>, ghost bits: nat)
      returns (ghost b: Block)
    requires w.Valid() && w.pending == 0 && w.bi_valid <= 7 && 128 <= lit_bufsize && w.buf.Length == 4 * lit_bufsize
    requires Tables(length_code, dist_code) && |ts| <= lit_bufsize - 1
    requires HasCodes(static_ltree[..], FixedLitLens()) && HasCodes(static_dtree[..], FixedDistLens())
    requires TreesBuilt(ltree[..], dtree[..], bl_tree[..], lmax, dmax, h, ts) && nb == h.nb
    requires sym_next == 3 * |ts| && SymBuf(w.buf[..], lit_bufsize, ts, 0)
    requires opt_len == |HeaderBits(h)| + |BodyBits(h.ll, h.dl, ts)|
    requires AllCoded(FixedLitLens(), FixedDistLens(), ts)
    requires static_len == |BodyBits(FixedLitLens(), FixedDistLens(), ts)|
    requires have_buf ==> |data| <= 65535
    requires TokensOk(ts) && lit_bufsize == Pow2(bits)
    modifies w, w.buf
    ensures w.Valid() && w.Sent() + 7 <= 8 * w.buf.Length
    ensures BlockOk(b) && Chosen(b, data, have_buf, ts, h, opt_len, static_len, fixed)
    ensures w.Sent() == old(w.Sent()) + |BlockBits(b, last, old(w.Sent()))|
    ensures w.Written() == old(w.Written()) + BlockBits(b, last, old(w.Sent()))
  {
    hide BlockBits, HeaderBits, BodyBits, HeaderOk, SymBuf, Tables, Padding, BytesBits, BitsOf, Prefixed, HasCodes,
      Complete, Ready, Coded, Ahead, Best;
    FixedBodySize(ts);
    var opt_lenb, static_lenb := (opt_len + 3 + 7) / 8, (static_len + 3 + 7) / 8;
    if static_lenb <= opt_lenb || fixed { opt_lenb := static_lenb; }
    if |data| + 4 <= opt_lenb && have_buf {
      b := Stored(data);
      StoredFits(data, last, w.Sent());
      StoredBlock(w, data, last);
    } else if static_lenb == opt_lenb {
      b := Fixed(ts);
      SendFixed(w, lit_bufsize, sym_next, static_ltree, static_dtree, length_code, dist_code, last, ts);
    } else {
      b := Dynamic(h, ts);
      Overlay.DynamicAhead(h, ts, w.Sent() + 3, lit_bufsize, bits);
      BuiltIsSendable(ltree[..], dtree[..], bl_tree[..], lmax, dmax, h, ts);
      SendDynamic(w, lit_bufsize, sym_next, ltree, dtree, bl_tree, lmax, dmax, nb, length_code, dist_code, last, h, ts);
    }
    ChosenBound(b, data, have_buf, ts, h, opt_len, static_len, fixed, last, old(w.Sent()));
  }

  lemma NoSymbols(buf: seq<byte>, base: nat, ts: seq<Token>)
    requires ts == []
    ensures SymBuf(buf, base, ts, 0)
  {
  }

  lemma FixedBodySize(ts: seq<Token>)
    requires AllCoded(FixedLitLens(), FixedDistLens(), ts)
    ensures |BodyBits(FixedLitLens(), FixedDistLens(), ts)| <= 31 * |ts| + 7
  {
    hide TokensBits;
    FixedSize(ts);
    CodeSize(FixedLitLens());
  }

  lemma FixedReady(static_ltree: seq<CtData>, static_dtree: seq<CtData>)
    requires HasCodes(static_ltree, FixedLitLens()) && HasCodes(static_dtree, FixedDistLens())
    ensures Ready(static_ltree, FixedLitLens()) && Ready(static_dtree, FixedDistLens())
  {
    hide Prefixed, HasCodes, Complete;
    FixedComplete();
    CompleteIsPrefixed(FixedLitLens());
    FiveBitKraft(FixedDistLens());
  }

  lemma TypeBits(t: nat, last: bool)
    requires t <= 2
    ensures t * 2 + (if last then 1 else 0) < Pow2(3)
    ensures |BitsOf(t * 2 + (if last then 1 else 0), 3)| == 3
  {
    Pow2Values();
    BitsOfLength(t * 2 + (if last then 1 else 0), 3);
  }

  method SendFixed(w: BitWriter, lit_bufsize: nat, sym_next: nat, static_ltree: array<CtData>, static_dtree: array<CtData>,
                   length_code: seq<nat>, dist_code: seq<nat>, last: bool, ghost ts: seq<Token>)
    requires w.Valid() && w.pending == 0 && w.bi_valid <= 7 && 128 <= lit_bufsize && w.buf.Length == 4 * lit_bufsize
    requires Tables(length_code, dist_code) && |ts| <= lit_bufsize - 1
    requires HasCodes(static_ltree[..], FixedLitLens()) && HasCodes(static_dtree[..], FixedDistLens())
    requires sym_next == 3 * |ts| && SymBuf(w.buf[..], lit_bufsize, ts, 0)
    requires AllCoded(FixedLitLens(), FixedDistLens(), ts)
    modifies w, w.buf
    ensures w.Valid()
    ensures w.Sent() == old(w.Sent()) + |BlockBits(Fixed(ts), last, old(w.Sent()))|
    ensures w.Written() == old(w.Written()) + BlockBits(Fixed(ts), last, old(w.Sent()))
  {
    hide BodyBits, SymBuf, Tables, BytesBits, BitsOf, Pow2, HasCodes, Ready, Coded, Ahead;
    FixedBodySize(ts);
    FixedReady(static_ltree[..], static_dtree[..]);
    FixedAhead(ts, w.Sent() + 3, lit_bufsize);
    TypeBits(STATIC_TREES, last);
    ghost var start, head, body, before := w.Written(), BitsOf(STATIC_TREES * 2 + (if last then 1 else 0), 3),
      BodyBits(FixedLitLens(), FixedDistLens(), ts), w.buf[..];
    assert start + head + body == start + (head + body);
    w.SendBits(STATIC_TREES * 2 + (if last then 1 else 0), 3);
    SymBufKept(before, w.buf[..], lit_bufsize, ts, 0, 0, w.pending);
    CompressBlock.CompressBlock(w, lit_bufsize, sym_next, static_ltree, static_dtree, length_code, dist_code,
      FixedLitLens(), FixedDistLens(), ts);
  }

  // The trees that describe and write a dynamic block.
  ghost predicate Sendable(ltree: seq<CtData>, dtree: seq<CtData>, bl_tree: seq<CtData>, lmax: nat, dmax: nat, h: Header) {
    && lmax + 1 < |ltree| && dmax + 1 < |dtree| && BL_CODES <= |bl_tree|
    && h.ll == SymbolLens(ltree, lmax + 1) && h.dl == SymbolLens(dtree, dmax + 1) && h.items == BothItems(h.ll, h.dl)
    && Ready(ltree, h.ll) && Ready(dtree, h.dl) && Ready(bl_tree, h.bl)
    && ltree[lmax + 1].dl == GUARD && dtree[dmax + 1].dl == GUARD
    && 257 <= |h.ll| <= L_CODES && 1 <= |h.dl| <= D_CODES && h.ll[END_BLOCK] > 0
    && OrderOk(h.bl, h.nb) && ItemsCoded(h.bl, h.items)
    && (forall i :: 0 <= i <= lmax ==> ltree[i].dl <= 15) && (forall i :: 0 <= i <= dmax ==> dtree[i].dl <= 15)
  }

  lemma BuiltIsSendable(ltree: seq<CtData>, dtree: seq<CtData>, bl_tree: seq<CtData>, lmax: nat, dmax: nat, h: Header, ts: seq<Token>)
    requires TreesBuilt(ltree, dtree, bl_tree, lmax, dmax, h, ts)
    ensures Sendable(ltree, dtree, bl_tree, lmax, dmax, h)
  {
    hide Best, Coded, HasCodes, Transmits, ItemsCoded, BothItems, Complete;
    LensSmall(ltree, lmax + 1, h.ll);
    LensSmall(dtree, dmax + 1, h.dl);
  }

  method SendDynamic(w: BitWriter, lit_bufsize: nat, sym_next: nat, ltree: array<CtData>, dtree: array<CtData>,
                     bl_tree: array<CtData>, lmax: nat, dmax: nat, nb: nat, length_code: seq<nat>, dist_code: seq<nat>,
                     last: bool, ghost h: Header, ghost ts: seq<Token>)
    requires w.Valid() && w.pending == 0 && w.bi_valid <= 7 && 128 <= lit_bufsize && w.buf.Length == 4 * lit_bufsize
    requires Tables(length_code, dist_code) && |ts| <= lit_bufsize - 1
    requires HeaderOk(h) && AllCoded(h.ll, h.dl, ts)
    requires Sendable(ltree[..], dtree[..], bl_tree[..], lmax, dmax, h) && nb == h.nb
    requires sym_next == 3 * |ts| && SymBuf(w.buf[..], lit_bufsize, ts, 0)
    requires w.Sent() + 3 + |HeaderBits(h)| + |BodyBits(h.ll, h.dl, ts)| <= 8 * w.buf.Length
    requires Ahead(h.ll, h.dl, ts, w.Sent() + 3 + |HeaderBits(h)|, lit_bufsize)
    modifies w, w.buf
    ensures w.Valid()
    ensures w.Sent() == old(w.Sent()) + |BlockBits(Dynamic(h, ts), last, old(w.Sent()))|
    ensures w.Written() == old(w.Written()) + BlockBits(Dynamic(h, ts), last, old(w.Sent()))
  {
    hide BodyBits, HeaderBits, SymBuf, Tables, BytesBits, BitsOf, Pow2, HasCodes, Ready, Coded, Ahead, Complete,
      Transmits, Best, BlockBits, AllCoded, HeaderOk;
    TypeBits(DYN_TREES, last);
    DynamicBits(h, ts, last, w.Sent());
    ghost var start, head, header, body, before := w.Written(), BitsOf(DYN_TREES * 2 + (if last then 1 else 0), 3),
      HeaderBits(h), BodyBits(h.ll, h.dl, ts), w.buf[..];
    assert start + head + header + body == start + (head + (header + body));
    AheadStart(h.ll, h.dl, ts, w.Sent() + 3 + |HeaderBits(h)|, lit_bufsize);
    w.SendBits(DYN_TREES * 2 + (if last then 1 else 0), 3);
    SendAllTrees(w, ltree, dtree, lmax + 1, dmax + 1, nb, bl_tree, h);
    SymBufKept(before, w.buf[..], lit_bufsize, ts, 0, 0, w.pending);
    CompressBlock.CompressBlock(w, lit_bufsize, sym_next, ltree, dtree, length_code, dist_code, h.ll, h.dl, ts);
  }

  lemma DynamicBits(h: Header, ts: seq<Token>, last: bool, pos: nat)
    requires HeaderOk(h) && AllCoded(h.ll, h.dl, ts)
    ensures BlockOk(Dynamic(h, ts))
    ensures BlockBits(Dynamic(h, ts), last, pos)
         == BitsOf(DYN_TREES * 2 + (if last then 1 else 0), 3) + (HeaderBits(h) + BodyBits(h.ll, h.dl, ts))
    ensures |BlockBits(Dynamic(h, ts), last, pos)| == 3 + |HeaderBits(h)| + |BodyBits(h.ll, h.dl, ts)|
  {
    hide BodyBits, HeaderBits, BitsOf, HeaderOk, Coded;
    TypeBits(DYN_TREES, last);
  }

  lemma AheadStart(ll: seq<nat>, dl: seq<nat>, ts: seq<Token>, s0: nat, n: nat)
    requires AllCoded(ll, dl, ts) && Ahead(ll, dl, ts, s0, n)
    ensures s0 < 8 * n
  {
    EmptyTokens(ll, dl, ts[..0]);
  }

  lemma LensSmall(tree: seq<CtData>, n: nat, lens: seq<nat>)
    requires n <= |tree| && lens == SymbolLens(tree, n) && Complete(lens)
    ensures forall i :: 0 <= i < n ==> tree[i].dl <= 15
  {
    assert forall i :: 0 <= i < n ==> lens[i] <= 15;
  }
}
