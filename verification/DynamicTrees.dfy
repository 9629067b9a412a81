// trees.c: build_bl_tree() and send_all_trees(), the header of a dynamic block.
module DynamicTrees {
  import opened Bits
  import opened CanonicalCode
  import opened BitWriter
  import opened Format
  import opened Heap
  import opened Huffman
  import HuffmanDepth
  import opened TreeMerge
  import opened GenBitlen
  import opened Trees
  import opened TreeHeader
  import opened BlockFormat
  import opened BlockCost

  const MAX_BL_BITS: nat := 7

  // ---- Totals of frequencies ----

  function Total(w: seq<nat>, n: nat): nat
    requires n <= |w|
  {
    if n == 0 then 0 else Total(w, n - 1) + w[n - 1]
  }

  lemma {:induction false} SumBelowTotal(s: set<nat>, w: seq<nat>, n: nat)
    requires n <= |w|
    ensures Sum(s, Plain(w), n) <= Total(w, n)
  {
    if n > 0 { SumBelowTotal(s, w, n - 1); }
  }

  lemma {:induction false} TotalInc(w: seq<nat>, s: nat, n: nat)
    requires n <= |w|
    ensures Total(Inc(w, s), n) <= Total(w, n) + 1 && (n <= s ==> Total(Inc(w, s), n) == Total(w, n))
  {
    if n > 0 { TotalInc(w, s, n - 1); }
  }

  lemma {:induction false} TotalZeros(w: seq<nat>, n: nat)
    requires n <= |w| && forall i :: 0 <= i < n ==> w[i] == 0
    ensures Total(w, n) == 0
  {
    if n > 0 { TotalZeros(w, n - 1); }
  }

  lemma {:induction false} ItemTotal(items: seq<Item>)
    ensures Total(ItemHist(items), BL_CODES) <= |items|
  {
    hide Total, Inc;
    if items == [] {
      TotalZeros(Zeros(BL_CODES), BL_CODES);
    } else {
      ItemTotal(items[..|items| - 1]);
      TotalInc(ItemHist(items[..|items| - 1]), items[|items| - 1].sym, BL_CODES);
    }
  }

  lemma {:induction false} LitTotal(ts: seq<Token>)
    ensures Total(LitHist(ts), L_CODES) <= |ts| + 1
  {
    hide Total, Inc, LitSym;
    if ts == [] {
      TotalZeros(Zeros(L_CODES), L_CODES);
      TotalInc(Zeros(L_CODES), END_BLOCK, L_CODES);
    } else {
      LitTotal(ts[..|ts| - 1]);
      TotalInc(LitHist(ts[..|ts| - 1]), LitSym(ts[|ts| - 1]), L_CODES);
    }
  }

  lemma {:induction false} DistTotal(ts: seq<Token>)
    ensures Total(DistHist(ts), D_CODES) <= |ts|
  {
    hide Total, Inc, DistSym;
    if ts == [] {
      TotalZeros(Zeros(D_CODES), D_CODES);
    } else {
      DistTotal(ts[..|ts| - 1]);
      TotalInc(DistHist(ts[..|ts| - 1]), DistSym(ts[|ts| - 1]), D_CODES);
    }
  }

  // ---- The items of both trees ----

  function BothItems(ll: seq<nat>, dl: seq<nat>): seq<Item> {
    TreeItems(ll) + TreeItems(dl)
  }

  lemma BothTransmit(ll: seq<nat>, dl: seq<nat>)
    requires forall i :: 0 <= i < |ll| ==> ll[i] <= 15
    requires forall i :: 0 <= i < |dl| ==> dl[i] <= 15
    ensures Transmits(BothItems(ll, dl), ll + dl)
  {
    hide ItemsOk, ExpandItems, TreeItems;
    TreeItemsExpand([], ll);
    assert [] + ll == ll;
    TreeItemsExpand(ll, dl);
    ExpandConcat([], TreeItems(ll), TreeItems(dl));
  }

  lemma {:induction false} ItemsFit(lens: seq<nat>, items: seq<Item>, i: nat)
    requires ItemsOk(lens, items) && i < |items|
    ensures items[i].sym < BL_CODES && items[i].extra < Pow2(EXTRA_BLBITS[items[i].sym])
    decreases |items|
  {
    hide Pow2, ExpandItem;
    if i > 0 { ItemsFit(ExpandItem(lens, items[0]), items[1..], i - 1); }
  }

  lemma {:induction false} ItemCounted(items: seq<Item>, i: nat)
    requires i < |items|
    ensures ItemCount(items, items[i].sym) > 0
  {
    if i < |items| - 1 { ItemCounted(items[..|items| - 1], i); }
  }

  // A tree for all items' symbols has a code for every item.
  lemma AllItemsCoded(bl: seq<nat>, items: seq<Item>, lens: seq<nat>)
    requires |bl| == BL_CODES && Transmits(items, lens)
    requires forall s :: 0 <= s < BL_CODES && ItemHist(items)[s] != 0 ==> bl[s] > 0
    ensures ItemsCoded(bl, items) && Symbolic(items)
  {
    hide ItemsOk, ItemHist, ItemCount, Pow2;
    forall i | 0 <= i < |items|
      ensures items[i].sym < BL_CODES && bl[items[i].sym] > 0 && items[i].extra < Pow2(EXTRA_BLBITS[items[i].sym])
    {
      ItemsFit([], items, i);
      ItemCounted(items, i);
      ItemHistCounts(items, items[i].sym);
    }
  }

  lemma ScannedBoth(b0: seq<CtData>, b1: seq<CtData>, b2: seq<CtData>, a: seq<Item>, b: seq<Item>)
    requires |b0| >= BL_CODES && Freqs(b0, BL_CODES) == Zeros(BL_CODES)
    requires CountedUp(b0, b1, a) && CountedUp(b1, b2, b)
    ensures Freqs(b2, BL_CODES) == ItemHist(a + b)
    ensures Occurrences(b2, BL_CODES) <= |a + b|
  {
    hide ItemCount, ItemHist, Sum, Total;
    forall s: nat | s < BL_CODES ensures b2[s].fc == ItemHist(a + b)[s] {
      assert Freqs(b0, BL_CODES)[s] == 0;
      ItemCountConcat(a, b, s);
      ItemHistCounts(a + b, s);
    }
    ItemTotal(a + b);
    SumBelowTotal(Used(b2, BL_CODES), ItemHist(a + b), BL_CODES);
  }

  lemma NoFreqs(b0: seq<CtData>)
    requires |b0| >= BL_CODES && Freqs(b0, BL_CODES) == Zeros(BL_CODES)
    ensures forall s :: 0 <= s < BL_CODES ==> b0[s].fc == 0
  {
    forall s | 0 <= s < BL_CODES ensures b0[s].fc == 0 {
      assert Freqs(b0, BL_CODES)[s] == 0;
    }
  }

  lemma GuardKeeps(before: seq<CtData>, after: seq<CtData>, n: nat)
    requires n < |before| && after == before[n := before[n].(dl := GUARD)]
    ensures SymbolLens(after, n) == SymbolLens(before, n)
    ensures HasCodes(before, SymbolLens(before, n)) ==> HasCodes(after, SymbolLens(after, n))
  {
  }

  // The frequencies of the code length symbols, from both trees.
  method ScanTrees(ltree: array<CtData>, lmax: nat, dtree: array<CtData>, dmax: nat, bl_tree: array<CtData>)
    requires ltree != dtree && ltree != bl_tree && dtree != bl_tree && bl_tree.Length >= BL_CODES
    requires lmax + 1 < ltree.Length && dmax + 1 < dtree.Length && lmax < L_CODES && dmax < D_CODES
    requires forall i :: 0 <= i <= lmax ==> ltree[i].dl <= 15
    requires forall i :: 0 <= i <= dmax ==> dtree[i].dl <= 15
    requires Freqs(bl_tree[..], BL_CODES) == Zeros(BL_CODES)
    modifies ltree, dtree, bl_tree
    ensures ltree[..] == old(ltree[..])[lmax + 1 := old(ltree[lmax + 1]).(dl := GUARD)]
    ensures dtree[..] == old(dtree[..])[dmax + 1 := old(dtree[dmax + 1]).(dl := GUARD)]
    ensures var items := BothItems(old(SymbolLens(ltree[..], lmax + 1)), old(SymbolLens(dtree[..], dmax + 1)));
      Freqs(bl_tree[..], BL_CODES) == ItemHist(items) && Occurrences(bl_tree[..], BL_CODES) <= L_CODES + D_CODES
  {
    hide ItemCount, ItemHist, Sum, TreeItems;
    ghost var b0 := bl_tree[..];
    NoFreqs(b0);
    ghost var ll, dl := SymbolLens(ltree[..], lmax + 1), SymbolLens(dtree[..], dmax + 1);
    ScanTree(ltree, lmax, bl_tree);
    ghost var b1 := bl_tree[..];
    assert forall s :: 0 <= s < BL_CODES ==> bl_tree[s].fc == ItemCount(TreeItems(ll), s) <= L_CODES;
    ScanTree(dtree, dmax, bl_tree);
    ScannedBoth(b0, b1, bl_tree[..], TreeItems(ll), TreeItems(dl));
  }

  // Items that only repeat transmit nothing but zeros.
  lemma {:induction false} RepeatsAreZeros(lens: seq<nat>, items: seq<Item>)
    requires ItemsOk(lens, items) && forall i :: 0 <= i < |items| ==> items[i].sym >= REP_3_6
    requires forall i :: 0 <= i < |lens| ==> lens[i] == 0
    ensures forall i :: 0 <= i < |ExpandItems(lens, items)| ==> ExpandItems(lens, items)[i] == 0
    decreases |items|
  {
    if items != [] {
      hide Pow2;
      var r := ExpandItem(lens, items[0]);
      assert forall i :: 0 <= i < |r| ==> r[i] == 0;
      RepeatsAreZeros(r, items[1..]);
    }
  }

  lemma OrderCovers(s: nat) returns (i: nat)
    requires s < REP_3_6
    ensures 3 <= i < BL_CODES && OrderAt(i) == s
  {
    i := if s == 0 then 3 else if s == 8 then 4 else if s < 8 then 19 - 2 * s else 2 * s - 12;
  }

  // When any length is not zero, at least four code lengths are sent.
  lemma LastLengthSent(bl: seq<nat>, items: seq<Item>, lens: seq<nat>, k: nat)
    requires |bl| == BL_CODES && ItemsCoded(bl, items) && Transmits(items, lens) && k < |lens| && lens[k] > 0
    ensures exists i :: 3 <= i < BL_CODES && bl[OrderAt(i)] > 0
  {
    hide ItemsOk, ExpandItems, Pow2, OrderAt;
    if forall i :: 0 <= i < |items| ==> items[i].sym >= REP_3_6 {
      RepeatsAreZeros([], items);
    } else {
      var i :| 0 <= i < |items| && items[i].sym < REP_3_6;
      var j := OrderCovers(items[i].sym);
      assert bl[OrderAt(j)] > 0;
    }
  }

  lemma {:induction false} OrderSize(bl: seq<nat>, n: nat)
    requires |bl| == BL_CODES && n <= BL_CODES
    ensures |OrderBits(bl, n)| == 3 * n
  {
    hide BitsOf;
    if n > 0 {
      OrderSize(bl, n - 1);
      BitsOfLength(bl[OrderAt(n - 1)], 3);
    }
  }

  lemma HeaderSize(h: Header)
    requires |h.ll| >= 257 && |h.dl| >= 1 && 4 <= h.nb <= BL_CODES && |h.bl| == BL_CODES && Symbolic(h.items)
    ensures |HeaderBits(h)| == 14 + 3 * h.nb
      + Dot(ItemHist(h.items), h.bl, BL_CODES) + Dot(ItemHist(h.items), ItemExtra(), BL_CODES)
  {
    hide ItemsBits, OrderBits, BitsOf;
    OrderSize(h.bl, h.nb);
    ItemsSize(h.bl, h.items);
    BitsOfLength(|h.ll| - 257, 5);
    BitsOfLength(|h.dl| - 1, 5);
    BitsOfLength(h.nb - 4, 4);
  }

  lemma BlExtra()
    ensures forall i :: 0 <= i < 3 ==> ItemExtra()[i] == 0
  {
  }

  // The last of the code lengths for items that has to be sent; three always
  // are before it.
  method LastIndex(bl_tree: array<CtData>, ghost bl: seq<nat>) returns (max_blindex: nat)
    requires bl_tree.Length >= BL_CODES && bl == SymbolLens(bl_tree[..], BL_CODES)
    ensures 2 <= max_blindex < BL_CODES && forall i :: max_blindex < i < BL_CODES ==> bl[OrderAt(i)] == 0
    ensures max_blindex >= 3 ==> bl[OrderAt(max_blindex)] != 0
  {
    hide OrderAt;
    max_blindex := BL_CODES - 1;
    while max_blindex >= 3 && bl_tree[OrderAt(max_blindex)].dl == 0
      invariant 2 <= max_blindex < BL_CODES
      invariant forall i :: max_blindex < i < BL_CODES ==> bl[OrderAt(i)] == 0
    {
      max_blindex := max_blindex - 1;
    }
  }

  // The codes of the tree are good for all items.
  lemma BlTreeFacts(tree: seq<CtData>, items: seq<Item>, lens: seq<nat>, max_code: nat, bl: seq<nat>)
    requires TreeOk(tree, ItemHist(items), BL_CODES, max_code, MAX_BL_BITS) && BL_CODES <= |tree| && bl == SymbolLens(tree, BL_CODES)
    requires Transmits(items, lens)
    ensures Ready(tree, bl) && Complete(bl) && (forall i :: 0 <= i < BL_CODES ==> bl[i] <= 7)
    ensures ItemsCoded(bl, items) && Symbolic(items)
    ensures Dot(ItemHist(items), Lens(tree), BL_CODES) == Dot(ItemHist(items), bl, BL_CODES)
  {
    hide TreeOk, ItemHist, ItemsCoded, Transmits, Complete, Prefixed, HasCodes, Dot;
    AllSymbols(tree, ItemHist(items), BL_CODES, max_code, MAX_BL_BITS);
    CompleteIsPrefixed(bl);
    AllItemsCoded(bl, items, lens);
    DotWhere(ItemHist(items), Lens(tree), bl, BL_CODES);
  }

  // Codes for the items of a header that take no more than four bits for each
  // item, if no more than 16 kinds occur; the others have no codes, and no more
  // lengths are sent than needed.
  ghost predicate LeanItems(h: Header) {
    && |h.bl| == BL_CODES && 4 <= h.nb <= BL_CODES
    && (|NonZero(ItemHist(h.items), BL_CODES)| <= 16 ==> Dot(ItemHist(h.items), h.bl, BL_CODES) <= 4 * |h.items|)
    && (forall s :: 3 <= s < BL_CODES && ItemHist(h.items)[s] == 0 ==> h.bl[s] == 0)
    && (h.nb > 4 ==> h.bl[OrderAt(h.nb - 1)] != 0)
  }

  lemma ItemsLean(h: Header, tree: seq<CtData>, occ: nat)
    requires BL_CODES <= |tree| && h.bl == SymbolLens(tree, BL_CODES) && 4 <= h.nb <= BL_CODES
    requires Modest(Lens(tree), ItemHist(h.items), BL_CODES, occ) && occ <= |h.items|
    requires Dot(ItemHist(h.items), Lens(tree), BL_CODES) == Dot(ItemHist(h.items), h.bl, BL_CODES)
    requires h.nb > 4 ==> h.bl[OrderAt(h.nb - 1)] != 0
    ensures LeanItems(h)
  {
    hide Dot, ItemHist, NonZero, HuffmanDepth.Fib, OrderAt;
    assert Pow2(4) == 16 by { Pow2Values(); }
    assert Mul(4, occ) == 4 * occ;
    assert forall s :: 0 <= s < BL_CODES ==> h.bl[s] == Lens(tree)[s];
  }

  lemma ItemOccurrences(tree: seq<CtData>, items: seq<Item>)
    requires BL_CODES <= |tree| && Freqs(tree, BL_CODES) == ItemHist(items)
    ensures Occurrences(tree, BL_CODES) <= |items|
  {
    hide ItemHist, Sum, Total;
    ItemTotal(items);
    SumBelowTotal(Used(tree, BL_CODES), ItemHist(items), BL_CODES);
  }

  // Make the code of the items that describe both trees. nb says how many of
  // its lengths are sent, and opt is the size of the whole header in bits.
  method BuildBlTree(ltree: array<CtData>, lmax: nat, dtree: array<CtData>, dmax: nat, bl_tree: array<CtData>,
                     heap: array<nat>, depth: array<nat>, bl_count: array<nat>)
      returns (nb: nat, opt: int)
    requires ltree != dtree && ltree != bl_tree && dtree != bl_tree && bl_tree.Length == 2 * BL_CODES + 1
    requires lmax + 1 < ltree.Length && dmax + 1 < dtree.Length && END_BLOCK <= lmax < L_CODES && dmax < D_CODES
    requires heap != depth && heap != bl_count && heap.Length == depth.Length == HEAP_SIZE && bl_count.Length == MAX_BITS + 1
    requires forall i :: 0 <= i <= lmax ==> ltree[i].dl <= 15
    requires forall i :: 0 <= i <= dmax ==> dtree[i].dl <= 15
    requires ltree[END_BLOCK].dl > 0 && Freqs(bl_tree[..], BL_CODES) == Zeros(BL_CODES)
    modifies ltree, dtree, bl_tree, heap, depth, bl_count
    ensures ltree[..] == old(ltree[..])[lmax + 1 := old(ltree[lmax + 1]).(dl := GUARD)]
    ensures dtree[..] == old(dtree[..])[dmax + 1 := old(dtree[dmax + 1]).(dl := GUARD)]
    ensures var ll, dl, bl := old(SymbolLens(ltree[..], lmax + 1)), old(SymbolLens(dtree[..], dmax + 1)),
                              SymbolLens(bl_tree[..], BL_CODES);
      && Ready(bl_tree[..], bl) && OrderOk(bl, nb) && Transmits(BothItems(ll, dl), ll + dl)
      && ItemsCoded(bl, BothItems(ll, dl)) && opt == |HeaderBits(Header(ll, dl, bl, nb, BothItems(ll, dl)))|
      && LeanItems(Header(ll, dl, bl, nb, BothItems(ll, dl)))
  {
    hide ItemHist, ItemCount, Sum, TreeItems, Dot, Pow2, HasCodes, Complete, Prefixed, Optimal, Shortest, Occurrences,
      ItemsCoded, Transmits, SteepFor, TreeOf, Upper, TreeOk, OrderAt, BothItems, HeaderBits, Used, Ready, Modest,
      LeanItems, ExtraBits;
    ghost var ll, dl := SymbolLens(ltree[..], lmax + 1), SymbolLens(dtree[..], dmax + 1);
    ghost var items := BothItems(ll, dl);
    ScanTrees(ltree, lmax, dtree, dmax, bl_tree);
    ghost var occ := Occurrences(bl_tree[..], BL_CODES);
    ItemOccurrences(bl_tree[..], items);
    BlExtra();
    assert BL_CODES <= Pow2(MAX_BL_BITS) by { Pow2Values(); }
    var max_code, static_bits;
    ghost var cut, g;
    max_code, opt, static_bits, cut, g :=
      BuildTree(bl_tree, BL_CODES, heap, depth, bl_count, EXTRA_BLBITS, 0, [], MAX_BL_BITS);
    ghost var bl := SymbolLens(bl_tree[..], BL_CODES);
    BothTransmit(ll, dl);
    BlTreeFacts(bl_tree[..], items, ll + dl, max_code, bl);
    var max_blindex := LastIndex(bl_tree, bl);
    LastLengthSent(bl, items, ll + dl, END_BLOCK);
    opt := opt + 3 * (max_blindex + 1) + 5 + 5 + 4;
    nb := max_blindex + 1;
    HeaderSize(Header(ll, dl, bl, nb, items));
    ItemsLean(Header(ll, dl, bl, nb, items), bl_tree[..], occ);
  }

  // Write the header h of a dynamic block: three counts, nb lengths in their
  // order of transmission, and the items of both trees.
  method SendAllTrees(w: BitWriter, ltree: array<CtData>, dtree: array<CtData>, lcodes: nat, dcodes: nat, blcodes: nat,
                      bl_tree: array<CtData>, ghost h: Header)
    requires 257 <= lcodes <= L_CODES && 1 <= dcodes <= D_CODES && lcodes < ltree.Length && dcodes < dtree.Length
    requires bl_tree.Length >= BL_CODES && Ready(bl_tree[..], h.bl) && OrderOk(h.bl, h.nb) && blcodes == h.nb
    requires ltree[lcodes].dl == GUARD && dtree[dcodes].dl == GUARD
    requires h.ll == SymbolLens(ltree[..], lcodes) && h.dl == SymbolLens(dtree[..], dcodes)
    requires forall i :: 0 <= i < lcodes ==> ltree[i].dl <= 15
    requires forall i :: 0 <= i < dcodes ==> dtree[i].dl <= 15
    requires h.items == BothItems(h.ll, h.dl) && ItemsCoded(h.bl, h.items)
    requires w.Valid() && w.Sent() + |HeaderBits(h)| <= 8 * w.buf.Length
    modifies w, w.buf
    ensures w.Valid() && w.Sent() == old(w.Sent()) + |HeaderBits(h)|
    ensures w.Written() == old(w.Written()) + HeaderBits(h)
    ensures old(w.pending) <= w.pending && Kept(old(w.buf[..]), w.buf[..], old(w.pending), w.pending)
  {
    hide ItemsBits, OrderBits, CountBits, HeaderBits, BitsOf, TreeItems, Complete, Prefixed, ItemsCoded;
    BothItemsCoded(h);
    HeaderParts(h);
    ghost var start := w.Written();
    SendCounts(w, lcodes, dcodes, blcodes, h);
    SendOrder(w, blcodes, bl_tree, h.bl);
    SendTree(w, ltree, lcodes - 1, bl_tree, h.bl);
    SendTree(w, dtree, dcodes - 1, bl_tree, h.bl);
    ghost var a, b := ItemsBits(h.bl, TreeItems(h.ll)), ItemsBits(h.bl, TreeItems(h.dl));
    JoinFive(start, CountBits(h), OrderBits(h.bl, h.nb), a, b);
  }

  lemma JoinFive(s: seq<bool>, a: seq<bool>, b: seq<bool>, c: seq<bool>, d: seq<bool>)
    ensures s + a + b + c + d == s + (a + b + (c + d))
  {
  }

  lemma BothItemsCoded(h: Header)
    requires h.items == BothItems(h.ll, h.dl) && ItemsCoded(h.bl, h.items)
    ensures ItemsCoded(h.bl, TreeItems(h.ll)) && ItemsCoded(h.bl, TreeItems(h.dl))
    ensures Symbolic(TreeItems(h.ll)) && Symbolic(TreeItems(h.dl))
  {
    hide TreeItems, Pow2;
    var a, b := TreeItems(h.ll), TreeItems(h.dl);
    assert forall i :: 0 <= i < |a| ==> a[i] == h.items[i];
    assert forall i :: 0 <= i < |b| ==> b[i] == h.items[|a| + i];
  }

  lemma HeaderParts(h: Header)
    requires 257 <= |h.ll| && 1 <= |h.dl| && 4 <= h.nb <= BL_CODES && |h.bl| == BL_CODES
    requires h.items == BothItems(h.ll, h.dl) && Symbolic(TreeItems(h.ll)) && Symbolic(TreeItems(h.dl))
    ensures Symbolic(h.items) && |CountBits(h)| == 14 && |OrderBits(h.bl, h.nb)| == 3 * h.nb
    ensures HeaderBits(h) == CountBits(h) + OrderBits(h.bl, h.nb)
      + (ItemsBits(h.bl, TreeItems(h.ll)) + ItemsBits(h.bl, TreeItems(h.dl)))
  {
    hide ItemsBits, TreeItems, BitsOf;
    OrderSize(h.bl, h.nb);
    ItemsBitsConcat(h.bl, TreeItems(h.ll), TreeItems(h.dl));
    BitsOfLength(|h.ll| - 257, 5);
    BitsOfLength(|h.dl| - 1, 5);
    BitsOfLength(h.nb - 4, 4);
  }

  method SendCounts(w: BitWriter, lcodes: nat, dcodes: nat, blcodes: nat, ghost h: Header)
    requires 257 <= lcodes <= L_CODES && 1 <= dcodes <= D_CODES && 4 <= blcodes <= BL_CODES
    requires |h.ll| == lcodes && |h.dl| == dcodes && h.nb == blcodes
    requires w.Valid() && w.Sent() + 14 <= 8 * w.buf.Length
    modifies w, w.buf
    ensures w.Valid() && w.Sent() == old(w.Sent()) + 14 && w.Written() == old(w.Written()) + CountBits(h)
    ensures old(w.pending) <= w.pending && Kept(old(w.buf[..]), w.buf[..], old(w.pending), w.pending)
  {
    hide BitsOf;
    Pow2Values();
    ghost var start, a, b, c := w.Written(), BitsOf(lcodes - 257, 5), BitsOf(dcodes - 1, 5), BitsOf(blcodes - 4, 4);
    assert start + a + b + c == start + (a + b + c);
    w.SendBits(lcodes - 257, 5);
    w.SendBits(dcodes - 1, 5);
    w.SendBits(blcodes - 4, 4);
  }

  lemma OrderHas(bl_tree: seq<CtData>, bl: seq<nat>, blcodes: nat, rank: nat)
    requires HasCodes(bl_tree, bl) && OrderOk(bl, blcodes) && rank < blcodes
    ensures OrderAt(rank) < |bl| <= |bl_tree| && bl_tree[OrderAt(rank)].dl == bl[OrderAt(rank)] < 8 == Pow2(3)
  {
    hide Complete, OrderAt;
    Pow2Values();
  }

  method SendOrder(w: BitWriter, blcodes: nat, bl_tree: array<CtData>, ghost bl: seq<nat>)
    requires bl_tree.Length >= BL_CODES && HasCodes(bl_tree[..], bl) && OrderOk(bl, blcodes)
    requires w.Valid() && w.Sent() + 3 * blcodes <= 8 * w.buf.Length
    modifies w, w.buf
    ensures w.Valid() && w.Sent() == old(w.Sent()) + 3 * blcodes
    ensures w.Written() == old(w.Written()) + OrderBits(bl, blcodes)
    ensures old(w.pending) <= w.pending && Kept(old(w.buf[..]), w.buf[..], old(w.pending), w.pending)
  {
    hide BitsOf, Complete, OrderAt, HasCodes;
    var rank := 0;
    assert OrderBits(bl, 0) == [];
    while rank < blcodes
      invariant 0 <= rank <= blcodes
      invariant w.Valid() && w.Sent() == old(w.Sent()) + 3 * rank
      invariant w.Written() == old(w.Written()) + OrderBits(bl, rank)
      invariant old(w.pending) <= w.pending && Kept(old(w.buf[..]), w.buf[..], old(w.pending), w.pending)
    {
      ghost var start, a, b := old(w.Written()), OrderBits(bl, rank), BitsOf(bl[OrderAt(rank)], 3);
      assert start + (a + b) == start + a + b;
      OrderHas(bl_tree[..], bl, blcodes, rank);
      w.SendBits(bl_tree[OrderAt(rank)].dl, 3);
      rank := rank + 1;
    }
  }
}
