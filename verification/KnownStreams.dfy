// What the tables of the format come to in numbers: the order of the item
// lengths, the lengths and distances of the codes, the fixed codes, and the
// bytes of small streams with a dynamic and a stored block (section 3.2 of
// RFC 1951).
module KnownStreams {
  import opened Bits
  import opened BitWriter
  import opened CanonicalCode
  import opened Format
  import opened TreeHeader
  import opened BlockFormat
  import opened StaticTrees
  import InflateTable
  import opened InflateMachine
  import InflateBlocks
  import InflateEntry

  // ---- The tables in closed form ----

  // The item lengths come in this order: the repeats, zero, and then from the
  // middle outwards.
  lemma OrderOutwards(j: nat)
    requires j <= 7
    ensures OrderAt(0) == 16 && OrderAt(1) == 17 && OrderAt(2) == 18 && OrderAt(3) == 0
    ensures OrderAt(4 + 2 * j) == 8 + j && (j < 7 ==> OrderAt(5 + 2 * j) == 7 - j)
  {
  }

  // Four codes for every number of extra bits, from one on; the last code
  // stands for the greatest length alone.
  lemma LengthsInFours(y: nat)
    requires y <= 28
    ensures |InflateTable.LBASE| == |InflateTable.LEXT| == 31
    ensures y < 8 ==> InflateTable.LBASE[y] == 3 + y && InflateTable.LEXT[y] == 16
    ensures 8 <= y < 28 ==>
      InflateTable.LBASE[y] == 3 + (4 + y % 4) * Pow2(y / 4 - 1) && InflateTable.LEXT[y] == 16 + y / 4 - 1
    ensures y == 28 ==> InflateTable.LBASE[y] == 258 && InflateTable.LEXT[y] == 16
  {
    Pow2Values();
  }

  // Two codes for every number of extra bits.
  lemma DistancesInPairs(y: nat)
    requires y <= 29
    ensures |InflateTable.DBASE| == |InflateTable.DEXT| == 32
    ensures y < 4 ==> InflateTable.DBASE[y] == 1 + y && InflateTable.DEXT[y] == 16
    ensures y >= 4 ==>
      InflateTable.DBASE[y] == 1 + (2 + y % 2) * Pow2(y / 2 - 1) && InflateTable.DEXT[y] == 16 + y / 2 - 1
  {
    Pow2Values();
  }

  // The fixed codes, most significant bit first.
  lemma FixedCodesAre(s: nat)
    requires s < 288
    ensures var lens := FixedLitLens();
      && (s <= 143 ==> lens[s] == 8 && CodeOf(lens, s) == 48 + s)
      && (144 <= s <= 255 ==> lens[s] == 9 && CodeOf(lens, s) == 400 + (s - 144))
      && (256 <= s <= 279 ==> lens[s] == 7 && CodeOf(lens, s) == s - 256)
      && (280 <= s ==> lens[s] == 8 && CodeOf(lens, s) == 192 + (s - 280))
  {
    var lens := FixedLitLens();
    InflateEntry.NoFirst(lens, 7);
    InflateEntry.FixedCount(lens, 7);
    InflateEntry.FixedCount(lens, 8);
    assert CountTo(lens, lens[s], 0) == 0;
    assert FirstCode(lens, 8) == 48;
    assert FirstCode(lens, 9) == 400;
    hide CountTo, Count, FirstCode;
    var l := lens[s];
    InflateEntry.SpanCount(lens, l, 0, if s <= 143 then s else 144, 8);
    if s >= 144 { InflateEntry.SpanCount(lens, l, 144, if s <= 255 then s else 256, 9); }
    if s >= 256 { InflateEntry.SpanCount(lens, l, 256, if s <= 279 then s else 280, 7); }
    if s >= 280 { InflateEntry.SpanCount(lens, l, 280, s, 8); }
  }

  // ---- A stream with a dynamic block ----

  function Zeros(n: nat): (s: seq<bool>)
    ensures |s| == n && forall i :: 0 <= i < n ==> !s[i]
  {
    seq(n, i => false)
  }

  // All literals but the last have codes of eight bits, and so has the end of
  // the block; the two distances have codes of one bit.
  function Lens(): (s: seq<nat>)
    ensures |s| == 257 && forall i :: 0 <= i < 257 ==> s[i] == if i == 255 then 0 else 8
  {
    seq(257, i requires 0 <= i < 257 => if i == 255 then 0 else 8)
  }

  // These lengths are sent as they are: 8 in one bit, 0 and 1 in two.
  function ItemLens(): (s: seq<nat>)
    ensures |s| == BL_CODES && forall i :: 0 <= i < BL_CODES ==> s[i] == if i == 8 then 1 else if i <= 1 then 2 else 0
  {
    seq(BL_CODES, i requires 0 <= i < BL_CODES => if i == 8 then 1 else if i <= 1 then 2 else 0)
  }

  function PlainItems(lens: seq<nat>): (s: seq<Item>)
    ensures |s| == |lens| && forall i :: 0 <= i < |lens| ==> s[i] == Item(lens[i], 0)
  {
    seq(|lens|, i requires 0 <= i < |lens| => Item(lens[i], 0))
  }

  function TheHeader(): Header {
    Header(Lens(), [1, 1], ItemLens(), 18, PlainItems(Lens() + [1, 1]))
  }

  function TheBlock(): Block {
    Dynamic(TheHeader(), [Literal(97)])
  }

  // The block's type, the three counts and the item lengths in five bytes; the
  // items from there on; at the end the codes of the literal and of the end.
  function TheBytes(): seq<byte> {
    FirstBytes() + ZeroSeq(4) + [0x20] + ZeroSeq(31) + LastBytes()
  }

  function FirstBytes(): seq<byte> {
    [0x05, 0xc1, 0x01, 0x28]
  }

  function LastBytes(): seq<byte> {
    [0x40, 0xde, 0xf0, 0x1f]
  }

  function ZeroSeq(n: nat): (s: seq<byte>)
    ensures |s| == n && forall i :: 0 <= i < n ==> s[i] == 0
  {
    seq(n, i => 0)
  }

  lemma {:induction false} PlainExpand(out: seq<nat>, lens: seq<nat>)
    requires forall i :: 0 <= i < |lens| ==> lens[i] <= 15
    ensures ItemsOk(out, PlainItems(lens)) && ExpandItems(out, PlainItems(lens)) == out + lens
    decreases |lens|
  {
    if lens == [] {
      assert out + lens == out;
    } else {
      assert PlainItems(lens)[1..] == PlainItems(lens[1..]);
      assert ItemOk(out, Item(lens[0], 0)) by { assert Pow2(0) == 1; }
      assert out + [lens[0]] + lens[1..] == out + lens;
      PlainExpand(out + [lens[0]], lens[1..]);
    }
  }

  // Pow2(k) codes of l bits take up as much as one of k bits less.
  lemma SpanKraft(lens: seq<nat>, a: nat, b: nat, l: nat, k: nat)
    requires LengthsInRange(lens) && a <= b <= |lens| && k <= l <= MAXBITS && l >= 1 && b - a == Pow2(k)
    requires forall i :: a <= i < b ==> lens[i] == l
    ensures KraftTo(lens, b) == KraftTo(lens, a) + Pow2(k + MAXBITS - l)
  {
    hide KraftTo;
    KraftSpan(lens, a, b, l);
    ShlPow2(k, MAXBITS - l);
  }

  lemma {:induction false} OneMore(lens: seq<nat>, a: nat, l: nat)
    requires LengthsInRange(lens) && a < |lens| && lens[a] == l >= 1
    ensures KraftTo(lens, a + 1) == KraftTo(lens, a) + Pow2(MAXBITS - l)
  {
  }

  lemma LensComplete(a: seq<nat>)
    requires a == Lens()
    ensures Complete(a)
  {
    assert KraftTo(a, 0) == 0 && KraftTo(a, 256) == KraftTo(a, 255);
    OneMore(a, 256, 8);
    hide KraftTo;
    KraftSpan(a, 0, 255, 8);
    hide Lens;
    FullSpan();
  }

  lemma FullSpan()
    ensures Shl(255, 7) + Pow2(7) == Pow2(15)
  {
    ShlAdd(255, 1, 7);
    ShlOne(7);
    ShlPow2(8, 7);
    assert Pow2(8) == 256 by { Pow2Values(); }
  }

  lemma TwoComplete(b: seq<nat>)
    requires b == [1, 1]
    ensures Complete(b)
  {
    assert KraftTo(b, 0) == 0;
    hide KraftTo;
    assert Pow2(1) == 2;
    SpanKraft(b, 0, 2, 1, 1);
  }

  lemma ItemLensComplete(c: seq<nat>)
    requires c == ItemLens()
    ensures Complete(c)
  {
    assert KraftTo(c, 0) == 0;
    assert Pow2(1) == 2 && Pow2(15) == Pow2(14) + Pow2(14);
    OneMore(c, 8, 1);
    hide KraftTo, Pow2, ItemLens;
    SpanKraft(c, 0, 2, 2, 1);
    ZeroKraft(c, 2, 8);
    ZeroKraft(c, 9, 19);
  }

  lemma {:induction false} ZeroKraft(lens: seq<nat>, a: nat, b: nat)
    requires LengthsInRange(lens) && a <= b <= |lens| && forall i :: a <= i < b ==> lens[i] == 0
    ensures KraftTo(lens, b) == KraftTo(lens, a)
    decreases b
  {
    if a < b { ZeroKraft(lens, a, b - 1); }
  }

  lemma ItemLensOk(c: seq<nat>, items: seq<Item>)
    requires c == ItemLens()
    requires forall i :: 0 <= i < |items| ==> items[i].sym in {0, 1, 8} && items[i].extra == 0
    ensures OrderOk(c, 18) && ItemsCoded(c, items)
  {
    ItemLensComplete(c);
    hide Complete;
    assert OrderAt(18) == 15;
    assert Pow2(0) == 1;
    hide Pow2;
    forall i | 0 <= i < |items|
      ensures items[i].sym < |c| && c[items[i].sym] > 0 && items[i].extra < Pow2(EXTRA_BLBITS[items[i].sym])
    {
      assert items[i].sym in {0, 1, 8};
    }
  }

  lemma HeaderIsOk()
    ensures HeaderOk(TheHeader()) && BlockOk(TheBlock())
  {
    hide Complete, ItemsOk, ExpandItems, OrderOk, ItemsCoded, Lens, ItemLens, PlainItems;
    var h := TheHeader();
    LensComplete(h.ll);
    TwoComplete(h.dl);
    ItemLensOk(h.bl, h.items);
    PlainExpand([], h.ll + h.dl);
    assert [] + (h.ll + h.dl) == h.ll + h.dl;
  }

  // ---- Its bits ----

  lemma ItemCodes()
    ensures CodeBits(ItemLens(), 8) == [false]
    ensures CodeBits(ItemLens(), 0) == [true, false] && CodeBits(ItemLens(), 1) == [true, true]
  {
    var c := ItemLens();
    assert CountTo(c, 1, 0) == CountTo(c, 2, 0) == 0;
    hide CountTo;
    InflateEntry.SpanCount(c, 1, 0, 2, 2);
    InflateEntry.SpanCount(c, 1, 2, 8, 0);
    InflateEntry.SpanCount(c, 1, 8, 9, 1);
    InflateEntry.SpanCount(c, 1, 9, 19, 0);
    InflateEntry.SpanCount(c, 2, 0, 1, 2);
    assert FirstCode(c, 2) == 2;
    assert Rev(0, 1) == 0 && Rev(2, 2) == 1 && Rev(3, 2) == 3;
    assert BitsOf(0, 1) == [false] && BitsOf(1, 2) == [true, false] && BitsOf(3, 2) == [true, true];
  }

  lemma LiteralCodes(a: seq<nat>)
    requires a == Lens()
    ensures CodeOf(a, 97) == 97 && CodeOf(a, END_BLOCK) == 255
  {
    NoShorter(a, 8);
    assert CountTo(a, 8, 0) == 0;
    hide CountTo, FirstCode;
    InflateEntry.SpanCount(a, 8, 0, 97, 8);
    InflateEntry.SpanCount(a, 8, 97, 255, 8);
    InflateEntry.SpanCount(a, 8, 255, 256, 0);
  }

  lemma LiteralBits(a: seq<nat>)
    requires a == Lens()
    ensures CodeBits(a, 97) == Half(6) + Half(8) && CodeBits(a, END_BLOCK) == Half(15) + Half(15)
  {
    LiteralCodes(a);
    Reversed();
    hide CodeOf, Rev, BitsOf, Half;
    Halves(6, 8);
    Halves(15, 15);
  }

  lemma Reversed()
    ensures Rev(97, 8) == 134 && Rev(255, 8) == 255
  {
    Pow2Values();
    hide Pow2;
    assert Rev(3, 4) == 12 && Rev(6, 4) == 6 && Rev(15, 4) == 15;
    assert Rev(48, 7) == 6 && Rev(24, 6) == 6 && Rev(12, 5) == 6;
    assert Rev(31, 5) == 31 && Rev(63, 6) == 63 && Rev(127, 7) == 127;
  }

  lemma {:induction false} NoShorter(lens: seq<nat>, l: nat)
    requires l <= 8 && forall i :: 0 <= i < |lens| ==> lens[i] == 8 || lens[i] == 0
    ensures FirstCode(lens, l) == 0
  {
    if l > 1 {
      NoShorter(lens, l - 1);
      NoneOf(lens, l - 1, |lens|);
    }
  }

  lemma {:induction false} NoneOf(lens: seq<nat>, l: nat, m: nat)
    requires m <= |lens| && forall i :: 0 <= i < m ==> lens[i] != l
    ensures CountTo(lens, l, m) == 0
  {
    if m > 0 { NoneOf(lens, l, m - 1); }
  }

  // Half a byte, and a byte from its halves, low one first.
  function Half(v: nat): (s: seq<bool>)
    ensures |s| == 4
  {
    [v % 2 == 1, v / 2 % 2 == 1, v / 4 % 2 == 1, v / 8 % 2 == 1]
  }

  lemma HalfBits(v: nat)
    ensures BitsOf(v, 4) == Half(v)
  {
    assert BitsOf(v / 2 / 2 / 2, 1) == [v / 8 % 2 == 1];
    assert BitsOf(v / 2 / 2, 2) == [v / 4 % 2 == 1, v / 8 % 2 == 1];
    assert BitsOf(v / 2, 3) == [v / 2 % 2 == 1] + BitsOf(v / 2 / 2, 2);
  }

  lemma Halves(lo: nat, hi: nat)
    requires lo < 16
    ensures BitsOf(lo + 16 * hi, 8) == Half(lo) + Half(hi)
  {
    var v := lo + 16 * hi;
    assert Shl(hi, 1) == 2 * hi;
    assert Shl(hi, 2) == 4 * hi;
    assert Shl(hi, 4) == 16 * hi;
    assert Pow2(4) == 16 by { Pow2Values(); }
    hide Shl, Shr, Low, Pow2, Half, BitsOf;
    ComposeUnique(hi, lo, 4);
    BitsOfSplit(v, 4, 4);
    BitsOfLow(v, 4);
    HalfBits(lo);
    HalfBits(hi);
  }

  lemma ZerosJoin(a: nat, b: nat)
    ensures Zeros(a) + Zeros(b) == Zeros(a + b)
  {
  }

  lemma ThreeZeros(front: seq<bool>, n: nat)
    ensures front + Zeros(n) + BitsOf(0, 3) == front + Zeros(n + 3) && front + Zeros(0) == front
  {
    assert BitsOf(0, 3) == Zeros(3);
    ZerosJoin(n, 3);
    hide BitsOf;
    assert front + Zeros(n) + Zeros(3) == front + (Zeros(n) + Zeros(3));
  }

  lemma {:induction false} ZeroOrder(bl: seq<nat>, a: nat, b: nat)
    requires |bl| == BL_CODES && a <= b <= BL_CODES && forall i :: a <= i < b ==> bl[OrderAt(i)] == 0
    ensures OrderBits(bl, b) == OrderBits(bl, a) + Zeros(3 * (b - a))
    decreases b
  {
    hide OrderAt, BitsOf, Zeros;
    if a == b {
      ThreeZeros(OrderBits(bl, a), 0);
    } else {
      ZeroOrder(bl, a, b - 1);
      ThreeZeros(OrderBits(bl, a), 3 * (b - 1 - a));
    }
  }

  lemma OrderParts(bl: seq<nat>)
    requires bl == ItemLens()
    ensures OrderBits(bl, 18) == Zeros(9) + BitsOf(2, 3) + BitsOf(1, 3) + Zeros(36) + BitsOf(2, 3)
  {
    hide BitsOf;
    assert OrderBits(bl, 0) == [];
    ZeroOrder(bl, 0, 3);
    assert OrderBits(bl, 4) == OrderBits(bl, 3) + BitsOf(2, 3);
    assert OrderBits(bl, 5) == OrderBits(bl, 4) + BitsOf(1, 3);
    ZeroOrder(bl, 5, 17);
    assert OrderBits(bl, 18) == OrderBits(bl, 17) + BitsOf(2, 3);
  }

  lemma Triples()
    ensures Zeros(9) + BitsOf(2, 3) == Zeros(10) + [true] + [false]
    ensures [false] + BitsOf(1, 3) == [false, true] + Zeros(2)
    ensures Zeros(36) + BitsOf(2, 3) == Zeros(37) + [true, false]
  {
    assert BitsOf(2, 3) == [false, true, false] && BitsOf(1, 3) == [true, false, false];
    hide BitsOf;
    assert Zeros(9) + [false] == Zeros(10);
    assert Zeros(36) + [false] == Zeros(37);
  }

  lemma TheOrder(bl: seq<nat>)
    requires bl == ItemLens()
    ensures OrderBits(bl, 18) == Zeros(10) + [true] + [false, true] + Zeros(39) + [true, false]
  {
    hide OrderBits, BitsOf, ItemLens, Zeros;
    OrderParts(bl);
    Triples();
    ZerosJoin(2, 37);
    Shift(Zeros(9) + BitsOf(2, 3), Zeros(10) + [true], [false], BitsOf(1, 3), [false, true], Zeros(2),
      Zeros(36), BitsOf(2, 3), Zeros(37), [true, false]);
  }

  // Moving what lies between two parts from one to the other.
  lemma Shift(u: seq<bool>, p: seq<bool>, e: seq<bool>, v: seq<bool>, f: seq<bool>, g: seq<bool>, w: seq<bool>, x: seq<bool>,
              y: seq<bool>, z: seq<bool>)
    requires u == p + e && e + v == f + g && w + x == y + z
    ensures u + v + w + x == p + f + (g + y) + z
  {
    assert u + v + w + x == p + (e + v) + (w + x);
    assert p + (f + g) + (y + z) == p + f + (g + y) + z;
  }

  lemma {:induction false} Eights(bl: seq<nat>, items: seq<Item>, k: nat)
    requires bl == ItemLens() && Symbolic(items) && k <= |items| && forall i :: 0 <= i < k ==> items[i] == Item(8, 0)
    ensures ItemsBits(bl, items[..k]) == Zeros(k)
  {
    if k > 0 {
      Eights(bl, items, k - 1);
      NextItem(bl, items, k - 1);
      ItemCodes();
      assert BitsOf(0, 0) == [];
      hide ItemsBits;
      assert Zeros(k - 1) + [false] == Zeros(k);
    } else {
      assert items[..0] == [];
    }
  }

  lemma NextItem(bl: seq<nat>, items: seq<Item>, k: nat)
    requires |bl| == BL_CODES && Symbolic(items) && k < |items| && items[k].sym < 16
    ensures ItemsBits(bl, items[..k + 1]) == ItemsBits(bl, items[..k]) + CodeBits(bl, items[k].sym)
  {
    assert items[..k + 1][..k] == items[..k];
    assert BitsOf(items[k].extra, 0) == [];
    hide CodeBits, BitsOf;
    assert CodeBits(bl, items[k].sym) + [] == CodeBits(bl, items[k].sym);
  }

  lemma TheItems(bl: seq<nat>, items: seq<Item>)
    requires bl == ItemLens() && |items| == 259 && Symbolic(items) && forall i :: 0 <= i < 255 ==> items[i] == Item(8, 0)
    requires items[255] == Item(0, 0) && items[256] == Item(8, 0) && items[257] == items[258] == Item(1, 0)
    ensures ItemsBits(bl, items) == Zeros(255) + [true, false, false] + [true, true] + [true, true]
  {
    Eights(bl, items, 255);
    ItemCodes();
    hide ItemsBits, CodeBits, ItemLens;
    NextItem(bl, items, 255);
    NextItem(bl, items, 256);
    assert ItemsBits(bl, items[..257]) == Zeros(255) + [true, false, false];
    NextItem(bl, items, 257);
    NextItem(bl, items, 258);
    assert items[..259] == items;
  }

  // The block's type and the counts, and the first item lengths after them:
  // four bytes.
  function Counts(): (s: seq<bool>)
    ensures |s| == 17
  {
    [true, false, true, false, false, false, false, false,
     true, false, false, false, false, false, true, true, true]
  }

  function Lengths(): (s: seq<bool>)
    ensures |s| == 15
  {
    [false, false, false, false, false, false, false, false, false, false, true, false, true, false, false]
  }

  lemma CountsBits(h: Header)
    requires |h.ll| == 257 && |h.dl| == 2 && h.nb == 18
    ensures BitsOf(5, 3) + CountBits(h) == Counts()
  {
    SmallBits();
    hide BitsOf;
    assert CountBits(h) == BitsOf(0, 5) + BitsOf(1, 5) + BitsOf(14, 4);
  }

  lemma SmallBits()
    ensures BitsOf(5, 3) == [true, false, true] && BitsOf(0, 5) == [false, false, false, false, false]
    ensures BitsOf(1, 5) == [true, false, false, false, false] && BitsOf(14, 4) == [false, true, true, true]
  {
    assert BitsOf(0, 2) == [false, false];
  }

  lemma LengthsBits()
    ensures Zeros(10) + [true] + [false, true] + Zeros(2) == Lengths()
  {
  }

  function Whole(lo: nat, hi: nat): (s: seq<bool>)
    ensures |s| == 8
  {
    [lo % 2 == 1, lo / 2 % 2 == 1, lo / 4 % 2 == 1, lo / 8 % 2 == 1,
     hi % 2 == 1, hi / 2 % 2 == 1, hi / 4 % 2 == 1, hi / 8 % 2 == 1]
  }

  lemma WholeBits(c: byte, lo: nat, hi: nat)
    requires c == lo + 16 * hi && lo < 16
    ensures BytesBits([c]) == Whole(lo, hi)
  {
    ByteBits(c);
    Halves(lo, hi);
    hide BitsOf, BytesBits;
  }

  lemma FourBytes(a: byte, b: byte, c: byte, d: byte)
    ensures BytesBits([a, b, c, d]) == BytesBits([a]) + BytesBits([b]) + BytesBits([c]) + BytesBits([d])
  {
    hide BytesBits;
    assert [a, b, c, d] == [a] + [b] + [c] + [d];
    BytesBitsConcat([a], [b]);
    BytesBitsConcat([a] + [b], [c]);
    BytesBitsConcat([a] + [b] + [c], [d]);
  }

  lemma FrontBytes()
    ensures BytesBits(FirstBytes()) == Counts() + Lengths()
  {
    hide BytesBits;
    FourBytes(0x05, 0xc1, 0x01, 0x28);
    WholeBits(0x05, 5, 0);
    WholeBits(0xc1, 1, 12);
    WholeBits(0x01, 1, 0);
    WholeBits(0x28, 8, 2);
    assert Whole(5, 0) + Whole(1, 12) + [true] == Counts();
    assert Whole(1, 0) == [true] + [false, false, false, false, false, false, false];
    assert [false, false, false, false, false, false, false] + Whole(8, 2) == Lengths();
    hide Whole, Counts, Lengths;
  }

  // The end of the items, the codes of the literal and of the end, and what
  // fills the last byte.
  function Back(): (s: seq<bool>)
    ensures |s| == 26
  {
    [true, false, false] + [true, true] + [true, true] + (Half(6) + Half(8)) + (Half(15) + Half(15)) + Zeros(3)
  }

  lemma BackBytes()
    ensures BytesBits(LastBytes()) == Zeros(6) + Back()
  {
    hide BytesBits;
    FourBytes(0x40, 0xde, 0xf0, 0x1f);
    WholeBits(0x40, 0, 4);
    WholeBits(0xde, 14, 13);
    WholeBits(0xf0, 0, 15);
    WholeBits(0x1f, 15, 1);
    assert Whole(0, 4) == Zeros(6) + [true, false];
    assert Whole(14, 13) == [false] + [true, true] + [true, true] + [false, true, true];
    assert Whole(0, 15) == [false, false, false, false, true] + [true, true, true];
    assert Whole(15, 1) == [true, true, true, true, true] + Zeros(3);
    assert [false, true, true] + [false, false, false, false, true] == Half(6) + Half(8);
    assert [true, true, true] + [true, true, true, true, true] == Half(15) + Half(15);
    assert [true, false] + [false] == [true, false, false];
    hide Whole, Half, Zeros;
  }

  lemma {:induction false} ZeroBytes(n: nat, s: seq<byte>)
    requires |s| == n && forall i :: 0 <= i < n ==> s[i] == 0
    ensures BytesBits(s) == Zeros(8 * n)
  {
    if n > 0 {
      ZeroBytes(n - 1, s[..n - 1]);
      Halves(0, 0);
      assert Half(0) + Half(0) == Zeros(8);
      hide BitsOf;
      ZerosJoin(8 * (n - 1), 8);
    }
  }

  lemma Assembled(a: seq<byte>, b: seq<byte>, c: seq<byte>, d: seq<byte>, e: seq<byte>)
    requires BytesBits(a) == Counts() + Lengths() && BytesBits(b) == Zeros(32)
    requires BytesBits(c) == Zeros(5) + [true] + Zeros(2) && BytesBits(d) == Zeros(248)
    requires BytesBits(e) == Zeros(6) + Back()
    ensures BytesBits(a + b + c + d + e) == Counts() + Lengths() + Zeros(37) + [true] + Zeros(256) + Back()
  {
    hide BytesBits, Counts, Lengths, Back, Zeros;
    BytesBitsConcat(a, b);
    BytesBitsConcat(a + b, c);
    BytesBitsConcat(a + b + c, d);
    BytesBitsConcat(a + b + c + d, e);
    ZerosJoin(32, 5);
    ZerosJoin(2, 248);
    ZerosJoin(250, 6);
    Regroup(Counts() + Lengths(), Zeros(32), Zeros(5), [true], Zeros(2), Zeros(248), Zeros(6), Back());
  }

  lemma MiddleByte()
    ensures BytesBits([0x20]) == Zeros(5) + [true] + Zeros(2)
  {
    WholeBits(0x20, 0, 2);
    hide BytesBits;
  }

  lemma TheBytesBits()
    ensures BytesBits(TheBytes()) == Counts() + Lengths() + Zeros(37) + [true] + Zeros(256) + Back()
  {
    hide BytesBits, Counts, Lengths, Back, Zeros, FirstBytes, LastBytes;
    FrontBytes();
    BackBytes();
    MiddleByte();
    ZeroBytes(4, ZeroSeq(4));
    ZeroBytes(31, ZeroSeq(31));
    hide ZeroSeq;
    Assembled(FirstBytes(), ZeroSeq(4), [0x20], ZeroSeq(31), LastBytes());
  }

  lemma Regroup(a: seq<bool>, b: seq<bool>, c: seq<bool>, d: seq<bool>, e: seq<bool>, f: seq<bool>, g: seq<bool>, h: seq<bool>)
    ensures a + b + (c + d + e) + f + (g + h) == a + (b + c) + d + (e + f + g) + h
  {
    assert a + b + (c + d + e) == a + (b + c) + d + e;
    assert a + (b + c) + d + e + f + (g + h) == a + (b + c) + d + (e + f + g) + h;
  }

  lemma HeaderParts(h: Header)
    requires h == TheHeader()
    ensures Symbolic(h.items)
    ensures BitsOf(5, 3) + HeaderBits(h)
         == Counts() + Lengths() + Zeros(37) + [true] + Zeros(256) + [true, false, false] + [true, true] + [true, true]
  {
    TheItems(h.bl, h.items);
    TheOrder(h.bl);
    CountsBits(h);
    LengthsBits();
    hide BitsOf, CountBits, OrderBits, ItemsBits, Counts, Lengths, Zeros, Lens, ItemLens, PlainItems;
    var order, items := OrderBits(h.bl, h.nb), ItemsBits(h.bl, h.items);
    ZerosJoin(2, 37);
    ZerosJoin(1, 255);
    assert [true, false] == [true] + Zeros(1);
    Middle(BitsOf(5, 3), CountBits(h), order, items, Lengths() + Zeros(37) + [true], Zeros(1), Zeros(255), [true, false, false],
      [true, true]);
    assert Counts() + (Lengths() + Zeros(37) + [true]) == Counts() + Lengths() + Zeros(37) + [true];
  }

  lemma Middle(t: seq<bool>, c: seq<bool>, o: seq<bool>, i: seq<bool>, front: seq<bool>, a: seq<bool>, b: seq<bool>,
               x: seq<bool>, y: seq<bool>)
    requires o == front + a && i == b + x + y + y
    ensures t + (c + o + i) == t + c + front + (a + b) + x + y + y
  {
    assert t + (c + o + i) == t + c + front + a + (b + x + y + y);
    assert t + c + front + a + (b + x + y + y) == t + c + front + (a + b) + x + y + y;
  }

  // These bytes are what the block's bits are, and three more.
  lemma TheBlockBits()
    ensures BlockOk(TheBlock()) && BytesBits(TheBytes()) == BlockBits(TheBlock(), true, 0) + Zeros(3)
  {
    var h := TheHeader();
    HeaderIsOk();
    HeaderParts(h);
    TheBytesBits();
    LiteralBits(h.ll);
    TheBody(h.ll, h.dl);
    hide BytesBits, HeaderBits, BodyBits, CodeBits, BlockOk, BlockBits, Counts, Lengths, Zeros, Half, TheBytes,
      TheHeader;
    DynamicBits(h, [Literal(97)]);
    hide BitsOf;
    Ends(BitsOf(5, 3), HeaderBits(h), Counts() + Lengths() + Zeros(37) + [true] + Zeros(256), [true, false, false],
      [true, true], Half(6) + Half(8), Half(15) + Half(15), Zeros(3));
  }

  lemma Ends(t: seq<bool>, v: seq<bool>, front: seq<bool>, x: seq<bool>, y: seq<bool>, p: seq<bool>, q: seq<bool>, z: seq<bool>)
    requires t + v == front + x + y + y
    ensures front + (x + y + y + p + q + z) == t + (v + (p + q)) + z
  {
    assert front + (x + y + y + p + q + z) == front + x + y + y + (p + q) + z;
    assert t + (v + (p + q)) == t + v + (p + q);
  }

  lemma DynamicBits(h: Header, ts: seq<Token>)
    requires BlockOk(Dynamic(h, ts))
    ensures HeaderOk(h) && AllCoded(h.ll, h.dl, ts)
    ensures BlockBits(Dynamic(h, ts), true, 0) == BitsOf(5, 3) + (HeaderBits(h) + BodyBits(h.ll, h.dl, ts))
  {
    hide HeaderBits, BodyBits, HeaderOk, BitsOf;
  }

  lemma TheBody(ll: seq<nat>, dl: seq<nat>)
    requires |ll| == 257 && ll[97] > 0
    ensures AllCoded(ll, dl, [Literal(97)]) && BodyBits(ll, dl, [Literal(97)]) == CodeBits(ll, 97) + CodeBits(ll, END_BLOCK)
  {
    hide CodeBits;
    var ts := [Literal(97)];
    assert ts[..0] == [];
    assert TokensBits(ll, dl, ts) == TokensBits(ll, dl, []) + TokenBits(ll, dl, ts[0]);
    assert [] + CodeBits(ll, 97) == CodeBits(ll, 97);
  }

  // A stream of one block.
  lemma OneBlock(b: Block)
    requires BlockOk(b) && BlockExpands([], b)
    ensures InflateBlocks.BlocksOk([], [b]) && InflateBlocks.BlocksData([], [b]) == BlockData([], b)
    ensures InflateBlocks.BlocksBits([], [b], 0) == BlockBits(b, true, 0)
  {
    hide BlockOk, BlockBits, BlockExpands, BlockData;
    var out, bits := BlockData([], b), BlockBits(b, true, 0);
    assert [b][1..] == [];
    assert InflateBlocks.BlocksOk(out, []) && InflateBlocks.BlocksBits(out, [], |bits|) == [];
    assert bits + [] == bits;
  }

  // Read in any pieces, the bytes come to an end and give the literal.
  lemma DynamicStream(pieces: seq<Piece>)
    requires pieces != [] && AllInput(pieces) == TheBytes() && AllRoom(pieces) >= 1
    ensures var c := Calls(Config(Initial(), [], 0), pieces); c.s.mode == DONE && c.s.out == [97]
  {
    var b := TheBlock();
    assert AllExpandable([], b.tokens) && Expand([], b.tokens) == [97] by { assert b.tokens[1..] == []; }
    assert BlockExpands([], b) && BlockData([], b) == [97];
    TheBlockBits();
    hide BytesBits, BlockBits, BlockOk, BlockExpands, BlockData, TheBytes, Calls, TheBlock, Zeros;
    OneBlock(b);
    hide InflateBlocks.BlocksOk, InflateBlocks.BlocksBits, InflateBlocks.BlocksData, AllInput, AllRoom, Initial;
    InflateBlocks.PiecesRoundTrip([b], pieces, Zeros(3));
  }

  // ---- A stream with a stored block ----

  // The last block, stored: the length of the data, its complement, and the data.
  function StoredBytes(): seq<byte> {
    [0x01] + [0x03, 0x00] + [0xfc, 0xff] + Abc()
  }

  function Abc(): seq<byte> {
    [0x61, 0x62, 0x63]
  }

  lemma StoredBits()
    ensures BlockOk(Stored(Abc())) && BytesBits(StoredBytes()) == BlockBits(Stored(Abc()), true, 0)
  {
    hide BytesBits, BitsOf, BlockBits, BlockOk;
    StoredParts(Abc());
    OneBits();
    LengthBytes();
    hide Abc;
    FourParts([0x01], [0x03, 0x00], [0xfc, 0xff], Abc());
    Grouped(BitsOf(1, 3), BitsOf(0, 5), BitsOf(3, 16), BitsOf(65532, 16), BytesBits(Abc()));
  }

  lemma FourParts(a: seq<byte>, b: seq<byte>, c: seq<byte>, d: seq<byte>)
    ensures BytesBits(a + b + c + d) == BytesBits(a) + BytesBits(b) + BytesBits(c) + BytesBits(d)
  {
    hide BytesBits;
    BytesBitsConcat(a, b);
    BytesBitsConcat(a + b, c);
    BytesBitsConcat(a + b + c, d);
  }

  lemma StoredParts(data: seq<byte>)
    requires |data| == 3
    ensures BlockOk(Stored(data))
    ensures BlockBits(Stored(data), true, 0)
         == BitsOf(1, 3) + (BitsOf(0, 5) + BitsOf(3, 16) + BitsOf(65532, 16) + BytesBits(data))
  {
    hide BitsOf, BytesBits, HeaderOk, HeaderBits, BodyBits, AllCoded, FixedLitLens, FixedDistLens;
    assert Padding(3) == 5;
  }

  lemma LengthBytes()
    ensures BytesBits([0x03, 0x00]) == BitsOf(3, 16) && BytesBits([0xfc, 0xff]) == BitsOf(65532, 16)
  {
    hide BytesBits, BitsOf, Low, Shr;
    LowHigh();
    ShortBits(3);
    ShortBits(65532);
  }

  lemma OneBits()
    ensures BytesBits([0x01]) == BitsOf(1, 3) + BitsOf(0, 5)
  {
    ByteBits(1);
    BitsOfSplit(1, 3, 5);
    assert Shr(1, 3) == 0;
    hide BitsOf, BytesBits;
  }

  lemma LowHigh()
    ensures Low(3, 8) == 3 && Shr(3, 8) == 0 && Low(65532, 8) == 0xfc && Shr(65532, 8) == 0xff
  {
    assert Pow2(8) == 256 by { Pow2Values(); }
    ShlPow2(0, 8);
    assert Shl(255, 8) == 65280 by {
      assert Shl(255, 2) == 1020;
      assert Shl(255, 4) == 4080;
      assert Shl(255, 6) == 16320;
    }
    hide Low, Shr, Shl, Pow2;
    LowSmall(3, 8);
    ComposeUnique(255, 252, 8);
  }

  lemma Grouped(a: seq<bool>, b: seq<bool>, c: seq<bool>, d: seq<bool>, e: seq<bool>)
    ensures a + b + c + d + e == a + (b + c + d + e)
  {
  }

  lemma StoredStream(pieces: seq<Piece>)
    requires pieces != [] && AllInput(pieces) == StoredBytes() && AllRoom(pieces) >= 3
    ensures var c := Calls(Config(Initial(), [], 0), pieces); c.s.mode == DONE && c.s.out == [97, 98, 99]
  {
    hide BytesBits, BlockBits, BlockOk, StoredBytes, Calls;
    var b := Stored(Abc());
    StoredBits();
    assert BlockData([], b) == [97, 98, 99];
    OneBlock(b);
    assert BlockBits(b, true, 0) + [] == BlockBits(b, true, 0);
    hide InflateBlocks.BlocksOk, InflateBlocks.BlocksBits, InflateBlocks.BlocksData, AllInput, AllRoom, Initial;
    InflateBlocks.PiecesRoundTrip([b], pieces, []);
  }
}
