// The three kinds of blocks (sections 3.2.3 to 3.2.7 of RFC 1951), as values
// and as the bits that stand for them.
module BlockFormat {
  import opened Bits
  import opened CanonicalCode
  import opened BitWriter
  import opened Format
  import opened TreeHeader

  const STORED_BLOCK: nat := 0
  const STATIC_TREES: nat := 1
  const DYN_TREES: nat := 2

  const BL_ORDER: seq<nat> := [16, 17, 18, 0, 8, 7, 9, 6, 10, 5, 11, 4, 12, 3, 13, 2, 14, 1, 15]

  // The code lengths in front of a dynamic block: those of the literals and
  // lengths, of the distances, and of the items that transmit both. nb is the
  // number of code lengths sent for the items.
  datatype Header = Header(ll: seq<nat>, dl: seq<nat>, bl: seq<nat>, nb: nat, items: seq<Item>)

  datatype Block =
    | Stored(data: seq<byte>)
    | Fixed(tokens: seq<Token>)
    | Dynamic(header: Header, tokens: seq<Token>)

  // ---- The fixed codes (section 3.2.6) ----

  function FixedLen(n: nat): nat {
    if n <= 143 then 8 else if n <= 255 then 9 else if n <= 279 then 7 else 8
  }

  function FixedLitLens(): (s: seq<nat>)
    ensures |s| == 288 && forall i :: 0 <= i < 288 ==> s[i] == FixedLen(i)
  {
    seq(288, i requires 0 <= i < 288 => FixedLen(i))
  }

  function FixedDistLens(): (s: seq<nat>)
    ensures |s| == D_CODES && forall i :: 0 <= i < D_CODES ==> s[i] == 5
  {
    seq(D_CODES, i => 5)
  }

  // ---- Dynamic block headers (section 3.2.7) ----

  // Code lengths of the items that fit in 3 bits, none lost behind the first
  // nb in the order of transmission.
  ghost predicate OrderOk(bl: seq<nat>, nb: nat) {
    && |bl| == BL_CODES && 4 <= nb <= BL_CODES && Complete(bl)
    && (forall i :: 0 <= i < BL_CODES ==> bl[i] <= 7)
    && (forall i :: nb <= i < BL_CODES ==> bl[OrderAt(i)] == 0)
  }

  function OrderAt(i: nat): (s: nat)
    requires i < BL_CODES
    ensures s < BL_CODES
  {
    BL_ORDER[i]
  }

  // Items that transmit the code lengths of a block.
  ghost predicate Transmits(items: seq<Item>, lens: seq<nat>) {
    ItemsOk([], items) && ExpandItems([], items) == lens
  }

  ghost predicate HeaderOk(h: Header) {
    && 257 <= |h.ll| <= L_CODES && 1 <= |h.dl| <= D_CODES
    && Complete(h.ll) && Complete(h.dl) && h.ll[END_BLOCK] > 0
    && OrderOk(h.bl, h.nb) && ItemsCoded(h.bl, h.items) && Transmits(h.items, h.ll + h.dl)
  }

  function OrderBits(bl: seq<nat>, n: nat): seq<bool>
    requires |bl| == BL_CODES && n <= BL_CODES
  {
    if n == 0 then [] else OrderBits(bl, n - 1) + BitsOf(bl[OrderAt(n - 1)], 3)
  }

  function CountBits(h: Header): seq<bool>
    requires |h.ll| >= 257 && |h.dl| >= 1 && h.nb >= 4
  {
    BitsOf(|h.ll| - 257, 5) + BitsOf(|h.dl| - 1, 5) + BitsOf(h.nb - 4, 4)
  }

  function HeaderBits(h: Header): seq<bool>
    requires |h.ll| >= 257 && |h.dl| >= 1 && 4 <= h.nb <= BL_CODES && |h.bl| == BL_CODES && Symbolic(h.items)
  {
    CountBits(h) + OrderBits(h.bl, h.nb) + ItemsBits(h.bl, h.items)
  }

  // ---- Whole blocks ----

  ghost predicate BlockOk(b: Block) {
    match b
    case Stored(data) => |data| <= 65535
    case Fixed(tokens) => AllCoded(FixedLitLens(), FixedDistLens(), tokens)
    case Dynamic(h, tokens) => HeaderOk(h) && AllCoded(h.ll, h.dl, tokens)
  }

  function BlockType(b: Block): nat {
    match b
    case Stored(_) => STORED_BLOCK
    case Fixed(_) => STATIC_TREES
    case Dynamic(_, _) => DYN_TREES
  }

  // The bits of a block that starts after pos bits of the stream.
  ghost function BlockBits(b: Block, last: bool, pos: nat): seq<bool>
    requires BlockOk(b)
  {
    BitsOf(BlockType(b) * 2 + (if last then 1 else 0), 3) + ContentBits(b, pos + 3)
  }

  ghost function ContentBits(b: Block, pos: nat): seq<bool>
    requires BlockOk(b)
  {
    match b
    case Stored(data) =>
      BitsOf(0, Padding(pos)) + BitsOf(|data|, 16) + BitsOf(65535 - |data|, 16) + BytesBits(data)
    case Fixed(tokens) => BodyBits(FixedLitLens(), FixedDistLens(), tokens)
    case Dynamic(h, tokens) => HeaderBits(h) + BodyBits(h.ll, h.dl, tokens)
  }

  // The bytes that a block adds to the data out decoded so far.
  predicate BlockExpands(out: seq<byte>, b: Block) {
    match b
    case Stored(data) => true
    case Fixed(tokens) => AllExpandable(out, tokens)
    case Dynamic(_, tokens) => AllExpandable(out, tokens)
  }

  function BlockData(out: seq<byte>, b: Block): seq<byte>
    requires BlockExpands(out, b)
  {
    match b
    case Stored(data) => out + data
    case Fixed(tokens) => Expand(out, tokens)
    case Dynamic(_, tokens) => Expand(out, tokens)
  }
}
