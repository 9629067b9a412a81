// The round trip: the machine that models inflate(), given the bits of a
// block, puts out the bytes that the block stands for.
module InflateBlocks {
  import opened Bits
  import opened CanonicalCode
  import opened BitWriter
  import opened Format
  import opened TreeHeader
  import opened BlockFormat
  import opened StaticTrees
  import opened InflateTable
  import opened InflateMachine
  import opened InflateStream

  // The state at the start of the next symbol of a block.
  ghost predicate AtSymbol(s: State) {
    s.mode == LEN && Good(s) && s.bits < 8 && Complete(s.ll) && Complete(s.dl)
  }

  // What stays the same while the symbols of a block are read.
  ghost predicate SameBlock(s: State, t: State) {
    t.mode == s.mode && t.last == s.last && t.ll == s.ll && t.dl == s.dl
  }

  // ---- Literals and matches ----

  lemma LiteralStep(s: State, y: nat)
    requires s.mode == LEN && Decode(s.ll, s.hold, s.bits) == Symbol(y) && y < LITERALS
    ensures Next(s) == Go(Drop(s, s.ll[y]).(mode := LIT, length := y))
  {
  }

  lemma EndStep(s: State)
    requires s.mode == LEN && Decode(s.ll, s.hold, s.bits) == Symbol(END_BLOCK)
    ensures Next(s) == Go(Drop(s, s.ll[END_BLOCK]).(mode := TYPE))
  {
  }

  lemma ReadLiteral(c: Config, y: byte, rest: seq<bool>) returns (d: Config)
    requires AtSymbol(c.s) && y < |c.s.ll| && c.s.ll[y] > 0 && c.room >= 1
    requires Stream(c) == CodeBits(c.s.ll, y) + rest
    ensures Call(d) == Call(c) && AtSymbol(d.s) && Stream(d) == rest && SameBlock(c.s, d.s)
    ensures d.room == c.room - 1 && d.s.out == c.s.out + [y]
  {
    hide Stream, Next, Call, Decode, Complete, CodeBits, Pow2, Low, Shr;
    var e := ReadCode(c, y, rest);
    LiteralStep(e.s, y);
    GoStep(e);
    var f := e.(s := Next(e.s).to);
    LitEmits(f.s);
    EmitStep(f);
    d := Config(Next(f.s).to, f.input, f.room - 1);
    StreamOf(e.(s := Drop(e.s, c.s.ll[y])), d);
  }

  lemma LitEmits(s: State)
    requires s.mode == LIT && s.length < 256
    ensures Next(s) == Emit(s.(mode := LEN, out := s.out + [s.length]))
  {
  }

  lemma StreamOf(c: Config, d: Config)
    requires c.s.hold == d.s.hold && c.s.bits == d.s.bits && c.input == d.input
    ensures Stream(c) == Stream(d)
  {
  }

  // A step that drops n bits.
  lemma TookStep(c: Config, n: nat) returns (d: Config)
    requires n <= c.s.bits && Good(Drop(c.s, n)) && Next(c.s).Go?
    requires Next(c.s).to.hold == Drop(c.s, n).hold && Next(c.s).to.bits == Drop(c.s, n).bits
    ensures d == c.(s := Next(c.s).to) && Call(d) == Call(c)
    ensures Good(d.s) && Stream(d) == Stream(c.(s := Drop(c.s, n)))
  {
    hide Next, Call;
    GoStep(c);
    d := c.(s := Next(c.s).to);
  }

  lemma LengthStep(s: State, y: nat)
    requires s.mode == LEN && Decode(s.ll, s.hold, s.bits) == Symbol(y) && END_BLOCK < y < L_CODES
    ensures LEXT[y - 257] >= 16
    ensures Next(s) == Go(Drop(s, s.ll[y]).(mode := LENEXT, length := LBASE[y - 257], extra := LEXT[y - 257] - 16))
  {
    hide Decode, Shr;
  }

  lemma DistStep(s: State, y: nat)
    requires s.mode == DIST && Decode(s.dl, s.hold, s.bits) == Symbol(y) && y < D_CODES
    ensures DEXT[y] >= 16
    ensures Next(s) == Go(Drop(s, s.dl[y]).(mode := DISTEXT, offset := DBASE[y], extra := DEXT[y] - 16))
  {
  }

  lemma LenExtStep(s: State)
    requires s.mode == LENEXT && s.extra <= s.bits
    ensures Next(s) == Go(Drop(s, s.extra).(mode := DIST, length := s.length + Low(s.hold, s.extra)))
  {
  }

  lemma DistExtStep(s: State)
    requires s.mode == DISTEXT && s.extra <= s.bits
    ensures Next(s) == Go(Drop(s, s.extra).(mode := MATCH, offset := s.offset + Low(s.hold, s.extra)))
  {
  }

  // The decoder's bases and extra bits are those of the format.
  lemma LengthTables(c: nat)
    requires c < LENGTH_CODES
    ensures |LBASE| == 31 && |LEXT| == 31 && LEXT[c] == EXTRA_LBITS[c] + 16
    ensures LBASE[c] == if c == 28 then 258 else BASE_LENGTH[c] + MIN_MATCH
  {
  }

  lemma DistTables(c: nat)
    requires c < D_CODES
    ensures |DBASE| == 32 && |DEXT| == 32 && DEXT[c] == EXTRA_DBITS[c] + 16 && DBASE[c] == BASE_DIST[c] + 1
  {
  }

  // A length as its symbol, a base, and extra bits v on top of it; code 28 has
  // no extra bits, and stands for the longest length.
  lemma LengthParts(ll: seq<nat>, lc: nat) returns (y: nat, n: nat, v: nat)
    requires lc <= 255 && LITERALS + 1 + LengthCode(lc) < |ll|
    ensures END_BLOCK < y < L_CODES && y == LITERALS + 1 + LengthCode(lc) && v < Pow2(n)
    ensures |LEXT| == 31 && |LBASE| == 31 && LEXT[y - 257] - 16 == n && LBASE[y - 257] + v == lc + MIN_MATCH
    ensures LengthBits(ll, lc) == CodeBits(ll, y) + BitsOf(v, n)
  {
    LengthCodeFits(lc);
    var k := LengthCode(lc);
    LengthTables(k);
    y, n, v := LITERALS + 1 + k, EXTRA_LBITS[k], if k == 28 then 0 else lc - BASE_LENGTH[k];
    hide LengthCode, Pow2, CodeBits, BitsOf;
    if k == 28 {
      NoExtra(lc, n);
    }
  }

  lemma NoExtra(v: nat, n: nat)
    requires n == 0
    ensures BitsOf(v, n) == BitsOf(0, n) && 0 < Pow2(n)
  {
  }

  lemma DistParts(dl: seq<nat>, d: nat) returns (y: nat, n: nat, v: nat)
    requires d < 32768 && DistCode(d) < |dl|
    ensures y < D_CODES && y == DistCode(d) && v < Pow2(n)
    ensures |DEXT| == 32 && |DBASE| == 32 && DEXT[y] - 16 == n && DBASE[y] + v == d + 1
    ensures DistBits(dl, d) == CodeBits(dl, y) + BitsOf(v, n)
  {
    DistCodeFits(d);
    y := DistCode(d);
    DistTables(y);
    hide DistCode, Pow2, CodeBits, BitsOf;
    n, v := EXTRA_DBITS[y], d - BASE_DIST[y];
  }

  lemma ReadLength(c: Config, lc: nat, rest: seq<bool>) returns (d: Config)
    requires AtSymbol(c.s) && lc <= 255 && LITERALS + 1 + LengthCode(lc) < |c.s.ll|
    requires c.s.ll[LITERALS + 1 + LengthCode(lc)] > 0 && Stream(c) == LengthBits(c.s.ll, lc) + rest
    ensures Call(d) == Call(c) && Good(d.s) && d.s.bits < 8 && Stream(d) == rest && d.room == c.room
    ensures d.s == c.s.(mode := DIST, length := lc + MIN_MATCH, extra := d.s.extra, hold := d.s.hold, bits := d.s.bits)
  {
    hide Stream, Next, Call, Decode, Complete, CodeBits, Pow2, BitsOf, LengthCode, LengthBits, Low, Shr, Good;
    var y, n, v := LengthParts(c.s.ll, lc);
    assert CodeBits(c.s.ll, y) + BitsOf(v, n) + rest == CodeBits(c.s.ll, y) + (BitsOf(v, n) + rest);
    var e := ReadCode(c, y, BitsOf(v, n) + rest);
    LengthStep(e.s, y);
    var f := TookStep(e, c.s.ll[y]);
    d := ReadExtra(f, v, n, rest);
  }

  // The extra bits of a length.
  lemma ReadExtra(c: Config, v: nat, n: nat, rest: seq<bool>) returns (d: Config)
    requires c.s.mode == LENEXT && Good(c.s) && c.s.bits < 8 && c.s.extra == n && v < Pow2(n)
    requires Stream(c) == BitsOf(v, n) + rest
    ensures Call(d) == Call(c) && Good(d.s) && d.s.bits < 8 && Stream(d) == rest && d.room == c.room
    ensures d.s == c.s.(mode := DIST, length := c.s.length + v, hold := d.s.hold, bits := d.s.bits)
  {
    hide Stream, Next, Call, Pow2, BitsOf, Low, Shr, Good;
    BitsOfLength(v, n);
    var e := NeedBits(c);
    TakeBits(e, v, n, rest);
    LenExtStep(e.s);
    d := TookStep(e, n);
  }

  lemma ReadDist(c: Config, dist: nat, rest: seq<bool>) returns (d: Config)
    requires c.s.mode == DIST && Good(c.s) && c.s.bits < 8 && Complete(c.s.dl) && dist < 32768
    requires DistCode(dist) < |c.s.dl| && c.s.dl[DistCode(dist)] > 0 && Stream(c) == DistBits(c.s.dl, dist) + rest
    ensures Call(d) == Call(c) && Good(d.s) && d.s.bits < 8 && Stream(d) == rest && d.room == c.room
    ensures d.s == c.s.(mode := MATCH, offset := dist + 1, extra := d.s.extra, hold := d.s.hold, bits := d.s.bits)
  {
    hide Stream, Next, Call, Decode, Complete, CodeBits, Pow2, BitsOf, DistCode, DistBits, Low, Shr, Good;
    var y, n, v := DistParts(c.s.dl, dist);
    assert CodeBits(c.s.dl, y) + BitsOf(v, n) + rest == CodeBits(c.s.dl, y) + (BitsOf(v, n) + rest);
    var e := ReadCode(c, y, BitsOf(v, n) + rest);
    DistStep(e.s, y);
    var f := TookStep(e, c.s.dl[y]);
    d := ReadDistExtra(f, v, n, rest);
  }

  // The extra bits of a distance.
  lemma ReadDistExtra(c: Config, v: nat, n: nat, rest: seq<bool>) returns (d: Config)
    requires c.s.mode == DISTEXT && Good(c.s) && c.s.bits < 8 && c.s.extra == n && v < Pow2(n)
    requires Stream(c) == BitsOf(v, n) + rest
    ensures Call(d) == Call(c) && Good(d.s) && d.s.bits < 8 && Stream(d) == rest && d.room == c.room
    ensures d.s == c.s.(mode := MATCH, offset := c.s.offset + v, hold := d.s.hold, bits := d.s.bits)
  {
    hide Stream, Next, Call, Pow2, BitsOf, Low, Shr, Good;
    BitsOfLength(v, n);
    var e := NeedBits(c);
    TakeBits(e, v, n, rest);
    DistExtStep(e.s);
    d := TookStep(e, n);
  }

  lemma MatchStep(s: State)
    requires s.mode == MATCH && 1 <= s.offset <= |s.out| && s.length >= 1
    ensures Next(s) == Emit(s.(mode := if s.length == 1 then LEN else MATCH, length := s.length - 1,
                              out := s.out + [s.out[|s.out| - s.offset]]))
  {
  }

  // Copying a match, one byte at a time.
  lemma {:induction false} CopyMatch(c: Config) returns (d: Config)
    requires c.s.mode == MATCH && 1 <= c.s.offset <= |c.s.out| && 1 <= c.s.length <= c.room
    ensures Call(d) == Call(c) && d.room == c.room - c.s.length && d.input == c.input
    ensures d.s == c.s.(mode := LEN, length := 0, out := CopyBack(c.s.out, c.s.length, c.s.offset))
    decreases c.s.length
  {
    hide Next, Call;
    MatchStep(c.s);
    EmitStep(c);
    var e := Config(Next(c.s).to, c.input, c.room - 1);
    if c.s.length == 1 {
      d := e;
    } else {
      d := CopyMatch(e);
    }
  }

  lemma ReadMatch(c: Config, t: Token, rest: seq<bool>) returns (d: Config)
    requires AtSymbol(c.s) && t.Match? && Coded(c.s.ll, c.s.dl, t) && Expandable(c.s.out, t) && t.len <= c.room
    requires Stream(c) == TokenBits(c.s.ll, c.s.dl, t) + rest
    ensures Call(d) == Call(c) && AtSymbol(d.s) && Stream(d) == rest && SameBlock(c.s, d.s)
    ensures d.room == c.room - t.len && d.s.out == ExpandOne(c.s.out, t)
  {
    hide Stream, Next, Call, Complete, CopyBack, LengthBits, DistBits, TokenBits;
    var lc, k := t.len - MIN_MATCH, t.dist - 1;
    MatchBits(c.s.ll, c.s.dl, t);
    var a, b := LengthBits(c.s.ll, lc), DistBits(c.s.dl, k);
    assert a + b + rest == a + (b + rest);
    var e := ReadLength(c, lc, b + rest);
    var f := ReadDist(e, k, rest);
    d := CopyMatch(f);
    StreamOf(f, d);
  }

  lemma ReadToken(c: Config, t: Token, rest: seq<bool>) returns (d: Config)
    requires AtSymbol(c.s) && Coded(c.s.ll, c.s.dl, t) && Expandable(c.s.out, t)
    requires |ExpandOne(c.s.out, t)| - |c.s.out| <= c.room
    requires Stream(c) == TokenBits(c.s.ll, c.s.dl, t) + rest
    ensures Call(d) == Call(c) && AtSymbol(d.s) && Stream(d) == rest && SameBlock(c.s, d.s)
    ensures d.s.out == ExpandOne(c.s.out, t) && d.room + |d.s.out| == c.room + |c.s.out|
  {
    hide Stream, Next, Call, Complete;
    if t.Literal? {
      d := ReadLiteral(c, t.c, rest);
    } else {
      d := ReadMatch(c, t, rest);
    }
  }

  // ---- The body of a block ----

  lemma {:induction false} TokensFront(ll: seq<nat>, dl: seq<nat>, ts: seq<Token>)
    requires AllCoded(ll, dl, ts) && ts != []
    ensures TokensBits(ll, dl, ts) == TokenBits(ll, dl, ts[0]) + TokensBits(ll, dl, ts[1..])
    decreases |ts|
  {
    hide TokenBits, Coded;
    if |ts| == 1 {
      assert ts[..0] == [] && ts[1..] == [];
    } else {
      var n := |ts| - 1;
      TokensFront(ll, dl, ts[..n]);
      assert ts[..n][1..] == ts[1..][..n - 1] && ts[1..][n - 1] == ts[n];
      var a, b, e := TokenBits(ll, dl, ts[0]), TokensBits(ll, dl, ts[1..][..n - 1]), TokenBits(ll, dl, ts[n]);
      assert a + b + e == a + (b + e);
    }
  }

  lemma {:induction false} ExpandGrows(out: seq<byte>, ts: seq<Token>)
    requires AllExpandable(out, ts)
    ensures |Expand(out, ts)| >= |out|
    decreases |ts|
  {
    if ts != [] { ExpandGrows(ExpandOne(out, ts[0]), ts[1..]); }
  }

  lemma {:induction false} ReadTokens(c: Config, ts: seq<Token>, rest: seq<bool>) returns (d: Config)
    requires AtSymbol(c.s) && AllCoded(c.s.ll, c.s.dl, ts) && AllExpandable(c.s.out, ts)
    requires |Expand(c.s.out, ts)| - |c.s.out| <= c.room
    requires Stream(c) == TokensBits(c.s.ll, c.s.dl, ts) + rest
    ensures Call(d) == Call(c) && AtSymbol(d.s) && Stream(d) == rest && SameBlock(c.s, d.s)
    ensures d.s.out == Expand(c.s.out, ts) && d.room + |d.s.out| == c.room + |c.s.out|
    decreases |ts|
  {
    hide Stream, Call, Complete, TokenBits, Coded, ExpandOne, Expandable;
    if ts == [] {
      assert [] + rest == rest;
      d := c;
    } else {
      var t, more := ts[0], ts[1..];
      TokensFront(c.s.ll, c.s.dl, ts);
      ExpandGrows(ExpandOne(c.s.out, t), more);
      var a, b := TokenBits(c.s.ll, c.s.dl, t), TokensBits(c.s.ll, c.s.dl, more);
      hide TokensBits;
      assert a + b + rest == a + (b + rest);
      var e := ReadToken(c, t, b + rest);
      d := ReadTokens(e, more, rest);
    }
  }

  // The symbols of a block and the end-of-block code.
  lemma ReadBody(c: Config, ts: seq<Token>, rest: seq<bool>) returns (d: Config)
    requires AtSymbol(c.s) && AllCoded(c.s.ll, c.s.dl, ts) && AllExpandable(c.s.out, ts)
    requires END_BLOCK < |c.s.ll| && c.s.ll[END_BLOCK] > 0
    requires |Expand(c.s.out, ts)| - |c.s.out| <= c.room
    requires Stream(c) == BodyBits(c.s.ll, c.s.dl, ts) + rest
    ensures Call(d) == Call(c) && d.s.mode == TYPE && Good(d.s) && d.s.bits < 8 && d.s.last == c.s.last && Stream(d) == rest
    ensures d.s.out == Expand(c.s.out, ts) && d.room + |d.s.out| == c.room + |c.s.out|
  {
    hide Stream, Call, Next, Decode, Complete, TokensBits, Coded, Expand, AllExpandable, CodeBits, Low, Shr;
    var a, b := TokensBits(c.s.ll, c.s.dl, ts), CodeBits(c.s.ll, END_BLOCK);
    assert a + b + rest == a + (b + rest);
    var e := ReadTokens(c, ts, b + rest);
    var f := ReadCode(e, END_BLOCK, rest);
    EndStep(f.s);
    d := TookStep(f, c.s.ll[END_BLOCK]);
  }

  // ---- The header of a dynamic block ----

  lemma TableStep(s: State, h: Header)
    requires s.mode == TABLE && s.bits >= 14
    requires 257 <= |h.ll| <= L_CODES && 1 <= |h.dl| <= D_CODES && 4 <= h.nb <= BL_CODES
    requires Low(s.hold, 5) == |h.ll| - 257 && Low(Shr(s.hold, 5), 5) == |h.dl| - 1 && Low(Shr(s.hold, 10), 4) == h.nb - 4
    ensures Next(s) == Go(Drop(s, 14).(nlen := |h.ll|, ndist := |h.dl|, ncode := h.nb, mode := LENLENS, have := 0,
                                       bl := seq(BL_CODES, i => 0)))
  {
  }

  // Three numbers at the front of the stream, taken at once.
  lemma TakeThree(c: Config, x: nat, y: nat, z: nat, rest: seq<bool>)
    requires Good(c.s) && c.s.bits >= 14 && x < Pow2(5) && y < Pow2(5) && z < Pow2(4)
    requires Stream(c) == BitsOf(x, 5) + BitsOf(y, 5) + BitsOf(z, 4) + rest
    ensures Low(c.s.hold, 5) == x && Low(Shr(c.s.hold, 5), 5) == y && Low(Shr(c.s.hold, 10), 4) == z
    ensures Good(Drop(c.s, 14)) && Stream(c.(s := Drop(c.s, 14))) == rest
  {
    hide Good, Stream, BitsOf, Low, Shr, Pow2;
    var a, b, e := BitsOf(x, 5), BitsOf(y, 5), BitsOf(z, 4);
    assert a + b + e + rest == a + (b + e + rest) && b + e + rest == b + (e + rest);
    TakeBits(c, x, 5, b + e + rest);
    var d := c.(s := Drop(c.s, 5));
    TakeBits(d, y, 5, e + rest);
    var f := d.(s := Drop(d.s, 5));
    TakeBits(f, z, 4, rest);
    ShrShr(c.s.hold, 5, 5);
    ShrShr(c.s.hold, 10, 4);
  }

  // The state before code length i of the items' code is read.
  ghost predicate Ordering(s: State, h: Header, i: nat) {
    && s.mode == LENLENS && Good(s) && s.bits < 8 && i <= h.nb <= BL_CODES && s.have == i && s.ncode == h.nb
    && |s.bl| == |h.bl| == BL_CODES && s.nlen == |h.ll| && s.ndist == |h.dl|
    && forall k :: 0 <= k < BL_CODES ==> s.bl[OrderAt(k)] == if k < i then h.bl[OrderAt(k)] else 0
  }

  lemma ReadCounts(c: Config, h: Header, rest: seq<bool>) returns (d: Config)
    requires c.s.mode == TABLE && Good(c.s) && c.s.bits < 8 && |h.bl| == BL_CODES
    requires 257 <= |h.ll| <= L_CODES && 1 <= |h.dl| <= D_CODES && 4 <= h.nb <= BL_CODES
    requires Stream(c) == CountBits(h) + rest
    ensures Call(d) == Call(c) && Stream(d) == rest && d.room == c.room && Ordering(d.s, h, 0)
    ensures d.s.last == c.s.last && d.s.out == c.s.out
  {
    Pow2Values();
    hide Stream, Next, Call, Pow2, BitsOf, Low, Shr, Good, OrderAt;
    CountSize(h);
    var e := NeedBits(c);
    TakeThree(e, |h.ll| - 257, |h.dl| - 1, h.nb - 4, rest);
    TableStep(e.s, h);
    d := TookStep(e, 14);
  }

  lemma CountSize(h: Header)
    requires |h.ll| >= 257 && |h.dl| >= 1 && h.nb >= 4
    ensures |CountBits(h)| == 14
  {
    BitsOfLength(|h.ll| - 257, 5);
    BitsOfLength(|h.dl| - 1, 5);
    BitsOfLength(h.nb - 4, 4);
  }

  lemma LenLensStep(s: State)
    requires s.mode == LENLENS && s.have < s.ncode && s.have < BL_CODES && |s.bl| == BL_CODES && s.bits >= 3
    ensures Next(s) == Go(Drop(s, 3).(have := s.have + 1, bl := s.bl[OrderAt(s.have) := Low(s.hold, 3)]))
  {
  }

  lemma OrderDistinct(i: nat, j: nat)
    requires i < BL_CODES && j < BL_CODES && OrderAt(i) == OrderAt(j)
    ensures i == j
  {
    var a := OrderAt(i);
  }

  // The code lengths of the items from i on.
  function OrderFrom(bl: seq<nat>, i: nat, n: nat): seq<bool>
    requires |bl| == BL_CODES && i <= n <= BL_CODES
  {
    if i == n then [] else OrderFrom(bl, i, n - 1) + BitsOf(bl[OrderAt(n - 1)], 3)
  }

  lemma {:induction false} OrderFromFront(bl: seq<nat>, i: nat, n: nat)
    requires |bl| == BL_CODES && i < n <= BL_CODES
    ensures OrderFrom(bl, i, n) == BitsOf(bl[OrderAt(i)], 3) + OrderFrom(bl, i + 1, n)
    ensures OrderFrom(bl, 0, n) == OrderBits(bl, n)
  {
    hide BitsOf, OrderAt;
    OrderIsFrom(bl, n);
    if i < n - 1 {
      OrderFromFront(bl, i, n - 1);
      var b, e, f := BitsOf(bl[OrderAt(i)], 3), OrderFrom(bl, i + 1, n - 1), BitsOf(bl[OrderAt(n - 1)], 3);
      assert (b + e) + f == b + (e + f);
    } else {
      assert OrderFrom(bl, i, i) == [] && OrderFrom(bl, n, n) == [];
      assert [] + BitsOf(bl[OrderAt(i)], 3) == BitsOf(bl[OrderAt(i)], 3) + [];
    }
  }

  lemma {:induction false} OrderIsFrom(bl: seq<nat>, n: nat)
    requires |bl| == BL_CODES && n <= BL_CODES
    ensures OrderFrom(bl, 0, n) == OrderBits(bl, n)
  {
    hide BitsOf, OrderAt;
    if n > 0 { OrderIsFrom(bl, n - 1); }
  }

  lemma ReadOneOrder(c: Config, h: Header, i: nat, rest: seq<bool>) returns (d: Config)
    requires i < h.nb && Ordering(c.s, h, i) && h.bl[OrderAt(i)] <= 7
    requires Stream(c) == BitsOf(h.bl[OrderAt(i)], 3) + rest
    ensures Call(d) == Call(c) && Stream(d) == rest && d.room == c.room && Ordering(d.s, h, i + 1)
    ensures d.s.last == c.s.last && d.s.out == c.s.out
  {
    assert Pow2(3) == 8 by { Pow2Values(); }
    hide Stream, Next, Call, Pow2, BitsOf, Low, Shr, Good, OrderAt;
    var v := h.bl[OrderAt(i)];
    BitsOfLength(v, 3);
    var e := NeedBits(c);
    TakeBits(e, v, 3, rest);
    LenLensStep(e.s);
    d := TookStep(e, 3);
    forall k | 0 <= k < BL_CODES ensures d.s.bl[OrderAt(k)] == if k < i + 1 then h.bl[OrderAt(k)] else 0 {
      if k != i && OrderAt(k) == OrderAt(i) { OrderDistinct(k, i); }
    }
  }

  lemma {:induction false} ReadOrder(c: Config, h: Header, i: nat, rest: seq<bool>) returns (d: Config)
    requires i <= h.nb && Ordering(c.s, h, i) && OrderOk(h.bl, h.nb) && Stream(c) == OrderFrom(h.bl, i, h.nb) + rest
    ensures Call(d) == Call(c) && Stream(d) == rest && d.room == c.room && Ordering(d.s, h, h.nb)
    ensures d.s.last == c.s.last && d.s.out == c.s.out
    decreases h.nb - i
  {
    hide Stream, Next, Call, Pow2, BitsOf, Low, Shr, Good, OrderAt, Complete, Ordering;
    if i == h.nb {
      assert [] + rest == rest;
      d := c;
    } else {
      var v := h.bl[OrderAt(i)];
      OrderFromFront(h.bl, i, h.nb);
      var more := OrderFrom(h.bl, i + 1, h.nb) + rest;
      assert BitsOf(v, 3) + OrderFrom(h.bl, i + 1, h.nb) + rest == BitsOf(v, 3) + more;
      var f := ReadOneOrder(c, h, i, more);
      d := ReadOrder(f, h, i + 1, rest);
    }
  }

  // ---- The items, and the code lengths that they stand for ----

  // The state before an item: the code lengths so far are lens.
  ghost predicate AtItem(s: State, h: Header) {
    && s.mode == CODELENS && Good(s) && s.bits < 8 && s.bl == h.bl && |h.bl| == BL_CODES && Complete(h.bl)
    && s.nlen == |h.ll| && s.ndist == |h.dl|
  }

  lemma ItemStep(s: State, it: Item)
    requires s.mode == CODELENS && |s.lens| < s.nlen + s.ndist && |s.bl| == BL_CODES
    requires Decode(s.bl, s.hold, s.bits) == Symbol(it.sym) && ItemOk(s.lens, it)
    requires s.bl[it.sym] + EXTRA_BLBITS[it.sym] <= s.bits
    requires Low(Shr(s.hold, s.bl[it.sym]), EXTRA_BLBITS[it.sym]) == it.extra
    requires |ExpandItem(s.lens, it)| <= s.nlen + s.ndist
    ensures Next(s) == Go(Drop(s, s.bl[it.sym] + EXTRA_BLBITS[it.sym]).(lens := ExpandItem(s.lens, it)))
  {
    hide Decode, Low, Shr, Pow2;
  }

  lemma ItemNeeds(s: State, y: nat)
    requires y < BL_CODES && s.mode == CODELENS
    ensures ExtraNeeded(s, y) == EXTRA_BLBITS[y]
  {
  }

  lemma DropTwice(s: State, a: nat, b: nat)
    requires a + b <= s.bits
    ensures Drop(Drop(s, a), b) == Drop(s, a + b)
  {
    ShrShr(s.hold, a, b);
  }

  lemma ReadItem(c: Config, h: Header, it: Item, rest: seq<bool>) returns (d: Config)
    requires AtItem(c.s, h) && |c.s.lens| < c.s.nlen + c.s.ndist && ItemOk(c.s.lens, it) && h.bl[it.sym] > 0
    requires |ExpandItem(c.s.lens, it)| <= c.s.nlen + c.s.ndist
    requires Stream(c) == ItemBits(h.bl, it) + rest
    ensures Call(d) == Call(c) && Stream(d) == rest && d.room == c.room && AtItem(d.s, h)
    ensures d.s.lens == ExpandItem(c.s.lens, it) && d.s.last == c.s.last && d.s.out == c.s.out
  {
    hide Stream, Next, Call, Decode, Complete, CodeBits, Pow2, BitsOf, Low, Shr, Good, ExpandItem;
    var y, n := it.sym, EXTRA_BLBITS[it.sym];
    ItemNeeds(c.s, y);
    var more := BitsOf(it.extra, n) + rest;
    assert CodeBits(h.bl, y) + BitsOf(it.extra, n) + rest == CodeBits(h.bl, y) + more;
    BitsOfLength(it.extra, n);
    var e := ReadCode(c, y, more);
    var f := e.(s := Drop(e.s, h.bl[y]));
    TakeBits(f, it.extra, n, rest);
    DropTwice(e.s, h.bl[y], n);
    ItemStep(e.s, it);
    d := TookStep(e, h.bl[y] + n);
  }

  lemma {:induction false} ItemsGrow(lens: seq<nat>, items: seq<Item>)
    requires ItemsOk(lens, items)
    ensures |ExpandItems(lens, items)| >= |lens| + |items|
    decreases |items|
  {
    if items != [] {
      hide Pow2;
      ItemsGrow(ExpandItem(lens, items[0]), items[1..]);
    }
  }

  lemma ItemsFront(bl: seq<nat>, items: seq<Item>)
    requires |bl| == BL_CODES && Symbolic(items) && items != []
    ensures ItemsBits(bl, items) == ItemBits(bl, items[0]) + ItemsBits(bl, items[1..])
  {
    hide ItemBits;
    var one := [items[0]];
    assert items == one + items[1..];
    ItemsBitsConcat(bl, one, items[1..]);
    assert one[..0] == [];
    assert ItemsBits(bl, one) == [] + ItemBits(bl, items[0]);
  }

  lemma {:induction false} ReadItems(c: Config, h: Header, items: seq<Item>, rest: seq<bool>) returns (d: Config)
    requires AtItem(c.s, h) && ItemsCoded(h.bl, items) && ItemsOk(c.s.lens, items)
    requires |ExpandItems(c.s.lens, items)| == c.s.nlen + c.s.ndist
    requires Stream(c) == ItemsBits(h.bl, items) + rest
    ensures Call(d) == Call(c) && Stream(d) == rest && d.room == c.room && AtItem(d.s, h)
    ensures d.s.lens == ExpandItems(c.s.lens, items) && d.s.last == c.s.last && d.s.out == c.s.out
    decreases |items|
  {
    hide Stream, Call, Complete, ItemBits, ItemOk, ExpandItem, Pow2, Good;
    if items == [] {
      assert [] + rest == rest;
      d := c;
    } else {
      ItemsFront(h.bl, items);
      ItemsGrow(c.s.lens, items);
      ItemsGrow(ExpandItem(c.s.lens, items[0]), items[1..]);
      hide ItemsBits;
      var a, b := ItemBits(h.bl, items[0]), ItemsBits(h.bl, items[1..]);
      assert a + b + rest == a + (b + rest);
      var e := ReadItem(c, h, items[0], b + rest);
      d := ReadItems(e, h, items[1..], rest);
    }
  }

  // A complete code is never refused.
  lemma CompleteAccepted(kind: CodeType, lens: seq<nat>)
    requires Complete(lens)
    ensures LengthsInRange(lens) && !Refused(kind, lens)
  {
  }

  lemma OrderReaches(s: nat) returns (i: nat)
    requires s < BL_CODES
    ensures i < BL_CODES && OrderAt(i) == s
  {
    i := if s >= 16 then s - 16 else if s == 0 then 3 else if s == 8 then 4 else if s < 8 then 19 - 2 * s else 2 * s - 12;
  }

  lemma OrderDone(s: State, h: Header)
    requires Ordering(s, h, h.nb) && OrderOk(h.bl, h.nb)
    ensures s.bl == h.bl
  {
    hide OrderAt, Complete, Good;
    forall k | 0 <= k < BL_CODES ensures s.bl[k] == h.bl[k] {
      var i := OrderReaches(k);
      assert s.bl[OrderAt(i)] == if i < h.nb then h.bl[OrderAt(i)] else 0;
    }
  }

  lemma LenLensDone(s: State, h: Header)
    requires Ordering(s, h, h.nb) && OrderOk(h.bl, h.nb)
    ensures Next(s) == Go(s.(mode := CODELENS, lens := []))
  {
    OrderDone(s, h);
    CompleteAccepted(CODES, h.bl);
  }

  lemma CodeLensDone(s: State, h: Header)
    requires AtItem(s, h) && s.lens == h.ll + h.dl && Complete(h.ll) && Complete(h.dl)
    requires |h.ll| > END_BLOCK && h.ll[END_BLOCK] > 0
    ensures Next(s) == Go(s.(mode := LEN, ll := h.ll, dl := h.dl))
  {
    hide Complete, Refused;
    CompleteAccepted(LENS, h.ll);
    CompleteAccepted(DISTS, h.dl);
    assert s.lens[..|h.ll|] == h.ll && s.lens[|h.ll|..] == h.dl;
  }

  lemma TransmitsIs(items: seq<Item>, lens: seq<nat>)
    requires Transmits(items, lens)
    ensures ItemsOk([], items) && ExpandItems([], items) == lens
  {
  }

  // The whole header: it sets the codes for the body.
  lemma ReadHeader(c: Config, h: Header, rest: seq<bool>) returns (d: Config)
    requires c.s.mode == TABLE && Good(c.s) && c.s.bits < 8 && HeaderOk(h) && Stream(c) == HeaderBits(h) + rest
    ensures Call(d) == Call(c) && AtSymbol(d.s) && Stream(d) == rest && d.room == c.room
    ensures d.s.ll == h.ll && d.s.dl == h.dl && d.s.last == c.s.last && d.s.out == c.s.out
  {
    var rest2 := ItemsBits(h.bl, h.items) + rest;
    JoinHeader(CountBits(h), OrderBits(h.bl, h.nb), ItemsBits(h.bl, h.items), rest);
    var e := ReadOrderPart(c, h, rest2);
    d := ReadItemsPart(e, h, rest);
  }

  lemma JoinHeader(a: seq<bool>, b: seq<bool>, t: seq<bool>, rest: seq<bool>)
    ensures a + b + t + rest == a + (b + (t + rest))
  {
  }

  lemma ReadOrderPart(c: Config, h: Header, rest: seq<bool>) returns (d: Config)
    requires c.s.mode == TABLE && Good(c.s) && c.s.bits < 8 && HeaderOk(h)
    requires Stream(c) == CountBits(h) + (OrderBits(h.bl, h.nb) + rest)
    ensures Call(d) == Call(c) && Stream(d) == rest && d.room == c.room && AtItem(d.s, h)
    ensures d.s.lens == [] && d.s.last == c.s.last && d.s.out == c.s.out
  {
    hide Stream, Call, Next, OrderBits, CountBits, Complete, Transmits, ItemsCoded, Good;
    OrderIsFrom(h.bl, h.nb);
    var e := ReadCounts(c, h, OrderBits(h.bl, h.nb) + rest);
    var f := ReadOrder(e, h, 0, rest);
    LenLensDone(f.s, h);
    OrderDone(f.s, h);
    GoStep(f);
    d := f.(s := Next(f.s).to);
    StreamOf(f, d);
    GoodHold(f.s, d.s);
  }

  lemma GoodHold(s: State, t: State)
    requires Good(s) && t.hold == s.hold && t.bits == s.bits
    ensures Good(t)
  {
  }

  lemma ReadItemsPart(c: Config, h: Header, rest: seq<bool>) returns (d: Config)
    requires HeaderOk(h) && AtItem(c.s, h) && c.s.lens == [] && Stream(c) == ItemsBits(h.bl, h.items) + rest
    ensures Call(d) == Call(c) && AtSymbol(d.s) && Stream(d) == rest && d.room == c.room
    ensures d.s.ll == h.ll && d.s.dl == h.dl && d.s.last == c.s.last && d.s.out == c.s.out
  {
    hide Stream, Call, Next, ItemsBits, ItemsOk, ExpandItems, Complete, Transmits, Good;
    TransmitsIs(h.items, h.ll + h.dl);
    var k := ReadItems(c, h, h.items, rest);
    CodeLensDone(k.s, h);
    GoStep(k);
    d := k.(s := Next(k.s).to);
    StreamOf(k, d);
    GoodHold(k.s, d.s);
  }

  // ---- Stored blocks ----

  // Dropping the bits up to a byte boundary of the stream.
  lemma AlignStep(c: Config, pad: nat, rest: seq<bool>) returns (d: Config)
    requires c.s.mode == STORED && Good(c.s) && c.s.bits < 8 && pad < 8 && |rest| % 8 == 0
    requires Stream(c) == BitsOf(0, pad) + rest
    ensures Call(d) == Call(c) && Good(d.s) && Stream(d) == rest && d.room == c.room
    ensures SameBut(c.s, d.s) && d.s.bits == 0
  {
    StreamSize(c);
    BitsOfLength(0, pad);
    BitsMod(c.s.bits, |c.input|, pad, |rest|);
    hide Stream, Good, Next, Call, BitsOf, Low, Shr, Pow2;
    if pad == 0 {
      NoExtra(0, pad);
      assert BitsOf(0, 0) == [] by { BitsOfLength(0, 0); }
      assert [] + rest == rest;
      d := c;
    } else {
      PowPositive(pad);
      TakeBits(c, 0, pad, rest);
      StoredAligns(c.s, pad);
      d := TookStep(c, pad);
    }
  }

  lemma PowPositive(n: nat)
    ensures 0 < Pow2(n)
  {
  }

  lemma BitsMod(bits: nat, n: nat, pad: nat, k: nat)
    requires bits + 8 * n == pad + k && pad < 8 && k % 8 == 0
    ensures bits % 8 == pad && pad <= bits && (bits < 8 ==> bits == pad)
  {
  }

  lemma StoredAligns(s: State, pad: nat)
    requires s.mode == STORED && s.bits % 8 == pad > 0
    ensures Next(s) == Go(Drop(s, pad)) && SameBut(s, Drop(s, pad)) && (s.bits - pad) % 8 == 0
  {
  }

  lemma StoredStep(s: State, len: nat)
    requires s.mode == STORED && s.bits % 8 == 0 && s.bits >= 32 && len <= 65535
    requires Low(s.hold, 16) == len && Low(Shr(s.hold, 16), 16) == 65535 - len
    ensures Next(s) == Go(s.(mode := COPY, length := len, bits := 0, hold := 0))
  {
  }

  // Both lengths of a stored block. The accumulator holds nothing else, so
  // nothing is lost when it is cleared.
  lemma ReadLengths(c: Config, len: nat, rest: seq<bool>) returns (d: Config)
    requires c.s.mode == STORED && Good(c.s) && c.s.bits == 0 && len <= 65535
    requires Stream(c) == BitsOf(len, 16) + BitsOf(65535 - len, 16) + rest
    ensures Call(d) == Call(c) && Stream(d) == rest && d.room == c.room
    ensures d.s == c.s.(mode := COPY, length := len, bits := 0, hold := 0)
  {
    assert Pow2(16) == 65536 by { Pow2Values(); }
    BitsOfLength(len, 16);
    BitsOfLength(65535 - len, 16);
    hide Stream, Good, Next, Call, BitsOf, Low, Shr, Pow2;
    var e := NeedExactly(c);
    TakeTwo(e, len, 65535 - len, rest);
    StoredStep(e.s, len);
    GoStep(e);
    d := e.(s := Next(e.s).to);
    EmptyHold(e.(s := Drop(e.s, 32)), d);
  }

  lemma TakeTwo(c: Config, x: nat, y: nat, rest: seq<bool>)
    requires Good(c.s) && c.s.bits == 32 && x < Pow2(16) && y < Pow2(16)
    requires Stream(c) == BitsOf(x, 16) + BitsOf(y, 16) + rest
    ensures Low(c.s.hold, 16) == x && Low(Shr(c.s.hold, 16), 16) == y
    ensures Stream(c.(s := Drop(c.s, 32))) == rest
  {
    hide Good, Stream, BitsOf, Low, Shr, Pow2;
    var a, b := BitsOf(x, 16), BitsOf(y, 16);
    assert a + b + rest == a + (b + rest);
    TakeBits(c, x, 16, b + rest);
    var d := c.(s := Drop(c.s, 16));
    TakeBits(d, y, 16, rest);
    DropTwice(c.s, 16, 16);
  }

  lemma EmptyHold(c: Config, d: Config)
    requires c.s.bits == 0 && d.s.bits == 0 && c.input == d.input
    ensures Stream(c) == Stream(d)
  {
  }

  // NEEDBITS(32) on a byte boundary.
  lemma {:induction false} NeedExactly(c: Config) returns (d: Config)
    requires c.s.mode == STORED && Good(c.s) && c.s.bits % 8 == 0 && c.s.bits <= 32 <= |Stream(c)|
    ensures Call(d) == Call(c) && Good(d.s) && Stream(d) == Stream(c) && d.room == c.room
    ensures SameBut(c.s, d.s) && d.s.bits == 32
    decreases |c.input|
  {
    hide Stream, Good, Next, Call;
    if c.s.bits < 32 {
      NeedsPulls(c.s);
      var e := PullOne(c, 32);
      d := NeedExactly(e);
    } else {
      d := c;
    }
  }

  lemma CopyIs(c: Config)
    requires c.s.mode == COPY && c.s.length > 0 && c.input != [] && c.room > 0
    ensures Next(c.s) == Copy && !Stuck(c)
    ensures Step(c) == Config(c.s.(length := c.s.length - 1, out := c.s.out + [c.input[0]]), c.input[1..], c.room - 1)
  {
  }

  lemma {:induction false} CopyStored(c: Config, data: seq<byte>, rest: seq<bool>) returns (d: Config)
    requires c.s.mode == COPY && c.s.bits == 0 && c.s.length == |data| <= c.room
    requires Stream(c) == BytesBits(data) + rest
    ensures Call(d) == Call(c) && Stream(d) == rest && d.room == c.room - |data|
    ensures d.s == c.s.(mode := TYPE, length := 0, out := c.s.out + data)
    decreases |data|
  {
    hide Stream, BytesBits, Call, Next;
    if data == [] {
      d := CopyEnds(c, data, rest);
    } else {
      var e := CopyOne(c, data, rest);
      d := CopyStored(e, data[1..], rest);
      assert c.s.out + [data[0]] + data[1..] == c.s.out + data;
    }
  }

  lemma CopyEnds(c: Config, data: seq<byte>, rest: seq<bool>) returns (d: Config)
    requires c.s.mode == COPY && c.s.length == |data| == 0 && Stream(c) == BytesBits(data) + rest
    ensures Call(d) == Call(c) && Stream(d) == rest && d.room == c.room
    ensures d.s == c.s.(mode := TYPE, length := 0, out := c.s.out + data)
  {
    assert Next(c.s) == Go(c.s.(mode := TYPE)) && c.s.out + data == c.s.out;
    assert [] + rest == rest;
    hide Stream, Next, Call;
    GoStep(c);
    d := c.(s := Next(c.s).to);
    StreamOf(c, d);
  }

  lemma CopyOne(c: Config, data: seq<byte>, rest: seq<bool>) returns (d: Config)
    requires c.s.mode == COPY && c.s.bits == 0 && data != [] && c.s.length == |data| <= c.room
    requires Stream(c) == BytesBits(data) + rest
    ensures Call(d) == Call(c) && Stream(d) == BytesBits(data[1..]) + rest && d.room == c.room - 1
    ensures d.s == c.s.(length := c.s.length - 1, out := c.s.out + [data[0]])
  {
    NoHold(c);
    hide BytesBits, Next, Call;
    SameFirstByte(c.input, data, rest);
    CopyIs(c);
    StepCall(c);
    d := Step(c);
    NoHold(d);
  }

  lemma StepCall(c: Config)
    requires !Stuck(c)
    ensures Call(Step(c)) == Call(c)
  {
  }

  lemma NoHold(c: Config)
    requires c.s.bits == 0
    ensures Stream(c) == BytesBits(c.input)
  {
  }

  lemma SameFirstByte(s: seq<byte>, t: seq<byte>, rest: seq<bool>)
    requires t != [] && BytesBits(s) == BytesBits(t) + rest
    ensures s != [] && s[0] == t[0] && BytesBits(s[1..]) == BytesBits(t[1..]) + rest
  {
    BytesSize(s);
    BytesSize(t);
    FirstByte(t);
    FirstByte(s);
    hide BytesBits, BitsOf, Low;
    BitsOfLength(s[0], 8);
    BitsOfLength(t[0], 8);
    SplitByte(BitsOf(s[0], 8), BytesBits(s[1..]), BitsOf(t[0], 8), BytesBits(t[1..]), rest);
    SameByte(s[0], t[0]);
  }

  lemma SameByte(x: byte, y: byte)
    requires BitsOf(x, 8) == BitsOf(y, 8)
    ensures x == y
  {
    assert Pow2(8) == 256 by { Pow2Values(); }
    hide BitsOf, Low, Pow2;
    ValBitsOf(x, 8);
    ValBitsOf(y, 8);
    LowSmall(x, 8);
    LowSmall(y, 8);
  }

  lemma SplitByte(a: seq<bool>, b: seq<bool>, x: seq<bool>, y: seq<bool>, rest: seq<bool>)
    requires a + b == x + y + rest && |a| == |x|
    ensures a == x && b == y + rest
  {
    assert x + y + rest == x + (y + rest);
    SplitTwo(a, b, x, y + rest);
  }

  lemma BytesSize(s: seq<byte>)
    ensures |BytesBits(s)| == 8 * |s|
  {
  }

  lemma SplitTwo(a: seq<bool>, b: seq<bool>, x: seq<bool>, y: seq<bool>)
    requires a + b == x + y && |a| == |x|
    ensures a == x && b == y
  {
    SplitAt(a, b, [], x, y);
    assert a + b + [] == a + b && b + [] == b;
  }

  // ---- Whole blocks ----

  lemma TypeStep(s: State, kind: nat, last: bool)
    requires s.mode == TYPE && !s.last && s.bits >= 3 && kind < 3
    requires Low(s.hold, 3) == kind * 2 + (if last then 1 else 0)
    ensures Next(s) == Go(var t := Drop(s, 3).(last := last);
      if kind == 0 then t.(mode := STORED)
      else if kind == 1 then t.(mode := LEN, ll := FixedLitLens(), dl := FixedInflateDists())
      else t.(mode := TABLE))
  {
    LowShr(s.hold, 1, 2);
    assert Low(s.hold, 1) == s.hold % 2;
    assert Low(s.hold, 3) == s.hold % 2 + 2 * Low(Shr(s.hold, 1), 2);
  }

  lemma ReadType(c: Config, kind: nat, last: bool, rest: seq<bool>) returns (d: Config)
    requires c.s.mode == TYPE && !c.s.last && Good(c.s) && c.s.bits < 8 && kind < 3
    requires Stream(c) == BitsOf(kind * 2 + (if last then 1 else 0), 3) + rest
    ensures Call(d) == Call(c) && Good(d.s) && d.s.bits < 8 && Stream(d) == rest && d.room == c.room
    ensures d.s.last == last && d.s.out == c.s.out
    ensures kind == 0 ==> d.s.mode == STORED
    ensures kind == 1 ==> d.s.mode == LEN && d.s.ll == FixedLitLens() && d.s.dl == FixedInflateDists()
    ensures kind == 2 ==> d.s.mode == TABLE
  {
    var v := kind * 2 + (if last then 1 else 0);
    assert v < Pow2(3) by { Pow2Values(); }
    BitsOfLength(v, 3);
    hide Stream, Good, Next, Call, BitsOf, Low, Shr, Pow2;
    var e := NeedBits(c);
    TakeBits(e, v, 3, rest);
    TypeStep(e.s, kind, last);
    d := TookStep(e, 3);
  }

  // The compressor's thirty distance codes and inflate()'s thirty-two are the
  // same where both exist.
  lemma FixedDistAgree(t: Token)
    requires Coded(FixedLitLens(), FixedDistLens(), t)
    ensures Coded(FixedLitLens(), FixedInflateDists(), t)
    ensures TokenBits(FixedLitLens(), FixedInflateDists(), t) == TokenBits(FixedLitLens(), FixedDistLens(), t)
  {
    if t.Match? {
      var y := DistCode(t.dist - 1);
      FiveBitCode(FixedDistLens(), y);
      FiveBitCode(FixedInflateDists(), y);
    }
  }

  lemma {:induction false} FixedBodiesAgree(ts: seq<Token>)
    requires AllCoded(FixedLitLens(), FixedDistLens(), ts)
    ensures AllCoded(FixedLitLens(), FixedInflateDists(), ts)
    ensures TokensBits(FixedLitLens(), FixedInflateDists(), ts) == TokensBits(FixedLitLens(), FixedDistLens(), ts)
  {
    hide TokenBits, Coded;
    forall i | 0 <= i < |ts| ensures Coded(FixedLitLens(), FixedInflateDists(), ts[i]) {
      FixedDistAgree(ts[i]);
    }
    if ts != [] {
      FixedBodiesAgree(ts[..|ts| - 1]);
      FixedDistAgree(ts[|ts| - 1]);
    }
  }

  // The block round trip: from the bits of a block, wherever it starts in the
  // stream, inflate() puts out exactly the bytes of the block, and is ready
  // for what follows.
  lemma ReadBlock(c: Config, b: Block, last: bool, pos: nat, rest: seq<bool>) returns (d: Config)
    requires c.s.mode == TYPE && !c.s.last && Good(c.s) && c.s.bits < 8
    requires BlockOk(b) && BlockExpands(c.s.out, b)
    requires |BlockData(c.s.out, b)| - |c.s.out| <= c.room
    requires Stream(c) == BlockBits(b, last, pos) + rest && (pos + |Stream(c)|) % 8 == 0
    ensures Call(d) == Call(c) && d.s.mode == TYPE && d.s.last == last && Good(d.s) && d.s.bits < 8 && Stream(d) == rest
    ensures d.s.out == BlockData(c.s.out, b) && d.room + |d.s.out| == c.room + |c.s.out|
  {
    hide Stream, Good, Next, Call, BitsOf, TokensBits, HeaderBits, CodeBits, BytesBits, Complete, Coded, Expand,
      AllExpandable;
    var kind := BlockType(b);
    var content := ContentBits(b, pos + 3);
    var v := kind * 2 + (if last then 1 else 0);
    assert BlockBits(b, last, pos) == BitsOf(v, 3) + content;
    assert BitsOf(v, 3) + content + rest == BitsOf(v, 3) + (content + rest);
    BitsOfLength(v, 3);
    var e := ReadType(c, kind, last, content + rest);
    match b
    case Stored(data) =>
      d := ReadStored(e, data, pos + 3, rest);
    case Fixed(tokens) =>
      FixedComplete();
      FiveBitKraft(FixedInflateDists());
      FixedBodiesAgree(tokens);
      d := ReadBody(e, tokens, rest);
    case Dynamic(h, tokens) =>
      var a, body := HeaderBits(h), BodyBits(h.ll, h.dl, tokens);
      assert a + body + rest == a + (body + rest);
      var f := ReadHeader(e, h, body + rest);
      d := ReadBody(f, tokens, rest);
  }

  lemma ReadStored(c: Config, data: seq<byte>, pos: nat, rest: seq<bool>) returns (d: Config)
    requires c.s.mode == STORED && Good(c.s) && c.s.bits < 8 && |data| <= 65535 && |data| <= c.room
    requires (pos + |Stream(c)|) % 8 == 0
    requires Stream(c) == BitsOf(0, Padding(pos)) + BitsOf(|data|, 16) + BitsOf(65535 - |data|, 16) + BytesBits(data) + rest
    ensures Call(d) == Call(c) && d.s.mode == TYPE && d.s.last == c.s.last && Good(d.s) && d.s.bits < 8 && Stream(d) == rest
    ensures d.s.out == c.s.out + data && d.room + |d.s.out| == c.room + |c.s.out|
  {
    hide Stream, Next, Call, BitsOf, BytesBits, Good, Padding;
    var p, a, b, e := BitsOf(0, Padding(pos)), BitsOf(|data|, 16), BitsOf(65535 - |data|, 16), BytesBits(data);
    var more := a + b + (e + rest);
    assert p + a + b + e + rest == p + more;
    BitsOfLength(0, Padding(pos));
    PaddingIs(pos, |more|);
    var f := AlignStep(c, Padding(pos), more);
    var g := ReadLengths(f, |data|, e + rest);
    d := CopyStored(g, data, rest);
    GoodEmpty(d.s);
  }

  lemma GoodEmpty(s: State)
    requires s.bits == 0 && s.hold == 0
    ensures Good(s)
  {
  }

  lemma PaddingIs(pos: nat, n: nat)
    requires (pos + Padding(pos) + n) % 8 == 0
    ensures n % 8 == 0 && Padding(pos) < 8
  {
  }

  // ---- Whole streams ----

  // Blocks after pos bits of the stream, the last one marked.
  ghost predicate BlocksOk(out: seq<byte>, blocks: seq<Block>)
    decreases |blocks|
  {
    blocks == [] || (BlockOk(blocks[0]) && BlockExpands(out, blocks[0]) && BlocksOk(BlockData(out, blocks[0]), blocks[1..]))
  }

  ghost function BlocksBits(out: seq<byte>, blocks: seq<Block>, pos: nat): seq<bool>
    requires BlocksOk(out, blocks)
    decreases |blocks|
  {
    if blocks == [] then []
    else
      var bits := BlockBits(blocks[0], |blocks| == 1, pos);
      bits + BlocksBits(BlockData(out, blocks[0]), blocks[1..], pos + |bits|)
  }

  ghost function BlocksData(out: seq<byte>, blocks: seq<Block>): seq<byte>
    requires BlocksOk(out, blocks)
    decreases |blocks|
  {
    if blocks == [] then out else BlocksData(BlockData(out, blocks[0]), blocks[1..])
  }

  lemma BlockGrows(out: seq<byte>, b: Block)
    requires BlockExpands(out, b)
    ensures |BlockData(out, b)| >= |out|
  {
    match b
    case Stored(data) =>
    case Fixed(tokens) => ExpandGrows(out, tokens);
    case Dynamic(_, tokens) => ExpandGrows(out, tokens);
  }

  lemma {:induction false} BlocksGrow(out: seq<byte>, blocks: seq<Block>)
    requires BlocksOk(out, blocks)
    ensures |BlocksData(out, blocks)| >= |out|
    decreases |blocks|
  {
    if blocks != [] {
      BlockGrows(out, blocks[0]);
      BlocksGrow(BlockData(out, blocks[0]), blocks[1..]);
    }
  }

  lemma {:induction false} ReadBlocks(c: Config, blocks: seq<Block>, pos: nat, rest: seq<bool>) returns (d: Config)
    requires c.s.mode == TYPE && !c.s.last && Good(c.s) && c.s.bits < 8 && blocks != []
    requires BlocksOk(c.s.out, blocks) && |BlocksData(c.s.out, blocks)| - |c.s.out| <= c.room
    requires Stream(c) == BlocksBits(c.s.out, blocks, pos) + rest && (pos + |Stream(c)|) % 8 == 0
    ensures Call(d) == Call(c) && d.s.mode == TYPE && d.s.last && d.s.out == BlocksData(c.s.out, blocks)
    decreases |blocks|
  {
    hide Stream, Call, Good, BlockBits, BlockOk, BlockExpands, BlockData;
    var b, more := blocks[0], blocks[1..];
    var out := BlockData(c.s.out, b);
    BlocksGrow(out, more);
    BlockGrows(c.s.out, b);
    var last := |blocks| == 1;
    var bits := BlockBits(b, last, pos);
    var others := BlocksBits(out, more, pos + |bits|);
    assert bits + others + rest == bits + (others + rest);
    var e := ReadBlock(c, b, last, pos, others + rest);
    if last {
      d := e;
    } else {
      d := ReadBlocks(e, more, pos + |bits|, rest);
    }
  }

  lemma Finish(c: Config)
    requires c.s.mode == TYPE && c.s.last
    ensures Call(c).s.mode == DONE && Call(c).s.out == c.s.out
  {
    hide Next, Call;
    var d := c;
    EndNext(c.s);
    if c.s.bits % 8 != 0 {
      GoStep(c);
      d := c.(s := Next(c.s).to);
    }
    EndNext(d.s);
    GoStep(d);
    var e := d.(s := Next(d.s).to);
    EndNext(e.s);
    GoStep(e);
    StopsThere(e.(s := Next(e.s).to));
  }

  lemma EndNext(s: State)
    ensures s.mode == TYPE && s.last ==> Next(s) == Go(if s.bits % 8 != 0 then Drop(s, s.bits % 8) else s.(mode := CHECK))
    ensures s.mode == TYPE && s.last ==> (s.bits - s.bits % 8) % 8 == 0
    ensures s.mode == CHECK ==> Next(s) == Go(s.(mode := DONE))
  {
    hide Low, Shr;
  }

  lemma StopsThere(c: Config)
    requires c.s.mode == DONE
    ensures Call(c) == c
  {
  }

  // The round trip of a whole raw stream: whatever follows it, inflate()
  // reports its end, and has put out exactly the data of its blocks.
  lemma StreamRoundTrip(blocks: seq<Block>, input: seq<byte>, room: nat, rest: seq<bool>)
    requires blocks != [] && BlocksOk([], blocks) && |BlocksData([], blocks)| <= room
    requires BytesBits(input) == BlocksBits([], blocks, 0) + rest
    ensures var c := Call(Config(Initial(), input, room)); c.s.mode == DONE && c.s.out == BlocksData([], blocks)
  {
    InitialIs();
    hide Call, Initial, BlocksBits, BlocksData, BytesBits, BlocksOk;
    ReadAll(Config(Initial(), input, room), blocks, rest);
  }

  lemma InitialIs()
    ensures Fresh(Initial())
  {
  }

  // The state that a stream starts in.
  predicate Fresh(s: State) {
    s.mode == TYPE && !s.last && s.hold == 0 && s.bits == 0 && s.out == []
  }

  lemma StreamStart(c: Config)
    requires Fresh(c.s)
    ensures Good(c.s) && Stream(c) == BytesBits(c.input) && (0 + |Stream(c)|) % 8 == 0
  {
    NoHold(c);
    BytesSize(c.input);
  }

  lemma ReadAll(c: Config, blocks: seq<Block>, rest: seq<bool>)
    requires Fresh(c.s) && blocks != [] && BlocksOk(c.s.out, blocks) && |BlocksData(c.s.out, blocks)| <= c.room
    requires BytesBits(c.input) == BlocksBits(c.s.out, blocks, 0) + rest
    ensures Call(c).s.mode == DONE && Call(c).s.out == BlocksData(c.s.out, blocks)
  {
    hide Call, Stream, Good, BlocksBits, BlocksData, BytesBits, BlocksOk;
    StreamStart(c);
    var d := ReadBlocks(c, blocks, 0, rest);
    Finish(d);
  }

  // ... and so it does when input and room for output come in pieces.
  lemma PiecesRoundTrip(blocks: seq<Block>, pieces: seq<Piece>, rest: seq<bool>)
    requires blocks != [] && BlocksOk([], blocks) && pieces != [] && |BlocksData([], blocks)| <= AllRoom(pieces)
    requires BytesBits(AllInput(pieces)) == BlocksBits([], blocks, 0) + rest
    ensures var c := Calls(Config(Initial(), [], 0), pieces); c.s.mode == DONE && c.s.out == BlocksData([], blocks)
  {
    hide Call, Calls, Initial, BlocksBits, BlocksData, BytesBits, BlocksOk;
    SplitAnywhere(Config(Initial(), [], 0), pieces);
    assert [] + AllInput(pieces) == AllInput(pieces);
    StreamRoundTrip(blocks, AllInput(pieces), AllRoom(pieces), rest);
  }
}
