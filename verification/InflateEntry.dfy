// inffast.c: how many bits are held when inflate_fast() is entered. Fewer than
// eight are asked for, but a call of inflate() that ends in the middle of a long
// code leaves more of them to the next one.
module InflateEntry {
  import opened Bits
  import opened BitWriter
  import opened CanonicalCode
  import Format
  import opened BlockFormat
  import StaticTrees
  import opened InflateMachine
  import opened InflateStream
  import opened InflateBlocks
  import opened Inflate
  import InflateCall
  import Window

  // The input ends behind the first n bits of a code: these n bits are held when
  // the call ends, however many they are.
  lemma {:induction false} EndsMidCode(c: Config, y: nat, n: nat)
    requires c.s.mode == LEN && Good(c.s) && Complete(c.s.ll) && y < |c.s.ll| && n < c.s.ll[y]
    requires Stream(c) == BitsOf(StreamCode(c.s.ll, y), n)
    ensures var d := Call(c);
      SameBut(c.s, d.s) && d.s.hold == Low(StreamCode(c.s.ll, y), n) && d.s.bits == n && d.input == [] && d.room == c.room
    decreases |c.input|
  {
    hide Stream, Good, Next, Decode, Complete, Low;
    var lens, v := c.s.ll, StreamCode(c.s.ll, y);
    Format.BitsOfLength(v, n);
    StreamSize(c);
    HeldPart(c, v, n);
    OwnCode(lens, y);
    DecodeFinds(lens, y, v, c.s.hold, c.s.bits);
    DecodePulls(c.s);
    if c.input == [] {
      PullStuck(c);
    } else {
      hide Call;
      var d := PullOne(c, c.s.bits + 1);
      EndsMidCode(d, y, n);
    }
  }

  // The accumulator holds the first bits of the stream.
  lemma HeldPart(c: Config, v: nat, n: nat)
    requires Good(c.s) && Stream(c) == BitsOf(v, n)
    ensures c.s.bits <= n && c.s.hold == Low(v, c.s.bits)
  {
    hide Low, Pow2;
    Format.BitsOfLength(v, n);
    StreamSize(c);
    HoldIsLow(c);
    ValBitsOf(v, n);
    LowLow(v, c.s.bits, n);
  }

  lemma OwnCode(lens: seq<nat>, y: nat)
    requires Complete(lens) && y < |lens| && lens[y] > 0
    ensures Matches(lens, y, StreamCode(lens, y))
  {
    hide Low, Rev;
    RevBound(CodeOf(lens, y), lens[y]);
    LowSmall(StreamCode(lens, y), lens[y]);
  }

  // ---- A call that ends there ----

  function Ones(n: nat): (s: seq<bool>)
    ensures |s| == n && forall i :: 0 <= i < n ==> s[i]
  {
    seq(n, i => true)
  }

  lemma {:induction false} OnesOf(v: nat, n: nat)
    requires v + 1 == Pow2(n)
    ensures BitsOf(v, n) == Ones(n) && Rev(v, n) == v
  {
    if n > 0 {
      OnesOf(v / 2, n - 1);
      assert v % 2 == 1 && v / 2 + 1 == Pow2(n - 1);
    }
  }

  lemma {:induction false} SpanCount(lens: seq<nat>, l: nat, a: nat, b: nat, v: nat)
    requires a <= b <= |lens| && forall i :: a <= i < b ==> lens[i] == v
    ensures CountTo(lens, l, b) == CountTo(lens, l, a) + (if l == v then b - a else 0)
    decreases b
  {
    if b > a { SpanCount(lens, l, a, b - 1, v); }
  }

  lemma FixedCount(lens: seq<nat>, l: nat)
    requires |lens| == 288 && forall i :: 0 <= i < 288 ==> lens[i] == FixedLen(i)
    ensures Count(lens, l) == if l == 7 then 24 else if l == 8 then 152 else if l == 9 then 112 else 0
    ensures l == 9 ==> CountTo(lens, l, 255) == 111
  {
    assert CountTo(lens, l, 0) == 0;
    hide CountTo;
    SpanCount(lens, l, 0, 144, 8);
    SpanCount(lens, l, 144, 255, 9);
    SpanCount(lens, l, 255, 256, 9);
    SpanCount(lens, l, 256, 280, 7);
    SpanCount(lens, l, 280, 288, 8);
  }

  lemma {:induction false} NoFirst(lens: seq<nat>, l: nat)
    requires |lens| == 288 && (forall i :: 0 <= i < 288 ==> lens[i] == FixedLen(i)) && l <= 7
    ensures FirstCode(lens, l) == 0
  {
    if l > 1 {
      NoFirst(lens, l - 1);
      FixedCount(lens, l - 1);
    }
  }

  // The last of the fixed codes is nine ones.
  lemma LastCode(lens: seq<nat>)
    requires lens == FixedLitLens()
    ensures lens[255] == 9 && StreamCode(lens, 255) == 511
  {
    NoFirst(lens, 7);
    FixedCount(lens, 7);
    FixedCount(lens, 8);
    FixedCount(lens, 9);
    hide CountTo, Rev, Count;
    assert FirstCode(lens, 8) == 48;
    assert FirstCode(lens, 9) == 400;
    assert Pow2(9) == 512 by { Pow2Values(); }
    OnesOf(511, 9);
  }

  // A block in the fixed codes, not the last one: five literals 255, and the
  // first eight bits of a sixth.
  function HeldInput(): seq<byte> {
    [250, 255, 255, 255, 255, 255, 255]
  }

  lemma OnesJoin(a: nat, b: nat)
    ensures Ones(a) + Ones(b) == Ones(a + b)
  {
  }

  lemma OneByte()
    ensures BytesBits([255]) == Ones(8)
  {
    assert Pow2(8) == 256 by { Pow2Values(); }
    ByteBits(255);
    OnesOf(255, 8);
  }

  lemma {:induction false} AllOnes(n: nat) returns (s: seq<byte>)
    ensures |s| == n && (forall i :: 0 <= i < n ==> s[i] == 255) && BytesBits(s) == Ones(8 * n)
  {
    s := [];
    if n > 0 {
      var front := AllOnes(n - 1);
      hide BytesBits, Ones;
      BytesBitsConcat(front, [255]);
      OneByte();
      OnesJoin(8 * (n - 1), 8);
      s := front + [255];
    }
  }

  lemma HeldBits()
    ensures BytesBits(HeldInput()) == BitsOf(2, 3) + Ones(53)
  {
    var s := AllOnes(6);
    assert HeldInput() == [250] + s;
    BytesBitsConcat([250], s);
    ByteBits(250);
    BitsOfSplit(250, 3, 5);
    assert Shr(250, 3) == 31;
    assert BitsOf(250, 3) == BitsOf(2, 3) by { BitsOfLow(250, 3); assert Low(250, 3) == 2; }
    assert Pow2(5) == 32 by { Pow2Values(); }
    OnesOf(31, 5);
    hide BitsOf, BytesBits;
    assert Ones(5) + Ones(48) == Ones(53);
    assert BitsOf(2, 3) + Ones(5) + Ones(48) == BitsOf(2, 3) + (Ones(5) + Ones(48));
  }

  lemma {:induction false} ReadOnes(c: Config, k: nat) returns (d: Config)
    requires AtSymbol(c.s) && c.s.ll == FixedLitLens() && Stream(c) == Ones(9 * k + 8) && c.room >= k
    ensures Call(d) == Call(c) && AtSymbol(d.s) && Stream(d) == Ones(8) && SameBlock(c.s, d.s)
    ensures d.s.out == c.s.out + seq(k, i => 255)
    decreases k
  {
    hide Stream, AtSymbol, Call;
    if k == 0 {
      d := c;
      assert seq(0, i => 255) == [];
    } else {
      LastCode(c.s.ll);
      LastBits(c.s.ll);
      assert Ones(9) + Ones(9 * (k - 1) + 8) == Ones(9 * k + 8);
      var e := ReadLiteral(c, 255, Ones(9 * (k - 1) + 8));
      d := ReadOnes(e, k - 1);
      assert c.s.out + [255] + seq(k - 1, i => 255) == c.s.out + seq(k, i => 255);
    }
  }

  lemma LastBits(lens: seq<nat>)
    requires lens == FixedLitLens()
    ensures lens[255] == 9 && Format.CodeBits(lens, 255) == Ones(9) && BitsOf(StreamCode(lens, 255), 8) == Ones(8)
  {
    LastCode(lens);
    assert Pow2(8) == 256 && Pow2(9) == 512 by { Pow2Values(); }
    OnesOf(511, 9);
    OnesOf(255, 8);
    BitsOfLow(511, 8);
    assert Low(511, 8) == 255;
  }

  lemma FiveRead(room: nat) returns (d: Config)
    requires room >= 5
    ensures Call(d) == Call(Config(Initial(), HeldInput(), room)) && AtSymbol(d.s) && Stream(d) == Ones(8)
    ensures d.s.ll == FixedLitLens() && d.s.out == seq(5, i => 255)
  {
    AtStart(room);
    FixedTrees();
    hide Stream, Call, BitsOf, Complete, AtSymbol, HeldInput, Ones, Initial, FixedLitLens, FixedInflateDists, Good;
    var c := ReadType(Config(Initial(), HeldInput(), room), STATIC_TREES, false, Ones(53));
    AtFixed(c.s);
    d := ReadOnes(c, 5);
    assert [] + seq(5, i => 255) == seq(5, i => 255);
  }

  // The call on this input ends with a whole byte held, which the next call
  // starts with.
  lemma HeldByte(room: nat)
    requires room >= 5
    ensures var d := Call(Config(Initial(), HeldInput(), room));
      d.s.mode == LEN && d.s.bits == 8 && d.input == [] && d.s.out == seq(5, i => 255)
  {
    hide Stream, Call, BitsOf, Complete, AtSymbol, HeldInput, Ones, Initial, FixedLitLens, Good;
    var d := FiveRead(room);
    LastBits(d.s.ll);
    AtSymbolParts(d.s);
    EndsMidCode(d, 255, 8);
  }

  lemma AtStart(room: nat)
    ensures var c := Config(Initial(), HeldInput(), room);
      && Stream(c) == BitsOf(2, 3) + Ones(53) && Good(c.s)
      && c.s.mode == TYPE && !c.s.last && c.s.bits == 0 && c.s.out == []
  {
    HeldBits();
    hide BytesBits, HeldInput, Ones;
    assert BitsOf(0, 0) + BytesBits(HeldInput()) == BytesBits(HeldInput());
  }

  lemma FixedTrees()
    ensures Complete(FixedLitLens()) && Complete(FixedInflateDists()) && |FixedLitLens()| == 288
  {
    StaticTrees.FixedComplete();
    StaticTrees.FiveBitKraft(FixedInflateDists());
  }

  lemma AtFixed(s: State)
    requires s.mode == LEN && Good(s) && s.bits < 8 && Complete(s.ll) && Complete(s.dl)
    ensures AtSymbol(s)
  {
  }

  lemma AtSymbolParts(s: State)
    requires AtSymbol(s)
    ensures s.mode == LEN && Good(s) && Complete(s.ll)
  {
  }

  // The same on the real state: after this call any other one with six bytes of
  // input and room for 258 enters inflate_fast() with eight bits held.
  method EnterWithByte(data: seq<byte>, room: nat) returns (held: nat, ghost heavy: bool)
    requires |data| >= 6 && room >= 258
    ensures held == 8 && heavy
  {
    hide *;
    var mem := InflateCall.NewMemory();
    var win := new Window.Window(32768);
    var r := Registers(TYPE, false, 0, 0, 0, 0, 0, 0, 0, 0, 0, 0, 0, 0, 0);
    InflateCall.KeptStart(r, mem, win);
    var first, out := new byte[5], new byte[room];
    var used, made;
    ghost var st;
    HeldByte(5);
    r, used, made, st, heavy := InflateCall.InflateOnce(r, mem, win, HeldInput(), first, 5, false, Initial());
    held := r.bits;
    InflateCall.KeptParts(r, mem, win, st);
    ghost var st2;
    var r2;
    r2, used, made, st2, heavy := InflateCall.InflateOnce(r, mem, win, data, out, room, false, st);
  }
}
