// crc32.c: CRC-32 (section 8 of RFC 1952), computed on interleaved words, and
// combining the CRCs of two pieces.
module Crc32 {
  import opened Bits
  import opened Polynomial

  // ---- The definition: one bit at a time, lowest bit of each byte first ----

  // x^31 is added for a bit that is one, and the register multiplied by x.
  function Feed(r: bv32, bits: bv32, n: nat): bv32
    decreases n
  {
    if n == 0 then r else Feed(TimesX(Add(r, bits & 1)), Down(bits), n - 1)
  }

  function ByteStep(r: bv32, b: bv8): bv32 {
    Feed(r, b as bv32, 8)
  }

  function Update(r: bv32, s: seq<bv8>): bv32
    decreases |s|
  {
    if s == [] then r else Update(ByteStep(r, s[0]), s[1..])
  }

  // The CRC of s, continued from crc; it starts with zero.
  function Crc(crc: bv32, s: seq<bv8>): bv32 {
    Add(Update(Add(crc, 0xffff_ffff), s), 0xffff_ffff)
  }

  // ---- A known value ----

  // Two, four and eight bits at once.
  function FeedTwo(r: bv32, x: bv32): bv32 {
    TimesX(Add(TimesX(Add(r, x & 1)), Down(x) & 1))
  }

  function FeedFour(r: bv32, x: bv32): bv32 {
    FeedTwo(FeedTwo(r, x), Down(Down(x)))
  }

  lemma FedTwo(r: bv32, x: bv32, n: nat)
    requires n >= 2
    ensures Feed(r, x, n) == Feed(FeedTwo(r, x), Down(Down(x)), n - 2)
  {
    hide TimesX, Add, Down;
  }

  lemma FedByte(r: bv32, b: bv8)
    ensures ByteStep(r, b) == FeedFour(FeedFour(r, b as bv32), Down(Down(Down(Down(b as bv32)))))
  {
    hide TimesX, Add, Down, FeedTwo;
    var x := b as bv32;
    var r1, x1 := FeedTwo(r, x), Down(Down(x));
    var r2, x2 := FeedTwo(r1, x1), Down(Down(x1));
    var r3, x3 := FeedTwo(r2, x2), Down(Down(x2));
    FedTwo(r, x, 8);
    FedTwo(r1, x1, 6);
    FedTwo(r2, x2, 4);
    FedTwo(r3, x3, 2);
  }

  // The CRC of the digits 1 to 9.
  lemma CheckValue()
    ensures Crc(0, [0x31, 0x32, 0x33, 0x34, 0x35, 0x36, 0x37, 0x38, 0x39]) == 0xcbf4_3926
  {
    FedByte(0xffffffff, 0x31);
    assert ByteStep(0xffffffff, 0x31) == 0x7c231048;
    FedByte(0x7c231048, 0x32);
    assert ByteStep(0x7c231048, 0x32) == 0xb0acbb32;
    FedByte(0xb0acbb32, 0x33);
    assert ByteStep(0xb0acbb32, 0x33) == 0x77b79c2d;
    FedByte(0x77b79c2d, 0x34);
    assert ByteStep(0x77b79c2d, 0x34) == 0x641c1f5c;
    FedByte(0x641c1f5c, 0x35);
    assert ByteStep(0x641c1f5c, 0x35) == 0x340ac5e3;
    FedByte(0x340ac5e3, 0x36);
    assert ByteStep(0x340ac5e3, 0x36) == 0xf68d2c9e;
    FedByte(0xf68d2c9e, 0x37);
    assert ByteStep(0xf68d2c9e, 0x37) == 0xaffc9660;
    FedByte(0xaffc9660, 0x38);
    assert ByteStep(0xaffc9660, 0x38) == 0x651f2550;
    FedByte(0x651f2550, 0x39);
    assert ByteStep(0x651f2550, 0x39) == 0x340bc6d9;
  }

  // ---- Bytes at once ----

  lemma LowBitApart(x: bv32)
    ensures x == Add(x & 1, Up(Down(x))) && !Odd(Up(Down(x))) && Down(Up(Down(x))) == Down(x)
  {
  }

  // The whole byte may be added first, and the register then multiplied by
  // x^8.
  lemma {:induction false} FeedAtOnce(r: bv32, x: bv32, n: nat)
    ensures TimesXn(Add(r, x), n) == Add(Feed(r, x, n), ShiftRight(x, n))
    decreases n
  {
    if n > 0 {
      LowBitApart(x);
      var low, rest := x & 1, Up(Down(x));
      assert TimesX(rest) == Down(rest) == Down(x);
      hide Add, Up, Down, Odd, TimesX;
      AddAssoc(r, low, rest);
      TimesXAdds(Add(r, low), rest);
      FeedAtOnce(TimesX(Add(r, low)), Down(x), n - 1);
    }
  }

  function Wide(b: bv8): bv32 {
    b as bv32
  }

  lemma WideShifts(b: bv8)
    ensures ShiftRight(Wide(b), 8) == 0
  {
    ShiftedBy8(Wide(b));
    hide ShiftRight;
  }

  lemma ByteStepIs(r: bv32, b: bv8)
    ensures ByteStep(r, b) == TimesXn(Add(r, Wide(b)), 8)
  {
    hide Add, ShiftRight, TimesXn;
    FeedAtOnce(r, Wide(b), 8);
    WideShifts(b);
    AddZero(Feed(r, Wide(b), 8));
  }

  // ---- Updating is linear ----

  lemma {:induction false} UpdateConcat(r: bv32, s: seq<bv8>, t: seq<bv8>)
    ensures Update(r, s + t) == Update(Update(r, s), t)
    decreases |s|
  {
    hide ByteStep;
    if s == [] {
      assert s + t == t;
    } else {
      assert (s + t)[1..] == s[1..] + t;
      UpdateConcat(ByteStep(r, s[0]), s[1..], t);
    }
  }

  // What is in the register before is multiplied by x^8 for every byte.
  lemma {:induction false} UpdateAdds(r: bv32, q: bv32, s: seq<bv8>)
    ensures Update(Add(r, q), s) == Add(Update(r, s), TimesXn(q, 8 * |s|))
    decreases |s|
  {
    if s != [] {
      hide Add, ByteStep, TimesX, Wide;
      ByteStepIs(r, s[0]);
      ByteStepIs(Add(r, q), s[0]);
      AddAssoc(r, q, Wide(s[0]));
      AddAssoc(r, Wide(s[0]), q);
      AddSwap(q, Wide(s[0]));
      TimesXnAdds(Add(r, Wide(s[0])), q, 8);
      UpdateAdds(ByteStep(r, s[0]), TimesXn(q, 8), s[1..]);
      TimesXnSum(q, 8, 8 * |s[1..]|);
    }
  }

  // ---- multmodp() ----

  lemma DownMask(a: bv32, m: bv32)
    ensures Has(a, Down(m)) <==> Has(Up(a), m)
  {
  }

  // Whether a has no coefficients below the one that m stands for.
  predicate NoneBelow(a: bv32, m: bv32) {
    a & (m - 1) == 0
  }

  lemma DownBelow(a: bv32, m: bv32)
    requires !Odd(m) && m != 0
    ensures NoneBelow(a, Down(m)) <==> NoneBelow(Up(a), m)
  {
  }

  lemma PowerIsNotZero(n: nat)
    requires n < 32
    ensures Power(n) != 0
  {
    hide Power, TimesXn;
    XToPower(n);
    XnNonZero(n);
  }

  lemma TopMasks(a: bv32)
    ensures Has(a, ONE) <==> Top(a)
    ensures NoneBelow(a, ONE) <==> Up(a) == 0
  {
  }

  lemma {:induction false} MasksAre(a: bv32, n: nat)
    requires n < 32
    ensures Has(a, Power(n)) <==> Top(ShiftLeft(a, n))
    ensures NoneBelow(a, Power(n)) <==> Up(ShiftLeft(a, n)) == 0
    decreases n
  {
    if n == 0 {
      assert Power(0) == ONE && ShiftLeft(a, 0) == a;
      hide Up, Has, NoneBelow, Top;
      TopMasks(a);
    } else {
      assert ShiftLeft(a, n) == ShiftLeft(Up(a), n - 1);
      hide Up, Down, Has, NoneBelow, Top, Odd, Power, ShiftLeft, TimesX;
      PowerEven(n - 1);
      PowerIsNotZero(n - 1);
      DownMask(a, Power(n - 1));
      DownBelow(a, Power(n - 1));
      MasksAre(Up(a), n - 1);
    }
  }

  lemma AllShiftedUp(a: bv32)
    ensures ShiftLeft(a, 32) == 0
  {
    hide Up, Up8, ShiftLeft;
    ShiftLeftBy8(a);
    ShiftLeftBy8(Up8(a));
    ShiftLeftBy8(Up8(Up8(a)));
    ShiftLeftBy8(Up8(Up8(Up8(a))));
    ShiftLeftSum(a, 8, 24);
    ShiftLeftSum(Up8(a), 8, 16);
    ShiftLeftSum(Up8(Up8(a)), 8, 8);
    UpOut(a);
  }

  lemma UpOut(a: bv32)
    ensures Up8(Up8(Up8(Up8(a)))) == 0
  {
  }

  lemma UpNext(a: bv32, n: nat)
    ensures ShiftLeft(a, n + 1) == Up(ShiftLeft(a, n))
  {
    hide Up;
    ShiftLeftSum(a, n, 1);
    assert ShiftLeft(ShiftLeft(a, n), 1) == ShiftLeft(Up(ShiftLeft(a, n)), 0);
  }

  lemma NonZeroUp(a: bv32)
    ensures a != 0 && !Top(a) ==> Up(a) != 0
  {
  }

  // The product so far, and the terms still to be added.
  ghost predicate Multiplying(a: bv32, b0: bv32, m: bv32, p: bv32, b: bv32, n: nat) {
    && n < 32 && m == Power(n) && ShiftLeft(a, n) != 0
    && Add(p, Product(ShiftLeft(a, n), b, 32 - n)) == Times(a, b0)
  }

  lemma MultiplyStart(a: bv32, b: bv32)
    requires a != 0
    ensures Multiplying(a, b, ONE, 0, b, 0)
  {
    AddZero(Product(a, b, 32));
    assert Power(0) == ONE && ShiftLeft(a, 0) == a;
  }

  lemma MultiplyStep(a: bv32, b0: bv32, m: bv32, p: bv32, b: bv32, n: nat)
    requires Multiplying(a, b0, m, p, b, n)
    ensures var q := if Has(a, m) then Add(p, b) else p;
      if Has(a, m) && NoneBelow(a, m) then q == Times(a, b0)
      else n < 31 && Multiplying(a, b0, Down(m), q, TimesX(b), n + 1)
  {
    var x := ShiftLeft(a, n);
    MasksAre(a, n);
    UpNext(a, n);
    AllShiftedUp(a);
    OneMore(x, b, 32 - n);
    NonZeroUp(x);
    PowerNext(n);
    AddAssoc(p, b, Product(Up(x), TimesX(b), 31 - n));
    AddZero(Product(Up(x), TimesX(b), 31 - n));
    AddZero(Add(p, b));
    ZeroTimes(TimesX(b), 31 - n);
    hide Add, Up, Down, Has, NoneBelow, Top, Power, ShiftLeft, TimesX, Product, Times;
  }

  // The product of two polynomials. The loop ends at the lowest coefficient of
  // a, so a must have one.
  method MultModP(a: bv32, b0: bv32) returns (p: bv32)
    requires a != 0
    ensures p == Times(a, b0)
  {
    hide Add, Down, Has, NoneBelow, Multiplying, TimesX, Times;
    var m, b := ONE, b0;
    p := 0;
    ghost var n: nat := 0;
    MultiplyStart(a, b);
    while true
      invariant n < 32 && Multiplying(a, b0, m, p, b, n)
      decreases 32 - n
    {
      MultiplyStep(a, b0, m, p, b, n);
      if Has(a, m) {
        p := Add(p, b);
        if NoneBelow(a, m) { break; }
      }
      m := Down(m);
      b := TimesX(b);
      n := n + 1;
    }
  }

  // ---- x2nmodp() ----

  // x^(2^n) for n < 32.
  ghost predicate PowersTable(table: seq<bv32>) {
    |table| == 32 && forall i :: 0 <= i < 32 ==> table[i] == TimesXn(ONE, Pow2(i))
  }

  // The powers repeat after 32.
  lemma {:induction false} PowersRepeat(b: bv32, k: nat)
    ensures TimesXn(b, Pow2(k + 32)) == TimesXn(b, Pow2(k))
    decreases k
  {
    if k == 0 {
      Wraps(b);
      assert TimesXn(b, 1) == TimesXn(TimesX(b), 0);
    } else {
      hide Pow2, TimesXn;
      PowTwice(k - 1);
      PowTwice(k + 31);
      PowersRepeat(b, k - 1);
      PowersRepeat(TimesXn(b, Pow2(k - 1)), k - 1);
      TimesXnSum(b, Pow2(k - 1), Pow2(k - 1));
      TimesXnSum(b, Pow2(k + 31), Pow2(k + 31));
    }
  }

  lemma PowTwice(k: nat)
    ensures Pow2(k + 1) == Pow2(k) + Pow2(k)
  {
  }

  lemma {:induction false} PowersWrap(b: bv32, k: nat)
    ensures TimesXn(b, Pow2(k % 32)) == TimesXn(b, Pow2(k))
    decreases k
  {
    hide TimesXn, Pow2;
    if k >= 32 {
      PowersRepeat(b, k - 32);
      PowersWrap(b, k - 32);
    }
  }

  lemma {:induction false} ShlHalf(n: nat, k: nat)
    ensures Shl(n, k) == Shl(n / 2, k + 1) + (if n % 2 == 1 then Pow2(k) else 0)
  {
    if k > 0 { ShlHalf(n, k - 1); }
  }

  // The power of x with exponent n * 2^k, from the table of its squares.
  method X2nModP(n0: nat, k0: nat, x2n_table: seq<bv32>) returns (p: bv32)
    requires PowersTable(x2n_table)
    ensures p == TimesXn(ONE, Shl(n0, k0))
  {
    hide TimesXn, Times, Pow2, Shl;
    p := ONE;
    var n, k := n0, k0;
    TimesXnNone(ONE);
    while n != 0
      invariant TimesXn(p, Shl(n, k)) == TimesXn(ONE, Shl(n0, k0))
    {
      ShlHalf(n, k);
      if n % 2 == 1 {
        XnNonZero(Pow2(k % 32));
        XnTimes(Pow2(k % 32), p);
        PowersWrap(p, k);
        TimesXnSum(p, Pow2(k), Shl(n / 2, k + 1));
        p := MultModP(x2n_table[k % 32], p);
      }
      n, k := n / 2, k + 1;
    }
    ShlZero(k);
    TimesXnNone(p);
  }

  lemma TimesXnNone(b: bv32)
    ensures TimesXn(b, 0) == b
  {
  }

  // ---- make_crc_table() ----

  // What eight steps of the register do to each byte.
  ghost predicate CrcTable(table: seq<bv32>) {
    |table| == 256 && forall i :: 0 <= i < 256 ==> table[i] == TimesXn(i as bv32, 8)
  }

  method MakeCrcTable() returns (crc_table: seq<bv32>, x2n_table: seq<bv32>)
    ensures CrcTable(crc_table) && PowersTable(x2n_table)
  {
    hide TimesX, Times, Pow2;
    crc_table := [];
    var i := 0;
    while i < 256
      invariant 0 <= i <= 256 && |crc_table| == i
      invariant forall k :: 0 <= k < i ==> crc_table[k] == TimesXn(k as bv32, 8)
    {
      var p := ByteTimesX8(i as bv32);
      crc_table := crc_table + [p];
      i := i + 1;
    }
    x2n_table := MakePowers();
  }

  // The table of the powers x^(2^n).
  method MakePowers() returns (x2n_table: seq<bv32>)
    ensures PowersTable(x2n_table)
  {
    hide TimesX, Times, Pow2;
    x2n_table := [X];
    FirstPower();
    var n := 1;
    while n < 32
      invariant 1 <= n <= 32 && |x2n_table| == n
      invariant forall k :: 0 <= k < n ==> x2n_table[k] == TimesXn(ONE, Pow2(k))
    {
      var p := x2n_table[n - 1];
      SquareOfPower(n - 1);
      p := MultModP(p, p);
      x2n_table := x2n_table + [p];
      n := n + 1;
    }
  }

  method ByteTimesX8(i: bv32) returns (p: bv32)
    ensures p == TimesXn(i, 8)
  {
    hide TimesX;
    p := i;
    var j := 0;
    while j < 8
      invariant 0 <= j <= 8 && TimesXn(p, 8 - j) == TimesXn(i, 8)
    {
      p := TimesX(p);
      j := j + 1;
    }
  }

  lemma SquareOfPower(n: nat)
    ensures var p := TimesXn(ONE, Pow2(n)); p != 0 && Times(p, p) == TimesXn(ONE, Pow2(n + 1))
  {
    hide TimesXn, Times, Pow2;
    XnNonZero(Pow2(n));
    XnTimes(Pow2(n), TimesXn(ONE, Pow2(n)));
    TimesXnSum(ONE, Pow2(n), Pow2(n));
    PowTwice(n);
  }

  // ---- A byte at a time, with the table ----

  function LowByte(v: bv32): bv32 {
    v & 0xff
  }

  lemma LowByteApart(v: bv32)
    ensures v == Add(LowByte(v), Up8(Down8(v))) && Down8(Up8(Down8(v))) == Down8(v)
  {
  }

  // Nothing is shifted out in four steps.
  ghost predicate DownFour(u: bv32) {
    && TimesX(u) == Down(u) && TimesX(Down(u)) == Down(Down(u))
    && TimesX(Down(Down(u))) == Down(Down(Down(u))) && TimesX(Down(Down(Down(u)))) == Down4(u)
  }

  lemma EvenSteps(v: bv32)
    ensures DownFour(Up8(v))
  {
    EvenBits(Up8(v));
    DownShifts(Up8(v));
    assert Up8(v) & 0xf == 0;
    hide Up8, Down;
  }

  lemma EvenBits(u: bv32)
    ensures u & 0xf == 0 ==> !Odd(u) && !Odd(Down(u)) && !Odd(Down(Down(u))) && !Odd(Down(Down(Down(u))))
  {
  }

  lemma EvenSteps4(v: bv32)
    ensures DownFour(Down4(Up8(v)))
  {
    EvenBits(Down4(Up8(v)));
    DownShifts(Down4(Up8(v)));
    assert Down4(Up8(v)) & 0xf == 0;
    hide Up8, Down, Down4;
  }

  lemma FourSteps(u: bv32)
    ensures TimesXn(u, 4) == TimesX(TimesX(TimesX(TimesX(u))))
  {
    hide TimesX;
    assert TimesXn(u, 4) == TimesXn(TimesX(u), 3) == TimesXn(TimesX(TimesX(u)), 2);
    assert TimesXn(TimesX(TimesX(u)), 2) == TimesXn(TimesX(TimesX(TimesX(u))), 1) == TimesX(TimesX(TimesX(TimesX(u))));
  }

  // A multiple of x^... with nothing in its low byte just moves down.
  lemma UpperMovesDown(v: bv32)
    ensures TimesXn(Up8(v), 8) == Down8(Up8(v))
  {
    EvenSteps(v);
    EvenSteps4(v);
    DownShifts(Up8(v));
    hide TimesX, Up8, Down, Down4, Down8, TimesXn;
    FourSteps(Up8(v));
    FourSteps(Down4(Up8(v)));
    TimesXnSum(Up8(v), 4, 4);
  }

  // Eight bits at once: what is shifted out selects what is added.
  lemma ByteAtOnce(v: bv32)
    ensures TimesXn(v, 8) == Add(Down8(v), TimesXn(LowByte(v), 8))
  {
    hide Add, TimesXn, Up8, Down8, LowByte;
    LowByteApart(v);
    TimesXnAdds(LowByte(v), Up8(Down8(v)), 8);
    UpperMovesDown(Down8(v));
    AddSwap(Down8(v), TimesXn(LowByte(v), 8));
  }

  lemma LowByteIndex(v: bv32)
    ensures 0 <= LowByte(v) as int < 256 && (LowByte(v) as int) as bv32 == LowByte(v)
  {
  }

  method TableByte(crc: bv32, b: bv8, crc_table: seq<bv32>) returns (r: bv32)
    requires CrcTable(crc_table)
    ensures r == ByteStep(crc, b)
  {
    hide Add, TimesXn, Down8, LowByte, ByteStep;
    var v := Add(crc, Wide(b));
    LowByteIndex(v);
    ByteAtOnce(v);
    ByteStepIs(crc, b);
    DownOfByte(crc, b);
    r := Add(Down8(crc), crc_table[LowByte(v) as int]);
  }

  lemma DownOfByte(crc: bv32, b: bv8)
    ensures Down8(Add(crc, Wide(b))) == Down8(crc)
  {
  }

  method TableBytes(crc0: bv32, buf: seq<bv8>, crc_table: seq<bv32>) returns (crc: bv32)
    requires CrcTable(crc_table)
    ensures crc == Update(crc0, buf)
  {
    hide ByteStep, CrcTable;
    crc := crc0;
    var i := 0;
    while i < |buf|
      invariant 0 <= i <= |buf| && Update(crc, buf[i..]) == Update(crc0, buf)
    {
      assert buf[i..][1..] == buf[i + 1..];
      crc := TableByte(crc, buf[i], crc_table);
      i := i + 1;
    }
  }

  // ---- Words, the first byte lowest ----

  // The number of bytes in a word: either that may be configured. The bits of a
  // shorter word are the low bits of a longer one.
  type WordSize = n: nat | n == 4 || n == 8 witness 8

  const W: WordSize

  // The number of bytes in n words.
  function Words(n: nat): nat {
    if W == 4 then 4 * n else 8 * n
  }

  lemma WordsIs(n: nat)
    ensures Words(n) == n * W
  {
  }

  // The number of braids: any of those that may be configured.
  type Braids = n: nat | 1 <= n <= 6 witness 5

  const N: Braids

  function WordXor(a: bv64, b: bv64): bv64 {
    a ^ b
  }

  function WordDown(w: bv64): bv64 {
    w >> 8
  }

  function WordByte(w: bv64): bv8 {
    (w & 0xff) as bv8
  }

  // A CRC as a word, and back.
  function WideWord(c: bv32): bv64 {
    c as bv64
  }

  function Narrow(w: bv64): bv32 {
    (w & 0xffff_ffff) as bv32
  }

  // The first n bytes of a word, and the word that bytes make up.
  function BytesOf(w: bv64, n: nat): (s: seq<bv8>)
    ensures |s| == n
    decreases n
  {
    if n == 0 then [] else [WordByte(w)] + BytesOf(WordDown(w), n - 1)
  }

  function Load(s: seq<bv8>): bv64 {
    if s == [] then 0 else Append(s[0], Load(s[1..]))
  }

  function Append(b: bv8, w: bv64): bv64 {
    (w << 8) | (b as bv64)
  }

  lemma AppendIs(b: bv8, w: bv64)
    requires w & 0xff00_0000_0000_0000 == 0
    ensures WordByte(Append(b, w)) == b && WordDown(Append(b, w)) == w
  {
  }

  lemma {:induction false} LoadBytes(s: seq<bv8>)
    requires |s| <= 8
    ensures BytesOf(Load(s), |s|) == s && SmallWord(Load(s), |s|)
  {
    if s != [] {
      LoadBytes(s[1..]);
      hide Append, WordByte, WordDown;
      SmallTop(Load(s[1..]), |s[1..]|);
      AppendIs(s[0], Load(s[1..]));
      SmallMore(s[0], Load(s[1..]), |s[1..]|);
    }
  }

  // No bits beyond n bytes.
  ghost predicate SmallWord(w: bv64, n: nat) {
    && (n == 0 ==> w == 0) && (n == 1 ==> w <= 0xff) && (n == 2 ==> w <= 0xffff)
    && (n == 3 ==> w <= 0xff_ffff) && (n == 4 ==> w <= 0xffff_ffff) && (n == 5 ==> w <= 0xff_ffff_ffff)
    && (n == 6 ==> w <= 0xffff_ffff_ffff) && (n == 7 ==> w <= 0xff_ffff_ffff_ffff)
  }

  lemma SmallTop(w: bv64, n: nat)
    requires SmallWord(w, n) && n <= 7
    ensures w & 0xff00_0000_0000_0000 == 0
  {
    assert w <= 0xff_ffff_ffff_ffff;
    SmallMask(w);
  }

  lemma SmallMask(w: bv64)
    requires w <= 0xff_ffff_ffff_ffff
    ensures w & 0xff00_0000_0000_0000 == 0
  {
  }

  lemma SmallMore(b: bv8, w: bv64, n: nat)
    requires SmallWord(w, n) && n <= 7
    ensures SmallWord(Append(b, w), n + 1)
  {
    AppendBound(b, w);
    hide Append;
  }

  lemma AppendBound(b: bv8, w: bv64)
    ensures w == 0 ==> Append(b, w) <= 0xff
    ensures w <= 0xff ==> Append(b, w) <= 0xffff
    ensures w <= 0xffff ==> Append(b, w) <= 0xff_ffff
    ensures w <= 0xff_ffff ==> Append(b, w) <= 0xffff_ffff
    ensures w <= 0xffff_ffff ==> Append(b, w) <= 0xff_ffff_ffff
    ensures w <= 0xff_ffff_ffff ==> Append(b, w) <= 0xffff_ffff_ffff
    ensures w <= 0xffff_ffff_ffff ==> Append(b, w) <= 0xff_ffff_ffff_ffff
  {
  }

  lemma WordShifts(a: bv64, b: bv64)
    ensures WordDown(WordXor(a, b)) == WordXor(WordDown(a), WordDown(b))
  {
  }

  lemma WordBytes(a: bv64, b: bv64)
    ensures Wide(WordByte(WordXor(a, b))) == Add(Wide(WordByte(a)), Wide(WordByte(b)))
  {
  }

  lemma WideWordIs(c: bv32)
    ensures WordDown(WideWord(c)) == WideWord(Down8(c)) && Wide(WordByte(WideWord(c))) == LowByte(c)
    ensures Narrow(WordXor(0, WideWord(c))) == c
    ensures WideWord(0) == 0 && WordDown(0) == 0 && Wide(WordByte(0)) == 0
  {
  }

  lemma WideWordAdds(a: bv32, b: bv32)
    ensures WordXor(WideWord(a), WideWord(b)) == WideWord(Add(a, b))
  {
  }

  lemma WordXorAssoc(a: bv64, b: bv64, c: bv64)
    ensures WordXor(WordXor(a, b), c) == WordXor(a, WordXor(b, c)) && WordXor(a, 0) == a && WordXor(0, a) == a
  {
  }

  // Feeding bytes is linear in the register and the bytes together.
  lemma {:induction false} WordsAdd(r: bv32, q: bv32, a: bv64, b: bv64, n: nat)
    ensures Update(Add(r, q), BytesOf(WordXor(a, b), n)) == Add(Update(r, BytesOf(a, n)), Update(q, BytesOf(b, n)))
    decreases n
  {
    hide Add, ByteStep, WordXor, WordDown, WordByte, Wide, TimesXn, Update, BytesOf;
    NoBytes(r, a);
    NoBytes(q, b);
    NoBytes(Add(r, q), WordXor(a, b));
    if n > 0 {
      var x, y := WordByte(a), WordByte(b);
      WordBytes(a, b);
      WordShifts(a, b);
      ByteStepIs(r, x);
      ByteStepIs(q, y);
      ByteStepIs(Add(r, q), WordByte(WordXor(a, b)));
      AddFour(r, q, Wide(x), Wide(y));
      TimesXnAdds(Add(r, Wide(x)), Add(q, Wide(y)), 8);
      WordsAdd(ByteStep(r, x), ByteStep(q, y), WordDown(a), WordDown(b), n - 1);
      FirstOf(a, n);
      FirstOf(b, n);
      FirstOf(WordXor(a, b), n);
      UpdateFirst(r, WordByte(a), BytesOf(WordDown(a), n - 1));
      UpdateFirst(q, WordByte(b), BytesOf(WordDown(b), n - 1));
      UpdateFirst(Add(r, q), WordByte(WordXor(a, b)), BytesOf(WordDown(WordXor(a, b)), n - 1));
    }
  }

  lemma NoBytes(r: bv32, w: bv64)
    ensures Update(r, BytesOf(w, 0)) == r
  {
  }

  lemma FirstOf(w: bv64, n: nat)
    requires n > 0
    ensures BytesOf(w, n) == [WordByte(w)] + BytesOf(WordDown(w), n - 1)
  {
  }

  lemma UpdateFirst(r: bv32, b: bv8, s: seq<bv8>)
    ensures Update(r, [b] + s) == Update(ByteStep(r, b), s)
  {
    assert ([b] + s)[1..] == s;
  }

  // ---- crc_word() ----

  // The CRC register c, and the bytes of rem still to come, in one word.
  ghost predicate WordState(data: bv64, rem: bv64, c: bv32) {
    data == WordXor(rem, WideWord(c))
  }

  lemma WordStep(data: bv64, rem: bv64, c: bv32, t: bv32)
    requires WordState(data, rem, c)
    requires t == TimesXn(Wide(WordByte(data)), 8)
    ensures WordState(WordXor(WordDown(data), WideWord(t)), WordDown(rem), ByteStep(c, WordByte(rem)))
  {
    hide Add, WordXor, WordDown, WordByte, WideWord, Wide, TimesXn, ByteStep, Down8, LowByte;
    var b := WordByte(rem);
    WordBytes(rem, WideWord(c));
    WideWordIs(c);
    ByteStepIs(c, b);
    AddSwap(Wide(b), LowByte(c));
    LowOfSum(c, b);
    ByteAtOnce(Add(c, Wide(b)));
    DownOfByte(c, b);
    WordShifts(rem, WideWord(c));
    WordXorAssoc(WordDown(rem), WideWord(Down8(c)), WideWord(t));
    WideWordAdds(Down8(c), t);
  }

  lemma LowOfSum(c: bv32, b: bv8)
    ensures LowByte(Add(c, Wide(b))) == Add(LowByte(c), Wide(b))
  {
  }

  lemma ByteIndex(b: bv8)
    ensures 0 <= b as int < 256 && (b as int) as bv32 == Wide(b)
  {
    hide *;
    WideNumber(b);
    NumberBack(Wide(b));
  }

  lemma WideNumber(b: bv8)
    ensures Wide(b) as int == b as int < 256
  {
  }

  lemma NumberBack(w: bv32)
    ensures (w as int) as bv32 == w
  {
  }

  // Nothing is left of a word when its bytes have been shifted out.
  lemma ShiftedWordOut(w: bv64)
    requires SmallWord(w, W)
    ensures WordShifted(w, W) == 0
  {
    assert WordShifted(w, 4) == WordDown(WordShifted(w, 3)) && WordShifted(w, 3) == WordDown(WordShifted(w, 2));
    assert WordShifted(w, 2) == WordDown(WordShifted(w, 1)) && WordShifted(w, 1) == WordDown(w);
    if W == 4 {
      hide WordDown, WordShifted;
      HalfWordOut(w);
    } else {
      assert WordShifted(w, 8) == WordDown(WordShifted(w, 7)) && WordShifted(w, 7) == WordDown(WordShifted(w, 6));
      assert WordShifted(w, 6) == WordDown(WordShifted(w, 5)) && WordShifted(w, 5) == WordDown(WordShifted(w, 4));
      hide WordDown, WordShifted;
      WordOut(w);
    }
  }

  lemma HalfWordOut(w: bv64)
    requires w <= 0xffff_ffff
    ensures WordDown(WordDown(WordDown(WordDown(w)))) == 0
  {
  }

  lemma WordOut(w: bv64)
    ensures WordDown(WordDown(WordDown(WordDown(WordDown(WordDown(WordDown(WordDown(w)))))))) == 0
  {
  }

  function WordShifted(w: bv64, n: nat): bv64 {
    if n == 0 then w else WordDown(WordShifted(w, n - 1))
  }

  lemma FeedLowest(w: bv64, c: bv32, k: nat)
    requires k < W
    ensures Update(c, BytesOf(WordShifted(w, k), W - k))
         == Update(ByteStep(c, WordByte(WordShifted(w, k))), BytesOf(WordShifted(w, k + 1), W - (k + 1)))
    ensures WordShifted(w, k + 1) == WordDown(WordShifted(w, k))
  {
    hide WordDown, WordByte, ByteStep, Update, BytesOf;
    var rem := WordShifted(w, k);
    FirstOf(rem, W - k);
    UpdateFirst(c, WordByte(rem), BytesOf(WordDown(rem), W - k - 1));
  }

  // Feed the W bytes of a word, the lowest first, through the table.
  method CrcWord(data0: bv64, crc_table: seq<bv32>) returns (crc: bv32)
    requires CrcTable(crc_table) && SmallWord(data0, W)
    ensures crc == Update(0, BytesOf(data0, W))
  {
    hide WordXor, WordDown, WordByte, WideWord, WordState, ByteStep, Narrow, Add, TimesXn, Update, BytesOf,
      WordShifted, SmallWord;
    var data := data0;
    var k := 0;
    ghost var c: bv32 := 0;
    WordStart(data0);
    NotShifted(data0);
    while k < W
      invariant 0 <= k <= W && WordState(data, WordShifted(data0, k), c)
      invariant Update(0, BytesOf(data0, W)) == Update(c, BytesOf(WordShifted(data0, k), W - k))
    {
      ghost var rem := WordShifted(data0, k);
      FeedLowest(data0, c, k);
      ByteIndex(WordByte(data));
      WordStep(data, rem, c, crc_table[WordByte(data) as int]);
      data := WordXor(WordDown(data), WideWord(crc_table[WordByte(data) as int]));
      c := ByteStep(c, WordByte(rem));
      k := k + 1;
    }
    ShiftedWordOut(data0);
    WordEnd(data, c);
    NoBytes(c, WordShifted(data0, W));
    crc := Narrow(data);
  }

  lemma NotShifted(w: bv64)
    ensures WordShifted(w, 0) == w
  {
  }

  lemma WordStart(data: bv64)
    ensures WordState(data, data, 0)
  {
    WideWordIs(0);
    WordXorAssoc(data, 0, 0);
    hide WordXor, WideWord;
  }

  lemma WordEnd(data: bv64, c: bv32)
    requires WordState(data, 0, c)
    ensures Narrow(data) == c
  {
    WideWordIs(c);
    hide WordXor, WideWord, Narrow;
  }

  // The register may be added to the first bytes of a word.
  lemma RegisterIntoWord(c: bv32, w: bv64)
    ensures Update(0, BytesOf(WordXor(w, WideWord(c)), W)) == Update(c, BytesOf(w, W))
  {
    hide Add, WordXor, WideWord, BytesOf, Update, Down8;
    WordsAdd(0, 0, w, WideWord(c), W);
    AddZero(0);
    WordXorAssoc(w, 0, 0);
    WordsAdd(0, c, w, 0, W);
    AddZero(c);
    WideWordIs(c);
    FitsFour(c);
    FitsFour(0);
    WideBytes(0, c, W);
    WideBytes(c, 0, W);
    AddSwap(0, c);
  }

  lemma FitsFour(c: bv32)
    ensures Down8(Down8(Down8(Down8(c)))) == 0
  {
  }

  // The bytes of a register as a word.
  lemma {:induction false} WideBytes(d: bv32, c: bv32, n: nat)
    requires (n == 0 ==> c == 0) && (n == 1 ==> Down8(c) == 0) && (n == 2 ==> Down8(Down8(c)) == 0)
    requires n == 3 ==> Down8(Down8(Down8(c))) == 0
    requires n == 4 ==> Down8(Down8(Down8(Down8(c)))) == 0
    ensures Update(d, BytesOf(WideWord(c), n)) == TimesXn(Add(d, c), 8 * n)
    decreases n
  {
    hide Add, WideWord, WordDown, WordByte, Wide, ByteStep, Down8, LowByte, TimesX;
    if n == 0 {
      AddZero(d);
    } else {
      WideWordIs(c);
      FirstOf(WideWord(c), n);
      hide BytesOf;
      UpdateFirst(d, WordByte(WideWord(c)), BytesOf(WordDown(WideWord(c)), n - 1));
      ByteStepIs(d, WordByte(WideWord(c)));
      FitsFour(Down8(c));
      WideBytes(ByteStep(d, WordByte(WideWord(c))), Down8(c), n - 1);
      LowByteApart(c);
      AddAssoc(d, LowByte(c), Up8(Down8(c)));
      TimesXnAdds(Add(d, LowByte(c)), Up8(Down8(c)), 8);
      UpperMovesDown(Down8(c));
      TimesXnSum(Add(d, c), 8, 8 * (n - 1));
    }
  }

  // ---- Braids: N words at a time, each with a register of its own ----

  // What byte number k of a word is worth when the next word of its braid, N
  // words later, starts.
  ghost predicate BraidTable(ltl: seq<seq<bv32>>) {
    && |ltl| == W
    && forall k :: 0 <= k < W ==> |ltl[k]| == 256 && BraidRow(ltl[k], k)
  }

  ghost predicate BraidRow(row: seq<bv32>, k: nat)
    requires k < W
  {
    |row| == 256 && forall i :: 0 <= i < 256 ==> row[i] == TimesXn(i as bv32, 8 * (Words(N) - k))
  }

  function HighByte(i: bv32): bv32 {
    i << 24
  }

  lemma HighByteDown(i: bv32)
    requires i < 256
    ensures Down8(Down8(Down8(HighByte(i)))) == i && HighByte(i) == Up8(Up8(Up8(i)))
    ensures i != 0 ==> HighByte(i) != 0
    ensures Down8(Up8(Up8(Up8(i)))) == Up8(Up8(i)) && Down8(Up8(Up8(i))) == Up8(i) && Down8(Up8(i)) == i
  {
  }

  // A byte times x^24 sits in the high byte.
  lemma HighByteIs(i: bv32)
    requires i < 256
    ensures TimesXn(HighByte(i), 24) == i
  {
    HighByteDown(i);
    hide HighByte, Down8, Up8, TimesXn;
    UpperMovesDown(Up8(Up8(i)));
    UpperMovesDown(Up8(i));
    UpperMovesDown(i);
    TimesXnSum(HighByte(i), 8, 16);
    TimesXnSum(Up8(Up8(i)), 8, 8);
  }

  lemma BraidEntry(i: bv32, m: nat)
    requires i < 256
    ensures Times(HighByte(i), TimesXn(ONE, 24 + m)) == TimesXn(i, m)
  {
    hide HighByte, TimesXn, Product;
    ProductXn(HighByte(i), ONE, 24 + m, 32);
    TimesOne(HighByte(i));
    HighByteIs(i);
    TimesXnSum(HighByte(i), 24, m);
  }

  lemma SmallIndex(i: nat)
    requires i < 256
    ensures i as bv32 < 256 && (i != 0 ==> i as bv32 != 0)
  {
  }

  // Generate the little-endian braid tables for n braids of words of w bytes.
  method Braid(n: nat, w: nat, x2n_table: seq<bv32>) returns (ltl: seq<seq<bv32>>)
    requires n == N && w == W && PowersTable(x2n_table)
    ensures BraidTable(ltl)
  {
    hide BraidRow;
    ltl := [];
    var k := 0;
    while k < w
      invariant 0 <= k <= w && |ltl| == k
      invariant forall j :: 0 <= j < k ==> |ltl[j]| == 256 && BraidRow(ltl[j], j)
    {
      var row := BraidOneRow(n, w, k, x2n_table);
      ltl := ltl + [row];
      k := k + 1;
    }
  }

  method BraidOneRow(n: nat, w: nat, k: nat, x2n_table: seq<bv32>) returns (row: seq<bv32>)
    requires n == N && w == W && k < w && PowersTable(x2n_table)
    ensures |row| == 256 && BraidRow(row, k)
  {
    hide TimesXn, Times, HighByte, PowersTable;
    WordsIs(N);
    ghost var m: nat := 8 * (Words(N) - k);
    var p := X2nModP((n * w + 3 - k) * 8, 0, x2n_table);
    assert p == TimesXn(ONE, 24 + m) by { ShlNone((n * w + 3 - k) * 8); }
    TimesXnZero(m);
    row := [0];
    var i := 1;
    while i < 256
      invariant 1 <= i <= 256 && |row| == i
      invariant forall j :: 0 <= j < i ==> row[j] == TimesXn(j as bv32, m)
    {
      SmallIndex(i);
      HighByteDown(i as bv32);
      BraidEntry(i as bv32, m);
      var q := MultModP(HighByte(i as bv32), p);
      row := row + [q];
      i := i + 1;
    }
  }

  lemma ShlNone(x: nat)
    ensures Shl(x, 0) == x
  {
  }

  // The first k bytes of a word are accounted for in crc; those of rem are not.
  ghost predicate Braiding(w: bv64, rem: bv64, crc: bv32, k: nat)
    requires k <= W
  {
    TimesXn(Update(0, BytesOf(w, W)), 8 * Words(N - 1))
      == Add(crc, TimesXn(Update(0, BytesOf(rem, W - k)), 8 * Words(N - 1)))
  }

  lemma BraidByte(w: bv64, rem: bv64, crc: bv32, k: nat)
    requires k < W && Braiding(w, rem, crc, k)
    ensures Braiding(w, WordDown(rem), Add(crc, TimesXn(Wide(WordByte(rem)), 8 * (Words(N) - k))), k + 1)
  {
    hide Add, TimesXn, WordDown, WordByte, Wide, ByteStep;
    var b, n := WordByte(rem), W - k;
    var rest := BytesOf(WordDown(rem), n - 1);
    FirstOf(rem, n);
    hide BytesOf;
    UpdateFirst(0, b, rest);
    ByteStepIs(0, b);
    AddZero(Wide(b));
    var t := TimesXn(Wide(b), 8);
    AddZero(t);
    UpdateAdds(0, t, rest);
    TimesXnSum(Wide(b), 8, 8 * |rest|);
    var x, y := Update(0, rest), TimesXn(Wide(b), 8 * n);
    var skip := 8 * Words(N - 1);
    TimesXnAdds(x, y, skip);
    TimesXnSum(Wide(b), 8 * n, skip);
    var u, v := TimesXn(x, skip), TimesXn(Wide(b), 8 * (Words(N) - k));
    AddSwap(u, v);
    AddAssoc(crc, v, u);
  }

  lemma BraidStart(w: bv64)
    ensures Braiding(w, w, 0, 0)
  {
    hide Add;
    AddZero(TimesXn(Update(0, BytesOf(w, W)), 8 * Words(N - 1)));
  }

  lemma BraidEnd(w: bv64, rem: bv64, crc: bv32)
    requires Braiding(w, rem, crc, W)
    ensures crc == TimesXn(Update(0, BytesOf(w, W)), 8 * Words(N - 1))
  {
    hide Add, TimesXn;
    TimesXnZero(8 * Words(N - 1));
    AddZero(crc);
    assert Update(0, BytesOf(rem, 0)) == 0;
  }

  // Compute the CRC of one word of a braid.
  method BraidWord(word: bv64, ltl: seq<seq<bv32>>) returns (crc: bv32)
    requires BraidTable(ltl)
    ensures crc == TimesXn(Update(0, BytesOf(word, W)), 8 * Words(N - 1))
  {
    hide Add, TimesXn, WordDown, WordByte, Wide, Braiding;
    crc := 0;
    var rem := word;
    var k := 0;
    BraidStart(word);
    while k < W
      invariant 0 <= k <= W && rem == WordShifted(word, k) && Braiding(word, rem, crc, k)
    {
      ByteIndex(WordByte(rem));
      BraidByte(word, rem, crc, k);
      assert BraidRow(ltl[k], k);
      crc := Add(crc, ltl[k][WordByte(rem) as int]);
      rem := WordDown(rem);
      k := k + 1;
    }
    BraidEnd(word, rem, crc);
  }

  // The register after the first j words of a block, when the registers c are
  // added to the words before them.
  function Inject(c: seq<bv32>, s: seq<bv8>, j: nat): bv32
    requires |c| == N && |s| == Words(N) && j <= N
  {
    if j == 0 then 0 else Update(Add(Inject(c, s, j - 1), c[j - 1]), s[Words(j - 1)..Words(j)])
  }

  // The same with nothing but zeros in the words.
  function InjectZero(c: seq<bv32>, j: nat): bv32
    requires |c| == N && j <= N
  {
    if j == 0 then 0 else TimesXn(Add(InjectZero(c, j - 1), c[j - 1]), 8 * W)
  }

  lemma {:induction false} InjectApart(c: seq<bv32>, s: seq<bv8>, j: nat)
    requires |c| == N && |s| == Words(N) && j <= N
    ensures Inject(c, s, j) == Add(Update(0, s[..Words(j)]), InjectZero(c, j))
  {
    hide Add, Update, TimesXn;
    if j == 0 {
      AddZero(0);
      assert s[..0] == [];
      UpdateNone(0, s[..0]);
    } else {
      InjectApart(c, s, j - 1);
      var before, word := s[..Words(j - 1)], s[Words(j - 1)..Words(j)];
      assert s[..Words(j)] == before + word;
      UpdateConcat(0, before, word);
      var u, z := Update(0, before), InjectZero(c, j - 1);
      AddAssoc(u, z, c[j - 1]);
      UpdateAdds(u, Add(z, c[j - 1]), word);
    }
  }

  // The registers after a block, one for each braid.
  ghost predicate Braided(c: seq<bv32>, s: seq<bv8>, d: seq<bv32>) {
    && |c| == |d| == N && |s| == Words(N)
    && forall j :: 0 <= j < N ==> BraidedAt(c, s, d, j)
  }

  ghost predicate BraidedAt(c: seq<bv32>, s: seq<bv8>, d: seq<bv32>, j: nat)
    requires |c| == |d| == N && |s| == Words(N) && j < N
  {
    d[j] == TimesXn(Update(c[j], s[Words(j)..Words(j) + W]), 8 * Words(N - 1))
  }

  lemma {:induction false} BraidedZero(c: seq<bv32>, s: seq<bv8>, d: seq<bv32>, j: nat)
    requires Braided(c, s, d) && j <= N
    ensures InjectZero(d, j) == TimesXn(Inject(c, s, j), 8 * Words(N))
  {
    hide Add, Update, TimesXn;
    if j == 0 {
      TimesXnZero(8 * Words(N));
    } else {
      BraidedZero(c, s, d, j - 1);
      assert BraidedAt(c, s, d, j - 1);
      var word := s[Words(j - 1)..Words(j)];
      assert word == s[Words(j - 1)..Words(j - 1) + W];
      var x, y := Inject(c, s, j - 1), c[j - 1];
      AddSwap(x, y);
      UpdateAdds(y, x, word);
      var skip, all, one := 8 * Words(N - 1), 8 * Words(N), 8 * W;
      TimesXnAdds(TimesXn(x, all), TimesXn(Update(y, word), skip), one);
      TimesXnSum(x, all, one);
      TimesXnSum(x, one, all);
      TimesXnSum(Update(y, word), skip, one);
      TimesXnAdds(Update(y, word), TimesXn(x, one), all);
      AddSwap(TimesXn(x, all + one), TimesXn(Update(y, word), all));
    }
  }

  // One block in braids and then another is both blocks in turn.
  lemma BlockStep(c: seq<bv32>, s: seq<bv8>, d: seq<bv32>, t: seq<bv8>)
    requires Braided(c, s, d) && |t| == Words(N)
    ensures Inject(d, t, N) == Update(Inject(c, s, N), t)
  {
    hide Add, Update, TimesXn, Inject, InjectZero, Braided;
    assert |c| == |d| == N && |s| == Words(N) by { BraidedSizes(c, s, d); }
    InjectApart(d, t, N);
    BraidedZero(c, s, d, N);
    assert t[..Words(N)] == t;
    var x := Inject(c, s, N);
    AddZero(x);
    UpdateAdds(0, x, t);
  }

  lemma BraidedSizes(c: seq<bv32>, s: seq<bv8>, d: seq<bv32>)
    requires Braided(c, s, d)
    ensures |c| == |d| == N && |s| == Words(N)
  {
  }

  // ---- crc32_z() ----

  lemma WordXorSwap(a: bv64, b: bv64)
    ensures WordXor(a, b) == WordXor(b, a)
  {
  }

  lemma RegisterIntoBytes(c: bv32, word: seq<bv8>)
    requires |word| == W
    ensures Update(0, BytesOf(WordXor(WideWord(c), Load(word)), W)) == Update(c, word)
  {
    hide WordXor, WideWord, Load, BytesOf, Update;
    LoadBytes(word);
    WordXorSwap(WideWord(c), Load(word));
    RegisterIntoWord(c, Load(word));
  }

  // After the data s, the registers c have the CRC begun with crc0 in them: it
  // comes out when a last block is injected.
  ghost predicate Pending(c: seq<bv32>, crc0: bv32, s: seq<bv8>) {
    |c| == N && forall t: seq<bv8> :: |t| == Words(N) ==> Inject(c, t, N) == Update(crc0, s + t)
  }

  // The registers to start with: the CRC is in the first one.
  function FirstRegisters(crc: bv32): (c: seq<bv32>)
    ensures |c| == N && c[0] == crc && forall i :: 1 <= i < N ==> c[i] == 0
  {
    [crc] + seq(N - 1, i => 0)
  }

  lemma {:induction false} InjectFirst(crc: bv32, t: seq<bv8>, j: nat)
    requires |t| == Words(N) && 1 <= j <= N
    ensures Inject(FirstRegisters(crc), t, j) == Update(crc, t[..Words(j)])
  {
    hide Add, Update;
    var c := FirstRegisters(crc);
    if j == 1 {
      AddZero(crc);
      assert Inject(c, t, 0) == 0;
      assert t[Words(0)..Words(1)] == t[..Words(1)];
    } else {
      InjectFirst(crc, t, j - 1);
      assert c[j - 1] == 0;
      AddZero(Inject(c, t, j - 1));
      UpdateConcat(crc, t[..Words(j - 1)], t[Words(j - 1)..Words(j)]);
      assert t[..Words(j)] == t[..Words(j - 1)] + t[Words(j - 1)..Words(j)];
    }
  }

  lemma PendingStart(crc: bv32, s: seq<bv8>)
    requires s == []
    ensures Pending(FirstRegisters(crc), crc, s)
  {
    hide Update, Inject;
    forall t: seq<bv8> | |t| == Words(N) ensures Inject(FirstRegisters(crc), t, N) == Update(crc, s + t) {
      InjectFirst(crc, t, N);
      assert t[..Words(N)] == t && s + t == t;
    }
  }

  lemma PendingStep(c: seq<bv32>, crc0: bv32, s: seq<bv8>, b: seq<bv8>, d: seq<bv32>)
    requires Pending(c, crc0, s) && Braided(c, b, d)
    ensures Pending(d, crc0, s + b)
  {
    assert |d| == N && |b| == Words(N) by { BraidedSizes(c, b, d); }
    hide Update, Inject, Braided;
    forall t: seq<bv8> | |t| == Words(N) ensures Inject(d, t, N) == Update(crc0, s + b + t) {
      BlockStep(c, b, d, t);
      UpdateConcat(crc0, s + b, t);
    }
  }

  // Compute the CRC of each braid independently for one block.
  method BraidBlock(c: seq<bv32>, block: seq<bv8>, ltl: seq<seq<bv32>>) returns (d: seq<bv32>)
    requires |c| == N && |block| == Words(N) && BraidTable(ltl)
    ensures Braided(c, block, d)
  {
    hide WordXor, WideWord, Load, BytesOf, Update, TimesXn, BraidTable;
    d := [];
    var j := 0;
    while j < N
      invariant 0 <= j <= N && |d| == j
      invariant forall i :: 0 <= i < j ==>
        d[i] == TimesXn(Update(c[i], block[Words(i)..Words(i) + W]), 8 * Words(N - 1))
    {
      var word := block[Words(j)..Words(j) + W];
      RegisterIntoBytes(c[j], word);
      var crc := BraidWord(WordXor(WideWord(c[j]), Load(word)), ltl);
      d := d + [crc];
      j := j + 1;
    }
    forall i | 0 <= i < N ensures BraidedAt(c, block, d, i) {
    }
  }

  // Join the N registers while the words of the final block are fed in.
  method LastBlock(c: seq<bv32>, block: seq<bv8>, crc_table: seq<bv32>) returns (crc: bv32)
    requires |c| == N && |block| == Words(N) && CrcTable(crc_table)
    ensures crc == Inject(c, block, N)
  {
    hide WordXor, WideWord, Load, BytesOf, Update, Add, CrcTable;
    crc := 0;
    var j := 0;
    while j < N
      invariant 0 <= j <= N && crc == Inject(c, block, j)
    {
      var word := block[Words(j)..Words(j) + W];
      AddIntoWord(c[j], crc, Load(word));
      LoadBytes(word);
      RegistersFit(c[j], Load(word), crc);
      RegisterIntoBytes(Add(crc, c[j]), word);
      assert word == block[Words(j + 1 - 1)..Words(j + 1)];
      crc := CrcWord(WordXor(WordXor(WideWord(c[j]), Load(word)), WideWord(crc)), crc_table);
      j := j + 1;
    }
  }

  lemma RegistersFit(c: bv32, w: bv64, crc: bv32)
    requires SmallWord(w, W)
    ensures SmallWord(WordXor(WordXor(WideWord(c), w), WideWord(crc)), W)
  {
    hide WordXor, WideWord;
    if W == 4 {
      HalfSmall(w);
      HalfWords(c, w, crc);
      HalfSmall(WordXor(WordXor(WideWord(c), w), WideWord(crc)));
    } else {
      WholeSmall(WordXor(WordXor(WideWord(c), w), WideWord(crc)));
    }
  }

  lemma HalfSmall(w: bv64)
    ensures SmallWord(w, 4) <==> w <= 0xffff_ffff
  {
  }

  lemma WholeSmall(w: bv64)
    ensures SmallWord(w, 8)
  {
  }

  lemma HalfWords(c: bv32, w: bv64, crc: bv32)
    requires w <= 0xffff_ffff
    ensures WordXor(WordXor(WideWord(c), w), WideWord(crc)) <= 0xffff_ffff
  {
  }

  lemma AddIntoWord(c: bv32, crc: bv32, w: bv64)
    ensures WordXor(WordXor(WideWord(c), w), WideWord(crc)) == WordXor(WideWord(Add(crc, c)), w)
  {
    WideWordAdds(crc, c);
    hide Add, WideWord;
    WordXorSwap(WordXor(WideWord(c), w), WideWord(crc));
    WordXorAssoc(WideWord(crc), WideWord(c), w);
  }

  method BraidBlocks(crc0: bv32, buf: seq<bv8>, blks0: nat, crc_table: seq<bv32>, ltl: seq<seq<bv32>>) returns (crc: bv32)
    requires blks0 >= 1 && |buf| == Mul(blks0, Words(N)) && CrcTable(crc_table) && BraidTable(ltl)
    ensures crc == Update(crc0, buf)
  {
    hide Update, Inject, Pending, Braided, CrcTable, BraidTable, Mul;
    var c := FirstRegisters(crc0);
    WordsIs(N);
    var size := N * W;
    var words, blks := 0, blks0 - 1;
    PendingStart(crc0, buf[..0]);
    MulOne(0, size);
    MulUpTo(1, blks0, size);
    while blks != 0
      invariant 0 <= blks < blks0 && words == Mul(blks0 - 1 - blks, size) && words + size <= |buf| && |c| == N
      invariant Pending(c, crc0, buf[..words])
    {
      var block := buf[words..words + size];
      var d := BraidBlock(c, block, ltl);
      BraidedSizes(c, block, d);
      PendingStep(c, crc0, buf[..words], block, d);
      assert buf[..words] + block == buf[..words + size];
      MulOne(blks0 - 1 - blks, size);
      MulUpTo(blks0 - blks + 1, blks0, size);
      MulOne(blks0 - blks, size);
      c := d;
      words := words + size;
      blks := blks - 1;
    }
    var block := buf[words..words + size];
    MulOne(blks0 - 1, size);
    PendingEnd(c, crc0, buf[..words], block);
    assert buf[..words] + block == buf;
    crc := LastBlock(c, block, crc_table);
  }

  function Mul(a: nat, b: nat): nat {
    a * b
  }

  lemma MulOne(a: nat, b: nat)
    ensures Mul(0, b) == 0 && Mul(a + 1, b) == Mul(a, b) + b
  {
  }

  lemma MulUpTo(a: nat, b: nat, c: nat)
    requires a <= b
    ensures Mul(a, c) <= Mul(b, c)
  {
    assert b * c == a * c + (b - a) * c;
  }

  lemma PendingEnd(c: seq<bv32>, crc0: bv32, s: seq<bv8>, t: seq<bv8>)
    requires Pending(c, crc0, s) && |t| == Words(N)
    ensures |c| == N && Inject(c, t, N) == Update(crc0, s + t)
  {
    hide Update, Inject;
  }

  // The CRC of buf, continued from crc0. addr is the address of buf: words are
  // read only from multiples of their size.
  method Crc32Z(crc0: bv32, buf: seq<bv8>, is_null: bool, addr: nat, crc_table: seq<bv32>, ltl: seq<seq<bv32>>)
      returns (r: bv32)
    requires CrcTable(crc_table) && BraidTable(ltl) && (is_null ==> buf == [])
    ensures r == if is_null then 0 else Crc(crc0, buf)
  {
    hide Update, Add, CrcTable, BraidTable, ByteStep, Gap, Mul;
    // the checksum of nothing
    if is_null { return 0; }
    // the initial complement
    var crc := Add(crc0, 0xffff_ffff);
    ghost var start := crc;
    var i := 0;
    UpdateNone(start, buf[..0]);
    // braids are worth while from here on
    WordsIs(N);
    if |buf| >= N * W + W - 1 {
      // single bytes, until words can be read
      GapIs(addr);
      while i < |buf| && (addr + i) % W != 0
        invariant 0 <= i <= |buf| && i <= Gap(addr) && crc == Update(start, buf[..i])
      {
        UpdateOneMore(start, buf, i);
        crc := TableByte(crc, buf[i], crc_table);
        i := i + 1;
      }
      // all full blocks of N words
      var blks := (|buf| - i) / (N * W);
      var end := i + Mul(blks, N * W);
      WholeBlocks(|buf| - i, N * W);
      UpdateConcat(start, buf[..i], buf[i..end]);
      assert buf[..i] + buf[i..end] == buf[..end];
      crc := BraidBlocks(crc, buf[i..end], blks, crc_table, ltl);
      i := end;
    }
    // what is left behind the blocks
    UpdateConcat(start, buf[..i], buf[i..]);
    assert buf[..i] + buf[i..] == buf;
    crc := TableBytes(crc, buf[i..], crc_table);
    // the final complement
    r := Add(crc, 0xffff_ffff);
  }

  // The number of bytes before the next multiple of the word size.
  function Gap(addr: nat): nat {
    if W == 4 then (4 - addr % 4) % 4 else (8 - addr % 8) % 8
  }

  lemma GapIs(addr: nat)
    ensures Gap(addr) < W && (addr + Gap(addr)) % W == 0
  {
    GapFour(addr);
    GapEight(addr);
  }

  lemma GapFour(addr: nat)
    ensures (addr + (4 - addr % 4) % 4) % 4 == 0
  {
  }

  lemma GapEight(addr: nat)
    ensures (addr + (8 - addr % 8) % 8) % 8 == 0
  {
  }

  lemma WholeBlocks(n: nat, size: nat)
    requires n >= size >= 1
    ensures n / size >= 1 && Mul(n / size, size) <= n
  {
    assert n == n / size * size + n % size && n % size < size;
  }

  lemma UpdateNone(r: bv32, s: seq<bv8>)
    requires s == []
    ensures Update(r, s) == r
  {
  }

  lemma UpdateOneMore(r: bv32, s: seq<bv8>, i: nat)
    requires i < |s|
    ensures Update(r, s[..i + 1]) == ByteStep(Update(r, s[..i]), s[i])
  {
    hide ByteStep;
    UpdateConcat(r, s[..i], [s[i]]);
    assert s[..i + 1] == s[..i] + [s[i]];
    UpdateFirst(Update(r, s[..i]), s[i], []);
    assert [s[i]] + [] == [s[i]];
  }

  // ---- crc32_combine64() ----

  // The CRC of a piece and the next is made from both CRCs.
  lemma CombineIsConcat(crc: bv32, s: seq<bv8>, t: seq<bv8>)
    ensures Crc(crc, s + t) == Add(TimesXn(Crc(crc, s), 8 * |t|), Crc(0, t))
  {
    hide Add, Update, TimesXn;
    var f: bv32 := 0xffff_ffff;
    var a := Update(Add(crc, f), s);
    UpdateConcat(Add(crc, f), s, t);
    AddZero(f);
    AddCancel(a, f);
    AddSwap(Add(a, f), f);
    UpdateAdds(f, Add(a, f), t);
    var x, y := Update(f, t), TimesXn(Add(a, f), 8 * |t|);
    AddSwap(x, y);
    AddAssoc(y, x, f);
  }

  lemma Shl3(n: nat)
    ensures Shl(n, 3) == 8 * n
  {
    assert Shl(n, 1) == 2 * n && Shl(n, 2) == 4 * n;
  }

  method Crc32Combine64(crc1: bv32, crc2: bv32, len2: nat, x2n_table: seq<bv32>) returns (r: bv32)
    requires PowersTable(x2n_table)
    ensures r == Add(TimesXn(crc1, 8 * len2), crc2)
  {
    hide TimesXn, Times, Shl, Add;
    var op := X2nModP(len2, 3, x2n_table);
    Shl3(len2);
    XnNonZero(8 * len2);
    XnTimes(8 * len2, crc1);
    var p := MultModP(op, crc1);
    r := Add(p, crc2);
  }
}
