// adler32.c: the Adler-32 checksum (section 8.2 of RFC 1950), with the modulo
// operations put off as long as 32 bits allow.
module Adler32 {
  import opened BitWriter

  const BASE: nat := 65521
  const NMAX: nat := 5552
  const MAX32: nat := 0xffff_ffff

  // ---- The definition: two sums modulo BASE, reduced after every byte ----

  function SumA(a: nat, s: seq<byte>): nat {
    if s == [] then a else (SumA(a, s[..|s| - 1]) + s[|s| - 1]) % BASE
  }

  function SumB(a: nat, b: nat, s: seq<byte>): nat {
    if s == [] then b else (SumB(a, b, s[..|s| - 1]) + SumA(a, s)) % BASE
  }

  // A checksum as one number, and its two sums.
  function Pack(a: nat, b: nat): nat {
    a + 65536 * b
  }

  function LowSum(adler: nat): nat {
    adler % 65536
  }

  function HighSum(adler: nat): nat {
    adler / 65536 % 65536
  }

  predicate Valid(adler: nat) {
    LowSum(adler) < BASE && HighSum(adler) < BASE
  }

  // The checksum of s, continued from adler; it starts with 1.
  function Adler(adler: nat, s: seq<byte>): nat {
    Pack(SumA(LowSum(adler), s), SumB(LowSum(adler), HighSum(adler), s))
  }

  lemma Unpack(a: nat, b: nat)
    requires a < 65536 && b < 65536
    ensures LowSum(Pack(a, b)) == a && HighSum(Pack(a, b)) == b
  {
  }

  // ---- Which number BASE has to be ----

  ghost predicate Prime(n: nat) {
    n >= 2 && forall d: nat, e: nat :: d >= 2 && e >= 2 ==> d * e != n
  }

  lemma NoSmallFactor(d: nat, e: nat)
    requires 2 <= d <= 255
    ensures d * e != 65521
  {
  }

  lemma ProductAtLeast(d: nat, e: nat)
    requires d >= 256 && e >= 256
    ensures d * e >= 65536
  {
    assert d * e == 256 * e + (d - 256) * e;
  }

  // The modulus of both sums is the largest prime below 65536 (section 8.2 of
  // RFC 1950).
  lemma LargestPrime(n: nat)
    requires n < 65536
    ensures Prime(BASE) && BASE < 65536
    ensures Prime(n) ==> n <= BASE
  {
    forall d: nat, e: nat | d >= 2 && e >= 2 ensures d * e != BASE {
      if d <= 255 {
        NoSmallFactor(d, e);
      } else if e <= 255 {
        NoSmallFactor(e, d);
        assert d * e == e * d;
      } else {
        ProductAtLeast(d, e);
      }
    }
    if n > BASE { Composite(n); }
  }

  lemma Composite(n: nat)
    requires 65521 < n < 65536
    ensures !Prime(n)
  {
    var d := if n % 2 == 0 then 2 else if n % 3 == 0 then 3 else if n % 5 == 0 then 5 else if n % 7 == 0 then 7
             else if n % 13 == 0 then 13 else 19;
    assert d * (n / d) == n;
  }

  // ---- The sums without any reduction ----

  function Plain1(a: nat, s: seq<byte>): nat {
    if s == [] then a else Plain1(a, s[..|s| - 1]) + s[|s| - 1]
  }

  function Plain2(a: nat, b: nat, s: seq<byte>): nat {
    if s == [] then b else Plain2(a, b, s[..|s| - 1]) + Plain1(a, s)
  }

  lemma ModAdd(x: int, y: int, m: int)
    requires m > 0
    ensures (x % m + y) % m == (x + y) % m
  {
    var q := x / m;
    assert x + y == (x % m + y) + q * m;
    ModShift(x % m + y, q, m);
  }

  lemma ModShift(x: int, q: int, m: int)
    requires m > 0
    ensures (x + q * m) % m == x % m
  {
    var k := x / m;
    assert (k + q) * m == k * m + q * m;
    ModIs(x + q * m, k + q, x % m, m);
  }

  lemma ModIs(x: int, q: int, r: int, m: int)
    requires m > 0 && x == q * m + r && 0 <= r < m
    ensures x % m == r
  {
    var d := x / m - q;
    assert x == (x / m) * m + x % m;
    assert d * m == (x / m) * m - q * m;
    MulSign(d, m);
  }

  lemma MulSign(d: int, m: int)
    requires m > 0
    ensures d >= 1 ==> d * m >= m
    ensures d <= -1 ==> d * m <= -m
  {
  }

  // Reducing at the end gives the same as reducing after every byte, and
  // reducing in between makes no difference.
  lemma {:induction false} PlainIsSum(a: nat, b: nat, s: seq<byte>)
    requires a < BASE && b < BASE
    ensures SumA(a, s) == Plain1(a, s) % BASE
    ensures SumB(a, b, s) == Plain2(a, b, s) % BASE
  {
    if s != [] {
      var front := s[..|s| - 1];
      PlainIsSum(a, b, front);
      ModAdd(Plain1(a, front), s[|s| - 1], BASE);
      ModAdd(Plain2(a, b, front), SumA(a, s), BASE);
      ModAdd(Plain1(a, s), Plain2(a, b, front), BASE);
    }
  }

  lemma {:induction false} SumConcat(a: nat, b: nat, s: seq<byte>, t: seq<byte>)
    ensures SumA(a, s + t) == SumA(SumA(a, s), t)
    ensures SumB(a, b, s + t) == SumB(SumA(a, s), SumB(a, b, s), t)
  {
    if t == [] {
      assert s + t == s;
    } else {
      assert (s + t)[..|s + t| - 1] == s + t[..|t| - 1];
      SumConcat(a, b, s, t[..|t| - 1]);
    }
  }

  // ---- No overflow within NMAX bytes ----

  // The largest value of the second sum after n bytes.
  function Largest(n: nat): nat {
    if n == 0 then BASE - 1 else Largest(n - 1) + (BASE - 1) + 255 * n
  }

  lemma {:induction false} PlainBound(a: nat, b: nat, s: seq<byte>)
    requires a < BASE && b < BASE
    ensures Plain1(a, s) <= BASE - 1 + 255 * |s|
    ensures Plain2(a, b, s) <= Largest(|s|)
  {
    if s != [] { PlainBound(a, b, s[..|s| - 1]); }
  }

  lemma {:induction false} LargestIs(n: nat)
    ensures 2 * Largest(n) == 2 * ((BASE - 1) * (n + 1)) + 255 * (n * (n + 1))
  {
    if n > 0 {
      LargestIs(n - 1);
      assert n * (n + 1) == (n - 1) * n + 2 * n;
      assert (BASE - 1) * (n + 1) == (BASE - 1) * n + (BASE - 1);
    }
  }

  lemma {:induction false} LargestMono(n: nat, m: nat)
    requires n <= m
    ensures Largest(n) <= Largest(m)
    decreases m
  {
    if n < m { LargestMono(n, m - 1); }
  }

  // NMAX bytes never overflow 32 bits ...
  lemma FitsNmax(a: nat, b: nat, s: seq<byte>)
    requires a < BASE && b < BASE && |s| <= NMAX
    ensures Plain1(a, s) <= MAX32 && Plain2(a, b, s) <= MAX32
  {
    PlainBound(a, b, s);
    LargestMono(|s|, NMAX);
    LargestIs(NMAX);
  }

  // The sums of bytes that are all 255.
  lemma {:induction false} FullBytes(a: nat, b: nat, n: nat, s: seq<byte>)
    requires |s| == n && forall i :: 0 <= i < n ==> s[i] == 255
    ensures Plain1(a, s) == a + 255 * n && 2 * Plain2(a, b, s) == 2 * b + 2 * (n * a) + 255 * (n * (n + 1))
  {
    if n > 0 {
      FullBytes(a, b, n - 1, s[..n - 1]);
      assert n * (n + 1) == (n - 1) * n + 2 * n && n * a == (n - 1) * a + a;
    }
  }

  // The checksum of 257 bytes 0xff: the first sum passes 65521 by 15.
  lemma FullBytesChecksum(s: seq<byte>)
    requires |s| == 257 && forall i :: 0 <= i < 257 ==> s[i] == 255
    ensures Adler(1, s) == 0x080f_000f
  {
    FullBytes(1, 0, 257, s);
    PlainIsSum(1, 0, s);
    assert LowSum(1) == 1 && HighSum(1) == 0;
  }

  // ... but one byte more can pass 32 bits, from the largest sums on.
  lemma NmaxIsLargest(s: seq<byte>)
    requires |s| == NMAX + 1 && forall i :: 0 <= i < |s| ==> s[i] == 255
    ensures Plain2(BASE - 1, BASE - 1, s) > MAX32
  {
    FullBytes(BASE - 1, BASE - 1, NMAX + 1, s);
  }

  // ---- adler32_z() ----

  // Add bytes from..to of buf to the sums, without reducing them.
  method AddBytes(a: nat, b: nat, buf: seq<byte>, from: nat, to: nat) returns (adler: nat, sum2: nat)
    requires a < BASE && b < BASE && from <= to <= |buf| && to - from <= NMAX
    ensures adler == Plain1(a, buf[from..to]) && sum2 == Plain2(a, b, buf[from..to])
    ensures adler <= MAX32 && sum2 <= MAX32
  {
    adler, sum2 := a, b;
    var i := from;
    while i < to
      invariant from <= i <= to
      invariant adler == Plain1(a, buf[from..i]) && sum2 == Plain2(a, b, buf[from..i])
      invariant adler <= MAX32 && sum2 <= MAX32
    {
      assert buf[from..i + 1][..i - from] == buf[from..i];
      FitsNmax(a, b, buf[from..i + 1]);
      adler := adler + buf[i];
      sum2 := sum2 + adler;
      i := i + 1;
    }
  }

  method Adler32Z(adler0: nat, buf: seq<byte>, is_null: bool) returns (r: nat)
    requires Valid(adler0) && (is_null ==> buf == [])
    ensures r == if is_null then 1 else Adler(adler0, buf)
  {
    hide SumA, SumB, Plain1, Plain2;
    // take the two sums apart
    var sum2, adler := HighSum(adler0), LowSum(adler0);
    ghost var a, b := adler, sum2;

    // one byte: each sum passes BASE at most once
    if |buf| == 1 {
      OneByte(a, b, buf);
      adler := adler + buf[0];
      if adler >= BASE { adler := adler - BASE; }
      sum2 := sum2 + adler;
      if sum2 >= BASE { sum2 := sum2 - BASE; }
      return Pack(adler, sum2);
    }

    // initial Adler-32 value
    if is_null {
      return 1;
    }

    // fewer than 16 bytes: the first sum still passes BASE at most once
    PlainIsSum(a, b, buf);
    assert buf[0..|buf|] == buf;
    if |buf| < 16 {
      PlainBound(a, b, buf);
      adler, sum2 := AddBytes(adler, sum2, buf, 0, |buf|);
      ShortMod(adler);
      if adler >= BASE { adler := adler - BASE; }
      sum2 := sum2 % BASE;
      return Pack(adler, sum2);
    }

    // runs of NMAX bytes, reduced once each
    var next := 0;
    SumsStart(a, b, buf[..0]);
    while |buf| - next >= NMAX
      invariant 0 <= next <= |buf|
      invariant adler == SumA(a, buf[..next]) && sum2 == SumB(a, b, buf[..next]) && adler < BASE && sum2 < BASE
    {
      PlainIsSum(adler, sum2, buf[next..next + NMAX]);
      SumConcat(a, b, buf[..next], buf[next..next + NMAX]);
      assert buf[..next] + buf[next..next + NMAX] == buf[..next + NMAX];
      adler, sum2 := AddBytes(adler, sum2, buf, next, next + NMAX);
      next := next + NMAX;
      adler, sum2 := adler % BASE, sum2 % BASE;
    }

    // the bytes behind the last full run of NMAX
    if next < |buf| {
      PlainIsSum(adler, sum2, buf[next..|buf|]);
      SumConcat(a, b, buf[..next], buf[next..|buf|]);
      assert buf[..next] + buf[next..|buf|] == buf;
      adler, sum2 := AddBytes(adler, sum2, buf, next, |buf|);
      adler, sum2 := adler % BASE, sum2 % BASE;
    } else {
      assert buf[..next] == buf;
    }
    r := Pack(adler, sum2);
  }

  lemma SumsStart(a: nat, b: nat, s: seq<byte>)
    requires s == []
    ensures SumA(a, s) == a && SumB(a, b, s) == b
  {
  }

  lemma ShortMod(x: nat)
    requires x < 2 * BASE
    ensures x % BASE == if x >= BASE then x - BASE else x
  {
  }

  lemma OneByte(a: nat, b: nat, s: seq<byte>)
    requires |s| == 1
    ensures SumA(a, s) == (a + s[0]) % BASE && SumB(a, b, s) == (b + SumA(a, s)) % BASE
  {
    assert s[..0] == [];
  }

  // ---- adler32_combine_() ----

  lemma {:induction false} PlainConcat(a: nat, b: nat, s: seq<byte>, t: seq<byte>)
    ensures Plain1(a, s + t) == Plain1(a, s) + Plain1(0, t)
    ensures Plain2(a, b, s + t) == Plain2(a, b, s) + Plain2(0, 0, t) + |t| * Plain1(a, s)
  {
    if t == [] {
      assert s + t == s;
    } else {
      var front := t[..|t| - 1];
      assert (s + t)[..|s + t| - 1] == s + front;
      PlainConcat(a, b, s, front);
      assert |t| * Plain1(a, s) == |front| * Plain1(a, s) + Plain1(a, s);
    }
  }

  lemma {:induction false} PlainFromOne(t: seq<byte>)
    ensures Plain1(1, t) == Plain1(0, t) + 1 && Plain2(1, 0, t) == Plain2(0, 0, t) + |t|
  {
    if t != [] { PlainFromOne(t[..|t| - 1]); }
  }

  lemma ModMul(x: int, y: int, m: int)
    requires m > 0
    ensures ((x % m) * (y % m)) % m == (x * y) % m
  {
    var r, q, k := x % m, x / m, y / m;
    assert x * y == r * y + (q * y) * m by {
      assert x == q * m + r;
      assert (q * m) * y == (q * y) * m;
    }
    ModShift(r * y, q * y, m);
    assert r * y == r * (y % m) + (r * k) * m by {
      assert y == k * m + y % m;
      assert r * (k * m) == (r * k) * m;
    }
    ModShift(r * (y % m), r * k, m);
  }

  // The two sums of the combined checksum, for sums a, b of the first piece,
  // c, d of the second, and n bytes in the second.
  function CombinedA(a: nat, c: nat): nat {
    (a + c + BASE - 1) % BASE
  }

  function CombinedB(a: nat, b: nat, d: nat, n: nat): nat {
    (n % BASE * a % BASE + b + d + BASE - n % BASE) % BASE
  }

  // Adler-32 of s + t from the checksums of s and of t, and the length of t.
  method Adler32Combine(adler1: nat, adler2: nat, len2: int) returns (r: nat)
    requires Valid(adler1) && Valid(adler2)
    ensures len2 < 0 ==> r == MAX32
    ensures len2 >= 0 ==>
      r == Pack(CombinedA(LowSum(adler1), LowSum(adler2)),
                CombinedB(LowSum(adler1), HighSum(adler1), HighSum(adler2), len2))
  {
    // no checksum has this value
    if len2 < 0 {
      return MAX32;
    }
    var rem := len2 % BASE;
    var sum1 := LowSum(adler1);
    ProductFits(rem, sum1);
    var sum2 := rem * sum1;
    sum2 := sum2 % BASE;
    sum1 := sum1 + LowSum(adler2) + BASE - 1;
    sum2 := sum2 + HighSum(adler1) + HighSum(adler2) + BASE - rem;
    SubtractMod(sum1, sum2);
    if sum1 >= BASE { sum1 := sum1 - BASE; }
    if sum1 >= BASE { sum1 := sum1 - BASE; }
    if sum2 >= 2 * BASE { sum2 := sum2 - 2 * BASE; }
    if sum2 >= BASE { sum2 := sum2 - BASE; }
    r := Pack(sum1, sum2);
  }

  lemma MulMono(x: nat, y: nat, z: nat)
    requires y <= z
    ensures x * y <= x * z
  {
    assert x * z == x * y + x * (z - y);
  }

  lemma ProductFits(x: nat, y: nat)
    requires x < BASE && y < BASE
    ensures x * y <= MAX32
  {
    MulMono(x, y, BASE - 1);
  }

  lemma SubtractMod(x: int, y: int)
    requires 0 <= x < 3 * BASE && 0 <= y < 4 * BASE
    ensures x % BASE == if x >= 2 * BASE then x - 2 * BASE else if x >= BASE then x - BASE else x
    ensures y % BASE == var z := if y >= 2 * BASE then y - 2 * BASE else y; if z >= BASE then z - BASE else z
  {
  }

  // What adler32_combine_() computes is the checksum of the two pieces put
  // together, wherever the checksum of the first piece started.
  lemma CombineIsConcat(adler0: nat, s: seq<byte>, t: seq<byte>)
    requires Valid(adler0)
    ensures var x, y := Adler(adler0, s), Adler(1, t);
      Valid(x) && Valid(y) &&
      Adler(adler0, s + t) ==
        Pack(CombinedA(LowSum(x), LowSum(y)), CombinedB(LowSum(x), HighSum(x), HighSum(y), |t|))
  {
    var a, b := LowSum(adler0), HighSum(adler0);
    Unpack(1, 0);
    assert LowSum(1) == 1 && HighSum(1) == 0;
    SumsBelow(a, b, s);
    SumsBelow(1, 0, t);
    Unpack(SumA(a, s), SumB(a, b, s));
    Unpack(SumA(1, t), SumB(1, 0, t));
    hide SumA, SumB, Pack, LowSum, HighSum, CombinedA, CombinedB;
    SumsOfConcat(a, b, s, t);
  }

  lemma SumsBelow(a: nat, b: nat, s: seq<byte>)
    requires a < BASE && b < BASE
    ensures SumA(a, s) < BASE && SumB(a, b, s) < BASE
  {
  }

  lemma SumsOfConcat(a: nat, b: nat, s: seq<byte>, t: seq<byte>)
    requires a < BASE && b < BASE
    ensures SumA(a, s + t) == CombinedA(SumA(a, s), SumA(1, t))
    ensures SumB(a, b, s + t) == CombinedB(SumA(a, s), SumB(a, b, s), SumB(1, 0, t), |t|)
  {
    hide SumA, SumB, Plain1, Plain2, CombinedA, CombinedB;
    PlainIsSum(a, b, s);
    PlainIsSum(1, 0, t);
    PlainIsSum(a, b, s + t);
    PlainConcat(a, b, s, t);
    PlainFromOne(t);
    CombineSums(Plain1(a, s), Plain2(a, b, s), Plain1(1, t), Plain2(1, 0, t), |t|);
  }

  lemma CombineSums(a: nat, b: nat, c: nat, d: nat, n: nat)
    requires c >= 1 && d >= n
    ensures (a + (c - 1)) % BASE == CombinedA(a % BASE, c % BASE)
    ensures (b + (d - n) + n * a) % BASE == CombinedB(a % BASE, b % BASE, d % BASE, n)
  {
    ModAdd(a, c % BASE + BASE - 1, BASE);
    ModAdd(c, a + BASE - 1, BASE);
    ModShift(a + c - 1, 1, BASE);
    ModMul(n, a, BASE);
    var p := n * a;
    ModAdd(p, b % BASE + d % BASE + BASE - n % BASE, BASE);
    ModAdd(b, p + d % BASE + BASE - n % BASE, BASE);
    ModAdd(d, p + b + BASE - n % BASE, BASE);
    var q := n / BASE;
    assert p + b + d + BASE - n % BASE == (p + b + d - n) + (q + 1) * BASE;
    ModShift(p + b + d - n, q + 1, BASE);
  }
}
