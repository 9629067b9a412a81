// Shifts, masks, bit reversal and bit strings over natural numbers: the
// arithmetic under DEFLATE's "least significant bit first" packing (section
// 3.1.1 of RFC 1951). Shr(x, n) is x >> n, Shl(x, n) is x << n and
// Low(x, n) is x & ((1 << n) - 1).
module Bits {

  function Pow2(n: nat): (r: nat)
    ensures r >= 1
  {
    if n == 0 then 1 else 2 * Pow2(n - 1)
  }

  function Shl(x: nat, n: nat): nat {
    if n == 0 then x else 2 * Shl(x, n - 1)
  }

  function Shr(x: nat, n: nat): nat {
    if n == 0 then x else Shr(x / 2, n - 1)
  }

  function Low(x: nat, n: nat): nat {
    if n == 0 then 0 else x % 2 + 2 * Low(x / 2, n - 1)
  }

  lemma {:induction false} Pow2Mono(a: nat, b: nat)
    requires a <= b
    ensures Pow2(a) <= Pow2(b)
    ensures a < b ==> 2 * Pow2(a) <= Pow2(b)
    decreases b
  {
    if a < b {
      Pow2Mono(a, b - 1);
    }
  }

  lemma Pow2Values()
    ensures Pow2(0) == 1 && Pow2(1) == 2 && Pow2(2) == 4 && Pow2(3) == 8 && Pow2(4) == 16
    ensures Pow2(5) == 32 && Pow2(6) == 64 && Pow2(7) == 128 && Pow2(8) == 256 && Pow2(9) == 512
    ensures Pow2(10) == 1024 && Pow2(11) == 2048 && Pow2(12) == 4096 && Pow2(13) == 8192
    ensures Pow2(14) == 16384 && Pow2(15) == 32768 && Pow2(16) == 65536
  {
    assert Pow2(4) == 16;
    assert Pow2(8) == 256;
    assert Pow2(12) == 4096;
  }

  // ---- Shifts and masks ----

  lemma {:induction false} Compose(x: nat, n: nat)
    ensures x == Low(x, n) + Shl(Shr(x, n), n)
    ensures Low(x, n) < Pow2(n)
  {
    if n > 0 {
      Compose(x / 2, n - 1);
    }
  }

  lemma {:induction false} ComposeUnique(q: nat, r: nat, n: nat)
    requires r < Pow2(n)
    ensures Low(r + Shl(q, n), n) == r
    ensures Shr(r + Shl(q, n), n) == q
  {
    if n > 0 {
      ComposeUnique(q, r / 2, n - 1);
      assert (r + Shl(q, n)) / 2 == r / 2 + Shl(q, n - 1);
    }
  }

  lemma LowSmall(x: nat, n: nat)
    requires x < Pow2(n)
    ensures Low(x, n) == x && Shr(x, n) == 0
  {
    ShlZero(n);
    ComposeUnique(0, x, n);
  }

  lemma {:induction false} ShlZero(n: nat)
    ensures Shl(0, n) == 0
  {
    if n > 0 { ShlZero(n - 1); }
  }

  lemma {:induction false} ShlOne(n: nat)
    ensures Shl(1, n) == Pow2(n)
  {
    if n > 0 { ShlOne(n - 1); }
  }

  lemma {:induction false} ShlAdd(x: nat, y: nat, n: nat)
    ensures Shl(x + y, n) == Shl(x, n) + Shl(y, n)
  {
    if n > 0 { ShlAdd(x, y, n - 1); }
  }

  lemma {:induction false} ShlMono(x: nat, y: nat, n: nat)
    ensures x <= y ==> Shl(x, n) <= Shl(y, n)
    ensures x < y ==> Shl(x, n) + Pow2(n) <= Shl(y, n)
  {
    if n > 0 { ShlMono(x, y, n - 1); }
  }

  lemma {:induction false} ShlShl(x: nat, a: nat, b: nat)
    ensures Shl(Shl(x, a), b) == Shl(x, a + b)
  {
    if b > 0 { ShlShl(x, a, b - 1); }
  }

  lemma {:induction false} ShlPow2(a: nat, b: nat)
    ensures Shl(Pow2(a), b) == Pow2(a + b)
  {
    if b > 0 { ShlPow2(a, b - 1); }
  }

  lemma {:induction false} ShrShr(x: nat, a: nat, b: nat)
    ensures Shr(Shr(x, a), b) == Shr(x, a + b)
  {
    if a > 0 { ShrShr(x / 2, a - 1, b); }
  }

  lemma {:induction false} ShrMono(x: nat, y: nat, n: nat)
    requires x <= y
    ensures Shr(x, n) <= Shr(y, n)
  {
    if n > 0 { ShrMono(x / 2, y / 2, n - 1); }
  }

  lemma {:induction false} ShrShl(x: nat, a: nat, b: nat)
    ensures Shr(Shl(x, a), a + b) == Shr(x, b)
    ensures Shr(Shl(x, a), a) == x
  {
    if a > 0 { ShrShl(x, a - 1, b); }
  }

  lemma {:induction false} ShrBound(x: nat, a: nat, b: nat)
    requires x < Pow2(a + b)
    ensures Shr(x, a) < Pow2(b)
  {
    if a > 0 { ShrBound(x / 2, a - 1, b); }
  }

  // Low bits of low bits.
  lemma {:induction false} LowLow(x: nat, a: nat, b: nat)
    requires a <= b
    ensures Low(Low(x, b), a) == Low(x, a)
    decreases b
  {
    if a > 0 { LowLow(x / 2, a - 1, b - 1); }
  }

  // A field taken from the middle: (x & mask(a + b)) >> a == (x >> a) & mask(b).
  lemma {:induction false} LowShr(x: nat, a: nat, b: nat)
    ensures Shr(Low(x, a + b), a) == Low(Shr(x, a), b)
    ensures Low(x, a + b) == Low(x, a) + Shl(Low(Shr(x, a), b), a)
    decreases a
  {
    if a > 0 { LowShr(x / 2, a - 1, b); }
  }

  lemma {:induction false} LowPlusShl(x: nat, y: nat, a: nat)
    ensures Low(x + Shl(y, a), a) == Low(x, a)
    ensures Shr(x + Shl(y, a), a) == Shr(x, a) + y
  {
    if a > 0 {
      LowPlusShl(x / 2, y, a - 1);
      assert (x + Shl(y, a)) / 2 == x / 2 + Shl(y, a - 1);
    }
  }

  // ---- Bit reversal ----

  // The n low bits of c, in the opposite order.
  function Rev(c: nat, n: nat): (r: nat)
  {
    if n == 0 then 0 else (if c % 2 == 1 then Pow2(n - 1) else 0) + Rev(c / 2, n - 1)
  }

  lemma {:induction false} RevBound(c: nat, n: nat)
    ensures Rev(c, n) < Pow2(n)
  {
    if n > 0 { RevBound(c / 2, n - 1); }
  }

  // Reading a code least significant bit first meets its most significant
  // bits first: the low k bits of the reversal are the reversed top k bits.
  lemma {:induction false} RevLow(c: nat, n: nat, k: nat)
    requires k <= n
    ensures Low(Rev(c, n), k) == Rev(Shr(c, n - k), k)
    decreases n
  {
    if k == n {
      RevBound(c, n);
      LowSmall(Rev(c, n), n);
    } else {
      RevLow(c / 2, n - 1, k);
      ShlPow2(n - 1 - k, k);
      LowPlusShl(Rev(c / 2, n - 1), Pow2(n - 1 - k), k);
    }
  }

  lemma {:induction false} RevInjective(c: nat, d: nat, n: nat)
    requires c < Pow2(n) && d < Pow2(n) && Rev(c, n) == Rev(d, n)
    ensures c == d
  {
    if n > 0 {
      RevBound(c / 2, n - 1);
      RevBound(d / 2, n - 1);
      RevInjective(c / 2, d / 2, n - 1);
    }
  }

  // Appending zero bits at the bottom of a code does not change its reversal.
  lemma {:induction false} RevShl(c: nat, n: nat, k: nat)
    ensures Rev(Shl(c, k), n + k) == Rev(c, n)
  {
    if k > 0 { RevShl(c, n, k - 1); }
  }

  // The first bit of the reversal is the last bit of the code.
  lemma {:induction false} RevTop(c: nat, n: nat)
    ensures Rev(c, n + 1) == 2 * Rev(c, n) + Shr(c, n) % 2
  {
    if n > 0 { RevTop(c / 2, n - 1); }
  }

  // Only the low n bits matter.
  lemma {:induction false} RevOfLow(c: nat, n: nat)
    ensures Rev(Low(c, n), n) == Rev(c, n)
  {
    if n > 0 { RevOfLow(c / 2, n - 1); }
  }

  // Reversing twice gives the low bits back.
  lemma {:induction false} RevRev(c: nat, n: nat)
    ensures Rev(Rev(c, n), n) == Low(c, n)
  {
    if n > 0 {
      RevTop(c, n - 1);
      RevRev(c, n - 1);
      LowTop(c, n - 1);
      assert Rev(c, n) / 2 == Rev(c, n - 1);
    }
  }

  lemma {:induction false} LowTop(c: nat, n: nat)
    ensures Low(c, n + 1) == Low(c, n) + (if Shr(c, n) % 2 == 1 then Pow2(n) else 0)
  {
    if n > 0 { LowTop(c / 2, n - 1); }
  }

  // ---- Bit strings ----

  // The n low bits of v, least significant bit first: the order in which a
  // number is packed into the stream.
  function BitsOf(v: nat, n: nat): (s: seq<bool>)
    ensures |s| == n
  {
    if n == 0 then [] else [v % 2 == 1] + BitsOf(v / 2, n - 1)
  }

  // The number whose bits, least significant first, are s.
  function Val(s: seq<bool>): nat
  {
    if s == [] then 0 else (if s[0] then 1 else 0) + 2 * Val(s[1..])
  }

  lemma {:induction false} ValBitsOf(v: nat, n: nat)
    ensures Val(BitsOf(v, n)) == Low(v, n)
  {
    if n > 0 {
      ValBitsOf(v / 2, n - 1);
      assert BitsOf(v, n)[1..] == BitsOf(v / 2, n - 1);
    }
  }

  lemma {:induction false} BitsOfSplit(v: nat, a: nat, b: nat)
    ensures BitsOf(v, a + b) == BitsOf(v, a) + BitsOf(Shr(v, a), b)
    decreases a
  {
    if a > 0 {
      BitsOfSplit(v / 2, a - 1, b);
      assert BitsOf(v, a + b) == [v % 2 == 1] + BitsOf(v / 2, a - 1 + b);
    } else {
      assert BitsOf(v, 0) + BitsOf(v, b) == BitsOf(v, b);
    }
  }

  lemma {:induction false} BitsOfLow(v: nat, n: nat)
    ensures BitsOf(Low(v, n), n) == BitsOf(v, n)
  {
    if n > 0 { BitsOfLow(v / 2, n - 1); }
  }

  lemma {:induction false} ValPrefix(s: seq<bool>, n: nat)
    requires n <= |s|
    ensures Low(Val(s), n) == Val(s[..n])
    ensures Shr(Val(s), n) == Val(s[n..])
    decreases n
  {
    if n > 0 {
      ValPrefix(s[1..], n - 1);
      assert s[..n][1..] == s[1..][..n - 1];
      assert s[n..] == s[1..][n - 1..];
    } else {
      assert s[0..] == s;
    }
  }
}
