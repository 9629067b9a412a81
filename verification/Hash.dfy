// deflate.c: the rolling hash of three bytes.
module Hash {
  import opened Bits
  import opened BitWriter

  // Exclusive or of numbers.
  function Xor(x: nat, y: nat): nat
    decreases x + y
  {
    if x == 0 && y == 0 then 0 else (if x % 2 == y % 2 then 0 else 1) + 2 * Xor(x / 2, y / 2)
  }

  lemma {:induction false} XorZero(x: nat)
    ensures Xor(x, 0) == x && Xor(0, x) == x && Xor(x, x) == 0
  {
    if x > 0 { XorZero(x / 2); }
  }

  lemma {:induction false} XorSame(a: nat, x: nat, y: nat)
    requires Xor(a, x) == Xor(a, y)
    ensures x == y
    decreases a + x + y
  {
    if a != 0 || x != 0 || y != 0 {
      XorParity(a, x);
      XorParity(a, y);
      XorSame(a / 2, x / 2, y / 2);
    }
  }

  lemma XorParity(x: nat, y: nat)
    ensures Xor(x, y) % 2 == (if x % 2 == y % 2 then 0 else 1) && Xor(x, y) / 2 == Xor(x / 2, y / 2)
  {
  }

  lemma {:induction false} XorLow(x: nat, y: nat, n: nat)
    ensures Low(Xor(x, y), n) == Xor(Low(x, n), Low(y, n))
  {
    if n > 0 {
      XorParity(x, y);
      XorLow(x / 2, y / 2, n - 1);
      XorParity(Low(x, n), Low(y, n));
      XorMake(Low(x, n), Low(y, n));
    }
  }

  lemma XorMake(x: nat, y: nat)
    ensures Xor(x, y) == (if x % 2 == y % 2 then 0 else 1) + 2 * Xor(x / 2, y / 2)
  {
  }

  lemma {:induction false} XorShl(x: nat, y: nat, n: nat)
    ensures Shl(Xor(x, y), n) == Xor(Shl(x, n), Shl(y, n))
  {
    if n > 0 {
      XorShl(x, y, n - 1);
      XorMake(Shl(x, n), Shl(y, n));
    }
  }

  // ---- UPDATE_HASH() ----

  function HashShift(hash_bits: nat): nat {
    (hash_bits + 2) / 3
  }

  function UpdateHash(h: nat, c: byte, hash_bits: nat): nat {
    Low(Xor(Shl(h, HashShift(hash_bits)), c), hash_bits)
  }

  lemma HashBound(h: nat, c: byte, hash_bits: nat)
    ensures UpdateHash(h, c, hash_bits) < Pow2(hash_bits)
  {
    Compose(Xor(Shl(h, HashShift(hash_bits)), c), hash_bits);
  }

  // The hash of two and of three bytes.
  function Hash2(a: byte, b: byte, hash_bits: nat): nat {
    UpdateHash(a, b, hash_bits)
  }

  function Hash3(a: byte, b: byte, c: byte, hash_bits: nat): nat {
    UpdateHash(Hash2(a, b, hash_bits), c, hash_bits)
  }

  // What of a hash is left after the next byte: hashes that agree in this are
  // as good as each other.
  function Rest(h: nat, hash_bits: nat): nat {
    Low(Shl(h, HashShift(hash_bits)), hash_bits)
  }

  lemma UpdateByRest(h: nat, g: nat, c: byte, hash_bits: nat)
    requires Rest(h, hash_bits) == Rest(g, hash_bits)
    ensures UpdateHash(h, c, hash_bits) == UpdateHash(g, c, hash_bits)
  {
    hide Low, Shl, Xor;
    XorLow(Shl(h, HashShift(hash_bits)), c, hash_bits);
    XorLow(Shl(g, HashShift(hash_bits)), c, hash_bits);
  }

  // Bits above the mask do not come back.
  lemma {:induction false} LowShl(x: nat, s: nat, n: nat)
    ensures Low(Shl(Low(x, n), s), n) == Low(Shl(x, s), n)
    decreases s
  {
    if s == 0 {
      LowLow(x, n, n);
    } else if n > 0 {
      var y := Shl(x, s - 1);
      var z := Shl(Low(x, n), s - 1);
      LowShl(x, s - 1, n);
      LowTwice(y, n);
      LowTwice(z, n);
    }
  }

  // Low(2 y, n) depends only on Low(y, n).
  lemma LowTwice(y: nat, n: nat)
    requires n > 0
    ensures Low(2 * y, n) == 2 * Low(y, n - 1) && Low(y, n - 1) == Low(Low(y, n), n - 1)
  {
    LowLow(y, n - 1, n);
  }

  lemma {:induction false} ShlOut(x: nat, s: nat, n: nat)
    requires s >= n
    ensures Low(Shl(x, s), n) == 0
    decreases n
  {
    if n > 0 {
      ShlOut(x, s - 1, n - 1);
      assert Shl(x, s) / 2 == Shl(x, s - 1);
    }
  }

  // Rolling: after three more bytes nothing is left of what was before, so the
  // hash of the three bytes at the next place comes out.
  lemma Roll(a: byte, b: byte, c: byte, hash_bits: nat)
    ensures Rest(Hash3(a, b, c, hash_bits), hash_bits) == Rest(Hash2(b, c, hash_bits), hash_bits)
  {
    hide Low, Shl, Xor;
    var s, n := HashShift(hash_bits), hash_bits;
    // Rest(Hash3) is Low of ((a << 3 s) ^ (b << 2 s) ^ (c << s))
    RestUpdate(Hash2(a, b, n), c, n);
    RestUpdate(b, c, n);
    RestOfHash2(a, b, n);
  }

  lemma RestUpdate(h: nat, c: byte, n: nat)
    ensures Rest(UpdateHash(h, c, n), n) == Xor(Low(Shl(Shl(h, HashShift(n)), HashShift(n)), n), Low(Shl(c, HashShift(n)), n))
  {
    hide Low, Shl, Xor;
    var s := HashShift(n);
    var x := Xor(Shl(h, s), c);
    LowShl(x, s, n);
    XorShl(Shl(h, s), c, s);
    XorLow(Shl(Shl(h, s), s), Shl(c, s), n);
  }

  lemma RestOfHash2(a: byte, b: byte, n: nat)
    ensures Low(Shl(Shl(Hash2(a, b, n), HashShift(n)), HashShift(n)), n) == Low(Shl(Shl(b, HashShift(n)), HashShift(n)), n)
  {
    hide Low, Shl, Xor;
    var s := HashShift(n);
    var x := Xor(Shl(a, s), b);
    ShlShl(Hash2(a, b, n), s, s);
    ShlShl(b, s, s);
    LowShl(x, s + s, n);
    XorShl(Shl(a, s), b, s + s);
    ShlShl(a, s, s + s);
    XorLow(Shl(a, s + s + s), Shl(b, s + s), n);
    assert s + s + s >= n;
    ShlOut(a, s + s + s, n);
    XorZero(Low(Shl(b, s + s), n));
  }

  // With at least eight bits, equal hashes of strings whose first two bytes are
  // equal mean that the third bytes are equal too.
  lemma ThirdByte(a: byte, b: byte, c: byte, d: byte, hash_bits: nat)
    requires hash_bits >= 8 && Hash3(a, b, c, hash_bits) == Hash3(a, b, d, hash_bits)
    ensures c == d
  {
    var h, n := Shl(Hash2(a, b, hash_bits), HashShift(hash_bits)), hash_bits;
    Pow2Values();
    Pow2Mono(8, n);
    hide Low, Shl, Xor, Pow2;
    XorLow(h, c, n);
    XorLow(h, d, n);
    LowSmall(c, n);
    LowSmall(d, n);
    XorSame(Low(h, n), c, d);
  }
}
