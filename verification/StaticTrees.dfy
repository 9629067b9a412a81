// trees.c: tr_static_init(), the tables that do not depend on the data.
module StaticTrees {
  import opened Bits
  import opened CanonicalCode
  import opened Format
  import opened Heap
  import GenBitlen
  import opened Trees
  import opened BlockFormat

  // ---- Mapping lengths and distances to their codes ----

  lemma LastBaseIs(base: seq<nat>, x: nat, c: nat, k: nat)
    requires c <= k < |base| && base[0] <= x && base[c] <= x
    requires forall i :: c < i <= k ==> base[i] > x
    ensures LastBase(base, x, k) == c
  {
  }

  lemma LengthBases()
    ensures |BASE_LENGTH| == LENGTH_CODES && |EXTRA_LBITS| == LENGTH_CODES && BASE_LENGTH[0] == 0
    ensures forall i :: 0 <= i < 27 ==> BASE_LENGTH[i + 1] == BASE_LENGTH[i] + Pow2(EXTRA_LBITS[i])
    ensures BASE_LENGTH[27] + Pow2(EXTRA_LBITS[27]) == 256 && BASE_LENGTH[28] == 0
  {
    Pow2Values();
  }

  lemma DistBases()
    ensures |BASE_DIST| == D_CODES && |EXTRA_DBITS| == D_CODES && BASE_DIST[0] == 0 && BASE_DIST[16] == 256
    ensures forall i :: 0 <= i < 29 ==> BASE_DIST[i + 1] == BASE_DIST[i] + Pow2(EXTRA_DBITS[i])
    ensures BASE_DIST[29] + Pow2(EXTRA_DBITS[29]) == 32768
    ensures forall i :: 16 <= i < 30 ==> EXTRA_DBITS[i] >= 7
  {
    Pow2Values();
  }

  // Where the lengths, or distances, of code c start; the next code's start is
  // where they end.
  function LengthStart(c: nat): nat
    requires c <= 28
  {
    if c < 28 then BASE_LENGTH[c] else 256
  }

  function DistStart(c: nat): nat
    requires c <= 30
  {
    if c < 30 then BASE_DIST[c] else 32768
  }

  function LengthSpan(c: nat): nat
    requires c < 28
  {
    Pow2(EXTRA_LBITS[c])
  }

  function DistSpan(c: nat): nat
    requires c < 30
  {
    Pow2(EXTRA_DBITS[c])
  }

  lemma LengthRange(c: nat)
    requires c < 28
    ensures LengthStart(c) + LengthSpan(c) == LengthStart(c + 1) <= 256
    ensures forall x: nat :: LengthStart(c) <= x < LengthStart(c + 1) ==> LastBase(BASE_LENGTH, x, 27) == c
  {
    LengthBases();
    assert LengthStart(c) + LengthSpan(c) == LengthStart(c + 1) <= 256;
    assert forall i :: c < i < 28 ==> BASE_LENGTH[i] >= LengthStart(c + 1);
    assert LengthStart(c) == BASE_LENGTH[c];
    hide Pow2, LengthSpan, LengthStart, LastBase;
    forall x: nat | LengthStart(c) <= x < LengthStart(c + 1) ensures LastBase(BASE_LENGTH, x, 27) == c {
      LastBaseIs(BASE_LENGTH, x, c, 27);
    }
  }

  lemma {:induction false} DistStartMono(a: nat, b: nat)
    requires a <= b <= 30
    ensures DistStart(a) <= DistStart(b)
    decreases b
  {
    if a < b {
      DistStartMono(a, b - 1);
      assert DistStart(b - 1) <= DistStart(b);
    }
  }

  lemma DistRange(c: nat)
    requires c < 30
    ensures DistStart(c) + DistSpan(c) == DistStart(c + 1) <= 32768
    ensures forall x: nat :: DistStart(c) <= x < DistStart(c + 1) ==> DistCode(x) == c
  {
    DistBases();
    assert DistStart(c) + DistSpan(c) == DistStart(c + 1) <= 32768;
    assert forall i :: 0 <= i < 30 ==> DistStart(i) == BASE_DIST[i];
    hide Pow2, DistSpan, DistStart, LastBase;
    forall i: nat | c < i < 30 ensures BASE_DIST[i] >= DistStart(c + 1) {
      DistStartMono(c + 1, i);
    }
    forall x: nat | DistStart(c) <= x < DistStart(c + 1) ensures DistCode(x) == c {
      LastBaseIs(BASE_DIST, x, c, 29);
    }
  }

  // Give n entries from start on to a code; the end is where the next starts.
  method FillSpan(table: array<nat>, start: nat, n: nat, code: nat) returns (end: nat)
    requires start + n <= table.Length
    modifies table
    ensures end == start + n && forall i :: start <= i < end ==> table[i] == code
    ensures forall i :: 0 <= i < start || end <= i < table.Length ==> table[i] == old(table[i])
  {
    end := start;
    var k := 0;
    while k < n
      invariant 0 <= k <= n && end == start + k && forall i :: start <= i < end ==> table[i] == code
      invariant forall i :: 0 <= i < start || end <= i < table.Length ==> table[i] == old(table[i])
    {
      table[end] := code;
      end, k := end + 1, k + 1;
    }
  }

  // Mapping length (0..255) to length code (0..28).
  method InitLengthCodes() returns (base_length: array<nat>, length_code: array<nat>)
    ensures fresh(base_length) && base_length[..] == BASE_LENGTH
    ensures fresh(length_code) && length_code.Length == 256
    ensures forall lc :: 0 <= lc < 256 ==> length_code[lc] == LengthCode(lc)
  {
    LengthEnds();
    hide LengthStart, LengthSpan, LastBase;
    base_length := new nat[LENGTH_CODES];
    length_code := new nat[256];
    var length, code := 0, 0;
    base_length[28] := 0;
    while code < LENGTH_CODES - 1
      invariant 0 <= code <= 28 && length == LengthStart(code)
      invariant base_length[28] == 0 && forall i :: 0 <= i < code ==> base_length[i] == LengthStart(i)
      invariant forall i :: 0 <= i < length ==> length_code[i] == LastBase(BASE_LENGTH, i, 27)
    {
      base_length[code] := length;
      LengthRange(code);
      length := FillSpan(length_code, length, LengthSpan(code), code);
      code := code + 1;
    }
    length_code[length - 1] := code;
    assert base_length[..] == BASE_LENGTH by { LengthEnds(); }
  }

  lemma LengthEnds()
    ensures LengthStart(0) == 0 && LengthStart(28) == 256 && |BASE_LENGTH| == LENGTH_CODES && BASE_LENGTH[28] == 0
    ensures forall c :: 0 <= c < 28 ==> LengthStart(c) == BASE_LENGTH[c]
  {
  }

  lemma DistEnds()
    ensures DistStart(0) == 0 && DistStart(16) == 256 && DistStart(30) == 32768 && |BASE_DIST| == D_CODES
    ensures forall c :: 0 <= c < 30 ==> DistStart(c) == BASE_DIST[c]
  {
  }

  // d_code(): distances below 256 have an entry each, larger ones share an
  // entry with the others of the same 128.
  function DCode(dist_code: seq<nat>, dist: nat): nat
    requires |dist_code| == 512 && dist < 32768
  {
    if dist < 256 then dist_code[dist] else dist_code[256 + dist / 128]
  }

  // Distances from 128 k to 128 k + 127 have code c.
  ghost predicate SharedCode(c: nat, k: nat) {
    forall x: nat :: 128 * k <= x < 128 * k + 128 ==> DistCode(x) == c
  }

  ghost predicate Shared(dist_code: seq<nat>, from: nat, to: nat) {
    from <= to && 256 + to <= |dist_code| && forall k :: 256 + from <= k < 256 + to ==> SharedCode(dist_code[k], k - 256)
  }

  // Mapping dist (0..32K) to dist code (0..29).
  method InitDistCodes() returns (base_dist: array<nat>, dist_code: array<nat>)
    ensures fresh(base_dist) && base_dist[..] == BASE_DIST
    ensures fresh(dist_code) && dist_code.Length == 512
    ensures forall dist: nat :: dist < 32768 ==> DCode(dist_code[..], dist) == DistCode(dist)
  {
    DistEnds();
    hide DistCode, DistStart, DistSpan, SharedCode;
    base_dist := new nat[D_CODES];
    dist_code := new nat[512];
    var dist, code := 0, 0;
    while code < 16
      invariant 0 <= code <= 16 && dist == DistStart(code)
      invariant forall i :: 0 <= i < code ==> base_dist[i] == DistStart(i)
      invariant forall x :: 0 <= x < dist ==> dist_code[x] == DistCode(x)
    {
      base_dist[code] := dist;
      DistRange(code);
      DistStartGrows(code + 1);
      dist := FillSpan(dist_code, dist, DistSpan(code), code);
      code := code + 1;
    }
    InitLargeDists(base_dist, dist_code, dist / 128, code);
    assert base_dist[..] == BASE_DIST by { DistEnds(); }
    forall d: nat | d < 32768 ensures DCode(dist_code[..], d) == DistCode(d) {
      if d >= 256 {
        assert SharedCode(dist_code[..][256 + d / 128], 256 + d / 128 - 256);
        SharedIs(dist_code[256 + d / 128], d);
      }
    }
  }

  lemma SharedIs(c: nat, d: nat)
    requires SharedCode(c, d / 128)
    ensures DistCode(d) == c
  {
  }

  lemma DistStartGrows(c: nat)
    requires c <= 16
    ensures DistStart(c) <= 256
  {
  }

  // The second half of the table serves the distances in units of 128.
  method InitLargeDists(base_dist: array<nat>, dist_code: array<nat>, dist0: nat, code0: nat)
    requires base_dist != dist_code && base_dist.Length == D_CODES && dist_code.Length == 512 && dist0 == 2 && code0 == 16
    requires forall i :: 0 <= i < 16 ==> base_dist[i] == DistStart(i)
    modifies base_dist, dist_code
    ensures forall i :: 0 <= i < D_CODES ==> base_dist[i] == DistStart(i)
    ensures forall x :: 0 <= x < 256 ==> dist_code[x] == old(dist_code[x])
    ensures Shared(dist_code[..], 2, 256)
  {
    DistEnds();
    hide DistCode, DistStart, DistSpan, SharedCode;
    var dist, code := dist0, code0;
    while code < D_CODES
      invariant 16 <= code <= 30 && 2 <= dist && dist * 128 == DistStart(code)
      invariant forall i :: 0 <= i < code ==> base_dist[i] == DistStart(i)
      invariant forall x :: 0 <= x < 256 ==> dist_code[x] == old(dist_code[x])
      invariant Shared(dist_code[..], 2, dist)
    {
      base_dist[code] := dist * 128;
      LargeDistRange(code);
      var n := 0;
      var span := Pow2(EXTRA_DBITS[code] - 7);
      while n < span
        invariant 0 <= n <= span && 2 <= dist && dist * 128 == DistStart(code) + 128 * n
        invariant forall i :: 0 <= i <= code ==> base_dist[i] == DistStart(i)
        invariant forall x :: 0 <= x < 256 ==> dist_code[x] == old(dist_code[x])
        invariant Shared(dist_code[..], 2, dist)
      {
        LargeDist(code, dist);
        dist_code[256 + dist] := code;
        dist, n := dist + 1, n + 1;
      }
      code := code + 1;
    }
  }

  lemma LargeDistRange(c: nat)
    requires 16 <= c < 30
    ensures EXTRA_DBITS[c] >= 7
    ensures DistStart(c) + 128 * Pow2(EXTRA_DBITS[c] - 7) == DistStart(c + 1) <= 32768
    ensures DistStart(c) % 128 == 0 && DistStart(c + 1) % 128 == 0
  {
    DistRange(c);
    DistBases();
    PowSplit7(EXTRA_DBITS[c]);
    hide DistCode, Pow2;
    assert DistStart(c) % 128 == 0 && DistStart(c + 1) % 128 == 0;
  }

  lemma PowSplit7(n: nat)
    requires n >= 7
    ensures 128 * Pow2(n - 7) == Pow2(n)
  {
    assert 2 * Pow2(n - 7) == Pow2(n - 6);
    assert 4 * Pow2(n - 6) == Pow2(n - 4);
    assert 4 * Pow2(n - 4) == Pow2(n - 2);
  }

  lemma LargeDist(c: nat, k: nat)
    requires 16 <= c < 30 && DistStart(c) <= 128 * k < DistStart(c + 1)
    ensures SharedCode(c, k)
  {
    LargeDistRange(c);
    DistRange(c);
    hide DistCode, DistStart, Pow2;
  }

  // ---- The fixed codes ----

  lemma {:induction false} KraftSpan(lens: seq<nat>, a: nat, b: nat, l: nat)
    requires LengthsInRange(lens) && a <= b <= |lens| && 1 <= l <= MAXBITS
    requires forall i :: a <= i < b ==> lens[i] == l
    ensures KraftTo(lens, b) == KraftTo(lens, a) + Shl(b - a, MAXBITS - l)
    decreases b
  {
    if a == b {
      ShlZero(MAXBITS - l);
    } else {
      KraftSpan(lens, a, b - 1, l);
      ShlAdd(b - 1 - a, 1, MAXBITS - l);
      ShlOne(MAXBITS - l);
    }
  }

  lemma FixedComplete()
    ensures Complete(FixedLitLens())
  {
    hide Complete;
    FixedKraft(FixedLitLens());
  }

  lemma FixedKraft(lens: seq<nat>)
    requires |lens| == 288 && forall i :: 0 <= i < 288 ==> lens[i] == FixedLen(i)
    ensures Complete(lens)
  {
    assert Pow2(15) == 32768 by { Pow2Values(); }
    FixedShifts();
    assert KraftTo(lens, 0) == 0;
    hide KraftTo, Shl, Pow2;
    KraftSpan(lens, 0, 144, 8);
    KraftSpan(lens, 144, 256, 9);
    KraftSpan(lens, 256, 280, 7);
    KraftSpan(lens, 280, 288, 8);
  }

  lemma FixedShifts()
    ensures Shl(144, 7) == 18432 && Shl(112, 6) == 7168 && Shl(24, 8) == 6144 && Shl(8, 7) == 1024
  {
    assert Shl(144, 4) == 2304;
    assert Shl(112, 3) == 896;
    assert Shl(24, 4) == 384;
    assert Shl(8, 4) == 128;
  }

  ghost predicate FiveBits(lens: seq<nat>) {
    |lens| <= 32 && forall i :: 0 <= i < |lens| ==> lens[i] == 5
  }

  lemma {:induction false} FiveBitCounts(lens: seq<nat>, l: nat, m: nat)
    requires FiveBits(lens) && m <= |lens|
    ensures CountTo(lens, l, m) == if l == 5 then m else 0
  {
    if m > 0 { FiveBitCounts(lens, l, m - 1); }
  }

  lemma {:induction false} FiveBitFirst(lens: seq<nat>, l: nat)
    requires FiveBits(lens) && l <= 5
    ensures FirstCode(lens, l) == 0
  {
    if l > 1 {
      FiveBitFirst(lens, l - 1);
      FiveBitCounts(lens, l - 1, |lens|);
    }
  }

  // The five-bit distance codes are the distance code numbers themselves.
  lemma FiveBitCode(lens: seq<nat>, n: nat)
    requires FiveBits(lens) && n < |lens|
    ensures StreamCode(lens, n) == Rev(n, 5)
  {
    FiveBitFirst(lens, 5);
    FiveBitCounts(lens, 5, n);
  }

  lemma FiveBitKraft(lens: seq<nat>)
    requires FiveBits(lens)
    ensures Prefixed(lens) && (|lens| == 32 ==> Complete(lens))
  {
    assert Pow2(15) == 32768 by { Pow2Values(); }
    FiveBitShift(|lens|);
    assert KraftTo(lens, 0) == 0;
    hide KraftTo, Shl, Pow2;
    KraftSpan(lens, 0, |lens|, 5);
  }

  lemma FiveBitShift(n: nat)
    ensures Shl(n, 10) == 1024 * n
  {
    assert Shl(n, 1) == 2 * n && Shl(n, 2) == 2 * Shl(n, 1);
    assert Shl(n, 3) == 2 * Shl(n, 2) && Shl(n, 4) == 2 * Shl(n, 3);
    assert Shl(n, 5) == 2 * Shl(n, 4) && Shl(n, 6) == 2 * Shl(n, 5);
    assert Shl(n, 7) == 2 * Shl(n, 6) && Shl(n, 8) == 2 * Shl(n, 7);
    assert Shl(n, 9) == 2 * Shl(n, 8) && Shl(n, 10) == 2 * Shl(n, 9);
  }

  method InitFixedLits() returns (static_ltree: array<CtData>)
    ensures fresh(static_ltree) && static_ltree.Length == L_CODES + 2
    ensures HasCodes(static_ltree[..], FixedLitLens())
  {
    hide CountTo, Complete, Kraft;
    ghost var lens := FixedLitLens();
    static_ltree := new CtData[L_CODES + 2](_ => CtData(0, 0));
    var bl_count := new nat[GenBitlen.MAX_BITS + 1](_ => 0);
    var n := 0;
    NoneCounted(lens);
    while n <= 287
      invariant 0 <= n <= 288
      invariant forall i :: 0 <= i < n ==> static_ltree[i].dl == FixedLen(i)
      invariant forall b :: 0 <= b <= GenBitlen.MAX_BITS ==> bl_count[b] == CountTo(lens, b, n)
    {
      CountStep(lens, n);
      static_ltree[n] := static_ltree[n].(dl := FixedLen(n));
      bl_count[FixedLen(n)] := bl_count[FixedLen(n)] + 1;
      n := n + 1;
    }
    assert SymbolLens(static_ltree[..], L_CODES + 2) == lens;
    FixedComplete();
    CompleteIsPrefixed(lens);
    NoneZero(lens, 288);
    GenCodes(static_ltree, L_CODES + 1, bl_count);
  }

  lemma {:induction false} NoneZero(lens: seq<nat>, m: nat)
    requires m <= |lens| && forall i :: 0 <= i < |lens| ==> lens[i] > 0
    ensures CountTo(lens, 0, m) == 0
  {
    if m > 0 { NoneZero(lens, m - 1); }
  }

  method InitFixedDists() returns (static_dtree: array<CtData>)
    ensures fresh(static_dtree) && static_dtree.Length == D_CODES
    ensures HasCodes(static_dtree[..], FixedDistLens())
  {
    hide StreamCode, Rev;
    static_dtree := new CtData[D_CODES](_ => CtData(0, 0));
    var n := 0;
    while n < D_CODES
      invariant 0 <= n <= D_CODES
      invariant forall i :: 0 <= i < n ==> static_dtree[i] == CtData(StreamCode(FixedDistLens(), i), 5)
    {
      var code := BiReverse(n, 5);
      FiveBitCode(FixedDistLens(), n);
      static_dtree[n] := CtData(code, 5);
      n := n + 1;
    }
  }
}
