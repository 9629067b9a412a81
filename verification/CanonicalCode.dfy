// The canonical Huffman code of a list of code lengths, as section 3.2.2 of
// RFC 1951 defines it. lens[s] is the length of symbol s, zero when the
// symbol has no code.
module CanonicalCode {
  import opened Bits

  const MAXBITS: nat := 15

  ghost predicate LengthsInRange(lens: seq<nat>) {
    forall s :: 0 <= s < |lens| ==> lens[s] <= MAXBITS
  }

  // How many of the first m symbols have length l.
  function CountTo(lens: seq<nat>, l: nat, m: nat): (c: nat)
    requires m <= |lens|
    ensures c <= m
  {
    if m == 0 then 0 else CountTo(lens, l, m - 1) + (if lens[m - 1] == l then 1 else 0)
  }

  function Count(lens: seq<nat>, l: nat): nat {
    CountTo(lens, l, |lens|)
  }

  // The first code of length l: codes of one length are consecutive, and
  // start where those of the previous length stopped, with a zero appended.
  function FirstCode(lens: seq<nat>, l: nat): nat {
    if l <= 1 then 0 else 2 * (FirstCode(lens, l - 1) + Count(lens, l - 1))
  }

  // The code of symbol s, as a number of lens[s] bits, most significant first.
  function CodeOf(lens: seq<nat>, s: nat): nat
    requires s < |lens|
  {
    FirstCode(lens, lens[s]) + CountTo(lens, lens[s], s)
  }

  // The same code in the order in which its bits enter the stream.
  function StreamCode(lens: seq<nat>, s: nat): nat
    requires s < |lens|
  {
    Rev(CodeOf(lens, s), lens[s])
  }

  // The number of unused codes of length l (negative when over-subscribed).
  function Left(lens: seq<nat>, l: nat): int {
    if l == 0 then 1 else 2 * Left(lens, l - 1) - Count(lens, l)
  }

  // The Kraft sum, in units of 2 to the -15.
  function KraftTo(lens: seq<nat>, m: nat): nat
    requires m <= |lens|
    requires LengthsInRange(lens)
  {
    if m == 0 then 0
    else KraftTo(lens, m - 1) + (if lens[m - 1] == 0 then 0 else Pow2(MAXBITS - lens[m - 1]))
  }

  function Kraft(lens: seq<nat>): nat
    requires LengthsInRange(lens)
  {
    KraftTo(lens, |lens|)
  }

  ghost predicate Prefixed(lens: seq<nat>) {
    LengthsInRange(lens) && Kraft(lens) <= Pow2(MAXBITS)
  }

  ghost predicate Complete(lens: seq<nat>) {
    LengthsInRange(lens) && Kraft(lens) == Pow2(MAXBITS)
  }

  // ---- Counting ----

  lemma {:induction false} CountMono(lens: seq<nat>, l: nat, a: nat, b: nat)
    requires a <= b <= |lens|
    ensures CountTo(lens, l, a) <= CountTo(lens, l, b)
    ensures a < b && lens[a] == l ==> CountTo(lens, l, a) < CountTo(lens, l, b)
    decreases b
  {
    if a < b {
      CountMono(lens, l, a, b - 1);
    }
  }

  lemma RankBound(lens: seq<nat>, s: nat)
    requires s < |lens|
    ensures CountTo(lens, lens[s], s) < Count(lens, lens[s])
  {
    CountMono(lens, lens[s], s, |lens|);
  }

  lemma RankInjective(lens: seq<nat>, s: nat, t: nat)
    requires s < |lens| && t < |lens| && lens[s] == lens[t]
    requires CountTo(lens, lens[s], s) == CountTo(lens, lens[s], t)
    ensures s == t
  {
    var l := lens[s];
    if s < t {
      CountMono(lens, l, s, t);
    } else {
      CountMono(lens, l, t, s);
    }
  }

  // The r-th symbol of length l.
  lemma {:induction false} SymbolOfRank(lens: seq<nat>, l: nat, r: nat, m: nat) returns (s: nat)
    requires m <= |lens| && r < CountTo(lens, l, m)
    ensures s < m && lens[s] == l && CountTo(lens, l, s) == r
  {
    if lens[m - 1] == l && CountTo(lens, l, m - 1) == r {
      s := m - 1;
    } else {
      s := SymbolOfRank(lens, l, r, m - 1);
    }
  }

  // ---- Kraft sum, unused codes and first codes ----

  lemma {:induction false} FirstCodeLeft(lens: seq<nat>, l: nat)
    requires l >= 1
    ensures FirstCode(lens, l) + Count(lens, l) + Left(lens, l) == Pow2(l)
  {
    if l > 1 {
      FirstCodeLeft(lens, l - 1);
    } else {
      assert Left(lens, 0) == 1;
    }
  }

  // The part of the Kraft sum that symbols of length 1..l contribute.
  function KraftUpTo(lens: seq<nat>, l: nat, m: nat): nat
    requires m <= |lens| && l <= MAXBITS
    requires LengthsInRange(lens)
  {
    if m == 0 then 0
    else KraftUpTo(lens, l, m - 1) + (if 1 <= lens[m - 1] <= l then Pow2(MAXBITS - lens[m - 1]) else 0)
  }

  lemma {:induction false} KraftUpToStep(lens: seq<nat>, l: nat, m: nat)
    requires 1 <= l <= MAXBITS && m <= |lens| && LengthsInRange(lens)
    ensures KraftUpTo(lens, l, m) == KraftUpTo(lens, l - 1, m) + Shl(CountTo(lens, l, m), MAXBITS - l)
  {
    if m == 0 {
      ShlZero(MAXBITS - l);
    } else {
      KraftUpToStep(lens, l, m - 1);
      ShlAdd(CountTo(lens, l, m - 1), 1, MAXBITS - l);
      ShlOne(MAXBITS - l);
    }
  }

  lemma {:induction false} KraftUpToZero(lens: seq<nat>, m: nat)
    requires m <= |lens| && LengthsInRange(lens)
    ensures KraftUpTo(lens, 0, m) == 0
    ensures KraftUpTo(lens, MAXBITS, m) == KraftTo(lens, m)
  {
    if m > 0 {
      KraftUpToZero(lens, m - 1);
    }
  }

  function ShlInt(x: int, n: nat): int {
    if n == 0 then x else 2 * ShlInt(x, n - 1)
  }

  lemma {:induction false} ShlIntSub(x: int, y: nat, n: nat)
    ensures ShlInt(x - y, n) == ShlInt(x, n) - Shl(y, n)
    ensures x >= 0 <==> ShlInt(x, n) >= 0
    ensures x == 0 <==> ShlInt(x, n) == 0
  {
    if n > 0 { ShlIntSub(x, y, n - 1); }
  }

  lemma {:induction false} ShlIntDouble(x: int, n: nat)
    ensures ShlInt(2 * x, n) == ShlInt(x, n + 1)
  {
    if n > 0 { ShlIntDouble(x, n - 1); }
  }

  lemma {:induction false} LeftKraft(lens: seq<nat>, l: nat)
    requires l <= MAXBITS && LengthsInRange(lens)
    ensures ShlInt(Left(lens, l), MAXBITS - l) == Pow2(MAXBITS) - KraftUpTo(lens, l, |lens|)
  {
    if l == 0 {
      KraftUpToZero(lens, |lens|);
      assert ShlInt(1, 15) == Pow2(15);
    } else {
      LeftKraft(lens, l - 1);
      ShlIntDouble(Left(lens, l - 1), MAXBITS - l);
      ShlIntSub(2 * Left(lens, l - 1), Count(lens, l), MAXBITS - l);
      KraftUpToStep(lens, l, |lens|);
    }
  }

  lemma {:induction false} LeftMonotone(lens: seq<nat>, a: nat, b: nat)
    requires a <= b
    ensures Left(lens, a) < 0 ==> Left(lens, b) < 0
    ensures Left(lens, a) <= 0 ==> Left(lens, b) <= 0
    decreases b
  {
    if a < b { LeftMonotone(lens, a, b - 1); }
  }

  // The sign of the last Left says whether the code is over-subscribed,
  // complete or incomplete.
  lemma LeftIsKraft(lens: seq<nat>)
    requires LengthsInRange(lens)
    ensures Left(lens, MAXBITS) == Pow2(MAXBITS) - Kraft(lens)
    ensures (exists l :: 0 <= l <= MAXBITS && Left(lens, l) < 0) <==> Kraft(lens) > Pow2(MAXBITS)
  {
    LeftKraft(lens, MAXBITS);
    KraftUpToZero(lens, |lens|);
    assert ShlInt(Left(lens, MAXBITS), 0) == Left(lens, MAXBITS);
    forall l | 0 <= l <= MAXBITS && Left(lens, l) < 0
      ensures Left(lens, MAXBITS) < 0
    {
      LeftMonotone(lens, l, MAXBITS);
    }
  }

  lemma LeftNonNegative(lens: seq<nat>, l: nat)
    requires Prefixed(lens) && l <= MAXBITS
    ensures Left(lens, l) >= 0
  {
    LeftIsKraft(lens);
  }

  // ---- Codes fit, and no code is a prefix of another ----

  lemma CodeFits(lens: seq<nat>, s: nat)
    requires Prefixed(lens) && s < |lens| && lens[s] > 0
    ensures CodeOf(lens, s) < Pow2(lens[s])
  {
    FirstCodeLeft(lens, lens[s]);
    LeftNonNegative(lens, lens[s]);
    RankBound(lens, s);
  }

  // A longer code, cut to length l, lies after every code of length l.
  lemma {:induction false} LongerCodesComeAfter(lens: seq<nat>, l: nat, k: nat)
    requires l >= 1 && k > l
    ensures Shr(FirstCode(lens, k), k - l) >= FirstCode(lens, l) + Count(lens, l)
    decreases k
  {
    if k == l + 1 {
      assert Shr(FirstCode(lens, k), 1) == Shr(FirstCode(lens, k) / 2, 0);
    } else {
      LongerCodesComeAfter(lens, l, k - 1);
      ShrMono(FirstCode(lens, k - 1), FirstCode(lens, k - 1) + Count(lens, k - 1), k - 1 - l);
    }
  }

  lemma LongerCodeComesAfter(lens: seq<nat>, t: nat, l: nat)
    requires t < |lens| && 1 <= l < lens[t]
    ensures Shr(CodeOf(lens, t), lens[t] - l) >= FirstCode(lens, l) + Count(lens, l)
  {
    LongerCodesComeAfter(lens, l, lens[t]);
    ShrMono(FirstCode(lens, lens[t]), CodeOf(lens, t), lens[t] - l);
  }

  // A bit string h (least significant bit first) starts with the code of s.
  predicate Matches(lens: seq<nat>, s: nat, h: nat)
    requires s < |lens|
  {
    lens[s] > 0 && Low(h, lens[s]) == StreamCode(lens, s)
  }

  // h starts with the code of s exactly when its first bits, read most
  // significant first, are that code.
  lemma MatchesCode(lens: seq<nat>, s: nat, h: nat)
    requires Prefixed(lens) && s < |lens| && lens[s] > 0
    ensures Matches(lens, s, h) <==> Rev(h, lens[s]) == CodeOf(lens, s)
  {
    var l, c := lens[s], CodeOf(lens, s);
    CodeFits(lens, s);
    LowSmall(c, l);
    RevRev(c, l);
    RevRev(h, l);
    RevOfLow(h, l);
  }

  // Only one symbol's code can start a given bit string.
  lemma MatchUnique(lens: seq<nat>, s: nat, t: nat, h: nat)
    requires Prefixed(lens) && s < |lens| && t < |lens|
    requires Matches(lens, s, h) && Matches(lens, t, h)
    ensures s == t
  {
    if lens[s] < lens[t] {
      PrefixClash(lens, s, t, h);
    } else if lens[t] < lens[s] {
      PrefixClash(lens, t, s, h);
    } else {
      MatchesCode(lens, s, h);
      MatchesCode(lens, t, h);
      RankInjective(lens, s, t);
    }
  }

  lemma PrefixClash(lens: seq<nat>, s: nat, t: nat, h: nat)
    requires Prefixed(lens) && s < |lens| && t < |lens| && 0 < lens[s] < lens[t]
    ensures !(Matches(lens, s, h) && Matches(lens, t, h))
  {
    var a, b := lens[s], lens[t];
    MatchesCode(lens, s, h);
    MatchesCode(lens, t, h);
    LongerCodeComesAfter(lens, t, a);
    RankBound(lens, s);
    RevShr(h, a, b);
  }

  // The first a of b bits, read most significant first.
  lemma RevShr(h: nat, a: nat, b: nat)
    requires a <= b
    ensures Shr(Rev(h, b), b - a) == Rev(h, a)
  {
    RevLow(Rev(h, b), b, a);
    RevRev(h, b);
    LowLow(h, a, b);
    RevBound(h, b);
    ShrBound(Rev(h, b), b - a, a);
    var top := Shr(Rev(h, b), b - a);
    RevRev(top, a);
    LowSmall(top, a);
    RevOfLow(h, a);
  }

  // In a complete code every bit string starts with some symbol's code.
  lemma SomeMatch(lens: seq<nat>, h: nat) returns (s: nat)
    requires Complete(lens)
    ensures s < |lens| && Matches(lens, s, h)
  {
    LeftIsKraft(lens);
    FirstCodeLeft(lens, MAXBITS);
    RevBound(h, MAXBITS);
    s := MatchWithin(lens, h, MAXBITS);
  }

  lemma {:induction false} MatchWithin(lens: seq<nat>, h: nat, l: nat) returns (s: nat)
    requires Prefixed(lens) && 1 <= l <= MAXBITS
    requires Rev(h, l) < FirstCode(lens, l) + Count(lens, l)
    ensures s < |lens| && Matches(lens, s, h)
    decreases l
  {
    if Rev(h, l) >= FirstCode(lens, l) {
      s := SymbolOfRank(lens, l, Rev(h, l) - FirstCode(lens, l), |lens|);
      MatchesCode(lens, s, h);
    } else {
      RevTop(h, l - 1);
      s := MatchWithin(lens, h, l - 1);
    }
  }

  // ---- Symbols without a code at the end make no difference ----

  ghost predicate ZerosAfter(lens: seq<nat>, more: seq<nat>) {
    |lens| <= |more| && more[..|lens|] == lens && forall s :: |lens| <= s < |more| ==> more[s] == 0
  }

  lemma {:induction false} CountZeros(lens: seq<nat>, more: seq<nat>, l: nat, m: nat)
    requires ZerosAfter(lens, more) && m <= |more| && l > 0
    ensures CountTo(more, l, m) == CountTo(lens, l, if m < |lens| then m else |lens|)
  {
    if m > 0 {
      CountZeros(lens, more, l, m - 1);
      assert m <= |lens| ==> more[..|lens|][m - 1] == lens[m - 1];
    }
  }

  lemma {:induction false} FirstCodeZeros(lens: seq<nat>, more: seq<nat>, l: nat)
    requires ZerosAfter(lens, more)
    ensures FirstCode(more, l) == FirstCode(lens, l)
  {
    if l > 1 {
      FirstCodeZeros(lens, more, l - 1);
      CountZeros(lens, more, l - 1, |more|);
    }
  }

  lemma {:induction false} KraftZeros(lens: seq<nat>, more: seq<nat>, m: nat)
    requires ZerosAfter(lens, more) && LengthsInRange(lens) && LengthsInRange(more) && m <= |more|
    ensures KraftTo(more, m) == KraftTo(lens, if m < |lens| then m else |lens|)
  {
    if m > 0 {
      KraftZeros(lens, more, m - 1);
      assert m <= |lens| ==> more[..|lens|][m - 1] == lens[m - 1];
    }
  }

  lemma ZerosSame(lens: seq<nat>, more: seq<nat>)
    requires ZerosAfter(lens, more)
    ensures Complete(lens) ==> Complete(more)
    ensures forall s :: 0 <= s < |lens| && lens[s] > 0 ==> more[s] == lens[s] && StreamCode(more, s) == StreamCode(lens, s)
  {
    if LengthsInRange(lens) {
      KraftZeros(lens, more, |more|);
    }
    forall s | 0 <= s < |lens| && lens[s] > 0
      ensures more[s] == lens[s] && StreamCode(more, s) == StreamCode(lens, s)
    {
      assert more[..|lens|][s] == lens[s];
      CountZeros(lens, more, lens[s], s);
      FirstCodeZeros(lens, more, lens[s]);
    }
  }
}
