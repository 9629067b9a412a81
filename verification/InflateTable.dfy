// inftrees.c: from code lengths to the two-level decoding table.
module InflateTable {
  import opened Bits
  import opened CanonicalCode

  const ENOUGH_LENS: nat := 852
  const ENOUGH_DISTS: nat := 592

  datatype CodeType = CODES | LENS | DISTS

  // One table entry: op says what it is, bits how many bits to drop, val is
  // the symbol, the base value, or the offset of a sub-table.
  datatype Code = Code(op: nat, bits: nat, val: nat)

  const LBASE: seq<nat> := [
    3, 4, 5, 6, 7, 8, 9, 10, 11, 13, 15, 17, 19, 23, 27, 31,
    35, 43, 51, 59, 67, 83, 99, 115, 131, 163, 195, 227, 258, 0, 0]
  const LEXT: seq<nat> := [
    16, 16, 16, 16, 16, 16, 16, 16, 17, 17, 17, 17, 18, 18, 18, 18,
    19, 19, 19, 19, 20, 20, 20, 20, 21, 21, 21, 21, 16, 194, 65]
  const DBASE: seq<nat> := [
    1, 2, 3, 4, 5, 7, 9, 13, 17, 25, 33, 49, 65, 97, 129, 193,
    257, 385, 513, 769, 1025, 1537, 2049, 3073, 4097, 6145,
    8193, 12289, 16385, 24577, 0, 0]
  const DEXT: seq<nat> := [
    16, 16, 16, 16, 17, 17, 18, 18, 19, 19, 20, 20, 21, 21, 22, 22,
    23, 23, 24, 24, 25, 25, 26, 26, 27, 27,
    28, 28, 29, 29, 64, 64]

  // The largest number of symbols that the base and extra tables cover.
  function MaxSymbols(kind: CodeType): nat {
    match kind
    case CODES => 19
    case LENS => 288
    case DISTS => 32
  }

  // What a symbol's table entry says, apart from its number of bits.
  function EntryFor(kind: CodeType, sym: nat, bits: nat): Code
    requires sym < MaxSymbols(kind)
  {
    match kind
    case CODES => Code(0, bits, sym)
    case LENS =>
      if sym < 256 then Code(0, bits, sym)
      else if sym == 256 then Code(96, bits, 0)
      else Code(LEXT[sym - 257], bits, LBASE[sym - 257])
    case DISTS => Code(DEXT[sym], bits, DBASE[sym])
  }

  const INVALID: Code := Code(64, 1, 0)

  predicate IsLink(e: Code) {
    0 < e.op < 16
  }

  // Looking up the bits h (least significant first) in the table that starts
  // at start and has root index bits: the entry reached, and the number of
  // bits of h that it stands for in all.
  function Lookup(table: seq<Code>, start: nat, root: nat, h: nat): (Code, nat)
    requires InRange(table, start, root)
  {
    RootIndex(h, root);
    var e := table[start + Low(h, root)];
    if IsLink(e) then
      RootIndex(Shr(h, e.bits), e.op);
      var f := table[start + e.val + Low(Shr(h, e.bits), e.op)];
      (f, e.bits + f.bits)
    else (e, e.bits)
  }

  lemma RootIndex(h: nat, root: nat)
    ensures Low(h, root) < Pow2(root)
  {
    Compose(h, root);
  }

  // Every lookup stays inside the table, and following a link drops exactly the
  // bits that were used to get there.
  ghost predicate InRange(table: seq<Code>, start: nat, root: nat) {
    && start + Pow2(root) <= |table|
    && forall x :: start <= x < start + Pow2(root) && IsLink(table[x]) ==>
      start + table[x].val + Pow2(table[x].op) <= |table| && table[x].bits == root
  }

  // There are sub-tables only for codes that do not fit in the root table.
  ghost predicate LinksNeeded(table: seq<Code>, start: nat, root: nat, lens: seq<nat>)
    requires start + Pow2(root) <= |table|
  {
    (forall s :: 0 <= s < |lens| ==> lens[s] <= root) ==>
      forall x :: start <= x < start + Pow2(root) ==> !IsLink(table[x])
  }

  predicate FindsSymbol(table: seq<Code>, start: nat, root: nat, kind: CodeType, lens: seq<nat>, s: nat, h: nat)
    requires InRange(table, start, root) && s < |lens| <= MaxSymbols(kind)
  {
    var (e, used) := Lookup(table, start, root, h);
    used == lens[s] && e == EntryFor(kind, s, e.bits)
  }

  // The table decodes the canonical code of lens: a lookup of any bit string
  // that starts with the code of s finds s and consumes exactly that code; a
  // bit string that starts with no code finds the invalid-code marker.
  ghost predicate Decodes(table: seq<Code>, start: nat, root: nat, kind: CodeType, lens: seq<nat>)
  {
    && |lens| <= MaxSymbols(kind)
    && InRange(table, start, root) && LinksNeeded(table, start, root, lens)
    && (forall s: nat, h: nat :: s < |lens| && Matches(lens, s, h) ==>
      FindsSymbol(table, start, root, kind, lens, s, h))
    && (forall h: nat :: (forall s: nat :: s < |lens| ==> !Matches(lens, s, h)) ==>
      Lookup(table, start, root, h) == (INVALID, 1))
  }

  // When inflate_table() refuses a list of lengths: over-subscribed, or not
  // empty and incomplete, unless it is a lone one-bit length or distance code.
  ghost predicate Refused(kind: CodeType, lens: seq<nat>)
    requires LengthsInRange(lens)
  {
    || Kraft(lens) > Pow2(MAXBITS)
    || (0 < Kraft(lens) < Pow2(MAXBITS) &&
        (kind == CODES || exists s :: 0 <= s < |lens| && lens[s] > 1))
  }

  // How many of the first m symbols have a code shorter than l.
  function Below(lens: seq<nat>, l: nat, m: nat): (c: nat)
    requires m <= |lens|
    ensures c <= m
  {
    if m == 0 then 0 else Below(lens, l, m - 1) + (if 1 <= lens[m - 1] < l then 1 else 0)
  }

  // Position of the first symbol of length l among all coded symbols sorted
  // by length, then by number.
  function Offs(lens: seq<nat>, l: nat): nat {
    Below(lens, l, |lens|)
  }

  lemma {:induction false} BelowStep(lens: seq<nat>, l: nat, m: nat)
    requires 1 <= l && m <= |lens|
    ensures Below(lens, l + 1, m) == Below(lens, l, m) + CountTo(lens, l, m)
    ensures Below(lens, 1, m) == 0
  {
    if m > 0 { BelowStep(lens, l, m - 1); }
  }

  lemma {:induction false} OffsMono(lens: seq<nat>, a: nat, b: nat)
    requires 1 <= a < b
    ensures Offs(lens, a) + Count(lens, a) <= Offs(lens, b) <= |lens|
    decreases b
  {
    BelowStep(lens, b - 1, |lens|);
    if a + 1 < b { OffsMono(lens, a, b - 1); }
  }

  // work[x] is the symbol of length l that belongs at position x.
  ghost predicate Ranked(lens: seq<nat>, work: seq<nat>, x: int, l: nat) {
    && 0 <= x < |work| && work[x] < |lens|
    && lens[work[x]] == l && CountTo(lens, l, work[x]) == x - Offs(lens, l)
  }

  // work holds the symbols below sym in the places where sorting by length,
  // then by number puts them.
  ghost predicate Sorted(lens: seq<nat>, work: seq<nat>, sym: nat)
    requires sym <= |lens|
  {
    forall l, x :: 1 <= l <= MAXBITS && Offs(lens, l) <= x < Offs(lens, l) + CountTo(lens, l, sym) ==>
      Ranked(lens, work, x, l)
  }

  method Offsets(lens: seq<nat>, count: array<nat>) returns (offs: array<nat>)
    requires count.Length == MAXBITS + 1
    requires forall l :: 0 <= l <= MAXBITS ==> count[l] == Count(lens, l)
    ensures fresh(offs) && offs.Length == MAXBITS + 1
    ensures forall l :: 1 <= l <= MAXBITS ==> offs[l] == Offs(lens, l)
  {
    offs := new nat[MAXBITS + 1];
    offs[1] := 0;
    BelowStep(lens, 1, |lens|);
    var len := 1;
    while len < MAXBITS
      invariant 1 <= len <= MAXBITS
      invariant forall l :: 1 <= l <= len ==> offs[l] == Offs(lens, l)
    {
      BelowStep(lens, len, |lens|);
      offs[len + 1] := offs[len] + count[len];
      len := len + 1;
    }
  }

  // Put the symbols that have codes in the order of these.
  method SortSymbols(lens: seq<nat>, count: array<nat>, work: array<nat>)
    requires LengthsInRange(lens)
    requires count.Length == MAXBITS + 1 && work.Length >= |lens|
    requires count != work
    requires forall l :: 0 <= l <= MAXBITS ==> count[l] == Count(lens, l)
    modifies work
    ensures Sorted(lens, work[..], |lens|)
  {
    var offs := Offsets(lens, count);
    var sym := 0;
    while sym < |lens|
      invariant sym <= |lens|
      invariant forall l :: 1 <= l <= MAXBITS ==> offs[l] == Offs(lens, l) + CountTo(lens, l, sym)
      invariant Sorted(lens, work[..], sym)
    {
      var l := lens[sym];
      if l != 0 {
        ghost var before := work[..];
        RankBound(lens, sym);
        OffsMono(lens, l, MAXBITS + 1);
        work[offs[l]] := sym;
        SortedStep(lens, before, work[..], sym);
        offs[l] := offs[l] + 1;
      }
      sym := sym + 1;
    }
  }

  lemma SortedStep(lens: seq<nat>, before: seq<nat>, after: seq<nat>, sym: nat)
    requires sym < |lens| && 1 <= lens[sym] <= MAXBITS
    requires Sorted(lens, before, sym)
    requires Offs(lens, lens[sym]) + CountTo(lens, lens[sym], sym) < |before|
    requires after == before[Offs(lens, lens[sym]) + CountTo(lens, lens[sym], sym) := sym]
    ensures Sorted(lens, after, sym + 1)
  {
    var p := Offs(lens, lens[sym]) + CountTo(lens, lens[sym], sym);
    RankBound(lens, sym);
    forall l, x | 1 <= l <= MAXBITS && Offs(lens, l) <= x < Offs(lens, l) + CountTo(lens, l, sym + 1)
      ensures Ranked(lens, after, x, l)
    {
      CountMono(lens, l, sym + 1, |lens|);
      if l < lens[sym] {
        OffsMono(lens, l, lens[sym]);
        assert Ranked(lens, before, x, l);
      } else if lens[sym] < l {
        OffsMono(lens, lens[sym], l);
        assert Ranked(lens, before, x, l);
      } else if x != p {
        assert Ranked(lens, before, x, l);
      }
    }
  }

  // ---- Walking the codes in sorted order ----

  // Position k of the sorted order holds a symbol of length len.
  ghost predicate At(lens: seq<nat>, k: nat, len: nat) {
    1 <= len <= MAXBITS && Offs(lens, len) <= k < Offs(lens, len) + Count(lens, len)
  }

  // The code of the symbol at position k.
  ghost function CodeAt(lens: seq<nat>, k: nat, len: nat): nat
    requires At(lens, k, len)
  {
    FirstCode(lens, len) + k - Offs(lens, len)
  }

  lemma AtSymbol(lens: seq<nat>, work: seq<nat>, k: nat, len: nat)
    requires Sorted(lens, work, |lens|) && At(lens, k, len)
    ensures k < |work| && work[k] < |lens| && lens[work[k]] == len
    ensures CodeOf(lens, work[k]) == CodeAt(lens, k, len)
  {
    assert Ranked(lens, work, k, len);
  }

  lemma SymbolAt(lens: seq<nat>, work: seq<nat>, s: nat) returns (k: nat)
    requires Sorted(lens, work, |lens|) && LengthsInRange(lens)
    requires s < |lens| && lens[s] > 0
    ensures At(lens, k, lens[s]) && k < |work| && work[k] == s
    ensures k < Offs(lens, MAXBITS + 1)
  {
    k := Offs(lens, lens[s]) + CountTo(lens, lens[s], s);
    RankBound(lens, s);
    AtSymbol(lens, work, k, lens[s]);
    RankInjective(lens, s, work[k]);
    OffsMono(lens, lens[s], MAXBITS + 1);
  }

  lemma {:induction false} Bucket(lens: seq<nat>, k: nat, l: nat) returns (len: nat)
    requires 2 <= l <= MAXBITS + 1 && k < Offs(lens, l)
    ensures len < l && At(lens, k, len)
    decreases l
  {
    BelowStep(lens, l - 1, |lens|);
    if k >= Offs(lens, l - 1) {
      len := l - 1;
    } else {
      len := Bucket(lens, k, l - 1);
    }
  }

  lemma {:induction false} FirstCodeGap(lens: seq<nat>, a: nat, b: nat)
    requires 1 <= a < b && Offs(lens, b) == Offs(lens, a) + Count(lens, a)
    ensures FirstCode(lens, b) == Shl(FirstCode(lens, a) + Count(lens, a), b - a)
    decreases b
  {
    if a + 1 < b {
      BelowStep(lens, b - 1, |lens|);
      OffsMono(lens, a, b - 1);
      FirstCodeGap(lens, a, b - 1);
    } else {
      assert Shl(FirstCode(lens, a) + Count(lens, a), 1) == 2 * Shl(FirstCode(lens, a) + Count(lens, a), 0);
    }
  }

  // Canonical codes are consecutive: the next code is this one plus one, with
  // zeros appended when the length grows.
  lemma NextCodeAt(lens: seq<nat>, k: nat, len: nat, len2: nat)
    requires At(lens, k, len) && At(lens, k + 1, len2)
    ensures len <= len2
    ensures CodeAt(lens, k + 1, len2) == Shl(CodeAt(lens, k, len) + 1, len2 - len)
  {
    if len2 < len {
      OffsMono(lens, len2, len);
    } else if len < len2 {
      OffsMono(lens, len, len2);
      FirstCodeGap(lens, len, len2);
    }
  }

  lemma {:induction false} FirstCodeZero(lens: seq<nat>, l: nat)
    requires l >= 1 && Offs(lens, l) == 0
    ensures FirstCode(lens, l) == 0
  {
    if l > 1 {
      BelowStep(lens, l - 1, |lens|);
      FirstCodeZero(lens, l - 1);
    }
  }

  // While incrementing c backwards: its t low bits, the bits of huff above
  // bit, are ones, and the rest of it is q.
  ghost predicate Carrying(huff: nat, len: nat, c: nat, bit: int, q: nat, t: nat) {
    && -1 <= bit && len == bit + 1 + t
    && c + 1 == Shl(q, t) + Pow2(t)
    && Low(huff, bit + 1) == Rev(q, bit + 1)
  }

  lemma CarryStart(huff: nat, len: nat, c: nat)
    requires huff == Rev(c, len)
    ensures Carrying(huff, len, c, len - 1, c, 0)
  {
    RevBound(c, len);
    LowSmall(huff, len);
  }

  lemma CarryStep(huff: nat, len: nat, c: nat, bit: nat, q: nat, t: nat)
    requires Carrying(huff, len, c, bit, q, t) && Shr(huff, bit) % 2 == 1
    ensures Carrying(huff, len, c, bit - 1, q / 2, t + 1)
  {
    BackStep(huff, q, bit);
    BackCarry(q, t);
  }

  lemma CarryEnd(huff: nat, len: nat, c: nat, bit: int, q: nat, t: nat)
    requires Carrying(huff, len, c, bit, q, t) && (bit >= 0 ==> Shr(huff, bit) % 2 == 0)
    ensures Rev(c + 1, len) == if bit >= 0 then Low(huff, bit) + Pow2(bit) else 0
  {
    ShlAdd(q, 1, t);
    ShlOne(t);
    RevShl(q + 1, bit + 1, t);
    if bit >= 0 { BackStep(huff, q, bit); }
  }

  lemma BackCarry(q: nat, t: nat)
    requires q % 2 == 1
    ensures Shl(q, t) + Pow2(t) == Shl(q / 2, t + 1) + Pow2(t + 1)
  {
    ShlAdd(2 * (q / 2), 1, t);
    ShlOne(t);
    ShlShl(q / 2, 1, t);
    assert Shl(q / 2, 1) == 2 * Shl(q / 2, 0);
  }

  lemma BackStep(huff: nat, q: nat, bit: nat)
    requires Low(huff, bit + 1) == Rev(q, bit + 1)
    ensures Shr(huff, bit) % 2 == q % 2
    ensures Low(huff, bit) == Rev(q / 2, bit)
  {
    LowTop(huff, bit);
    RevBound(q / 2, bit);
    Compose(huff, bit);
  }

  // Backwards increment of the len-bit code huff. The source holds 1 << bit in
  // incr, which is zero here when bit is -1.
  method NextCode(huff: nat, len: nat, ghost c: nat) returns (r: nat)
    requires len >= 1 && huff == Rev(c, len)
    ensures r == Rev(c + 1, len)
  {
    hide Carrying, Low, Shr, Pow2, Rev;
    var bit: int := len - 1;
    ghost var q, t := c, 0;
    CarryStart(huff, len, c);
    while bit >= 0 && Shr(huff, bit) % 2 == 1
      invariant -1 <= bit < len && Carrying(huff, len, c, bit, q, t)
      decreases bit
    {
      CarryStep(huff, len, c, bit, q, t);
      q, t, bit := q / 2, t + 1, bit - 1;
    }
    CarryEnd(huff, len, c, bit, q, t);
    r := if bit >= 0 then Low(huff, bit) + Pow2(bit) else 0;
  }

  // ---- What the table holds for one symbol ----

  // Bits of a code that the root table's index has already used up.
  function Dropped(len: nat, root: nat): nat {
    if len <= root then 0 else root
  }

  // Symbol s is entered in the table of 1 << wid entries at offset off: in the
  // root table if its code is short enough, else in a sub-table to which the
  // root table links.
  ghost predicate Placed(lens: seq<nat>, kind: CodeType, table: seq<Code>, start: nat, root: nat,
                         s: nat, off: nat, wid: nat)
  {
    && s < |lens| <= MaxSymbols(kind) && lens[s] > 0
    && start + off + Pow2(wid) <= |table| && start + Pow2(root) <= |table|
    && (if lens[s] <= root then off == 0 && wid == root else
        && Pow2(root) <= off && 0 < wid < 16 && lens[s] <= root + wid
        && Low(StreamCode(lens, s), root) < Pow2(root)
        && table[start + Low(StreamCode(lens, s), root)] == Code(wid, root, off))
    && forall y :: start + off <= y < start + off + Pow2(wid) && Mine(lens, root, s, y - start - off) ==>
         table[y] == EntryFor(kind, s, lens[s] - Dropped(lens[s], root))
  }

  // The entries of its table that symbol s fills: those whose low index bits
  // are the rest of its code.
  predicate Mine(lens: seq<nat>, root: nat, s: nat, x: nat)
    requires s < |lens|
  {
    var d := Dropped(lens[s], root);
    Low(x, lens[s] - d) == Shr(StreamCode(lens, s), d)
  }

  // An entry is mine exactly when the bits that lead to it start with my code.
  lemma MineMatches(lens: seq<nat>, root: nat, s: nat, x: nat)
    requires s < |lens| && lens[s] > 0
    ensures var d := Dropped(lens[s], root);
            Mine(lens, root, s, x) <==> Matches(lens, s, Low(StreamCode(lens, s), d) + Shl(x, d))
  {
    var d, c := Dropped(lens[s], root), StreamCode(lens, s);
    var h := Low(c, d) + Shl(x, d);
    LowShr(h, d, lens[s] - d);
    LowPlusShl(Low(c, d), x, d);
    LowLow(c, d, d);
    Compose(c, d);
    LowSmall(Low(c, d), d);
    ComposeUnique(Low(x, lens[s] - d), Low(c, d), d);
  }

  lemma MineUnique(lens: seq<nat>, root: nat, s: nat, t: nat, x: nat)
    requires Prefixed(lens) && s < |lens| && t < |lens| && s != t && lens[s] > 0 && lens[t] > 0
    requires Dropped(lens[s], root) == Dropped(lens[t], root)
    requires Dropped(lens[s], root) > 0 ==> Low(StreamCode(lens, s), root) == Low(StreamCode(lens, t), root)
    ensures !(Mine(lens, root, s, x) && Mine(lens, root, t, x))
  {
    var d := Dropped(lens[s], root);
    MineMatches(lens, root, s, x);
    MineMatches(lens, root, t, x);
    var h := Low(StreamCode(lens, s), d) + Shl(x, d);
    assert d == 0 ==> Low(StreamCode(lens, s), d) == Low(StreamCode(lens, t), d);
    if Matches(lens, s, h) && Matches(lens, t, h) {
      MatchUnique(lens, s, t, h);
    }
  }

  // The replicating loop: fill every entry of a table of 1 << wid entries
  // whose low k index bits are r.
  method Replicate(table: array<Code>, base: nat, wid: nat, k: nat, r: nat, here: Code)
    requires k <= wid && base + Pow2(wid) <= table.Length && r < Pow2(k)
    modifies table
    ensures forall y :: 0 <= y < table.Length ==>
      table[y] == if base <= y < base + Pow2(wid) && Low(y - base, k) == r then here else old(table[y])
  {
    var incr, fill := Pow2(k), Pow2(wid);
    ghost var q := Pow2(wid - k);
    ShlPow2(wid - k, k);
    while fill != 0
      invariant fill == Shl(q, k) <= Pow2(wid)
      invariant forall y :: 0 <= y < table.Length ==>
        table[y] == if base + fill <= y < base + Pow2(wid) && Low(y - base, k) == r then here else old(table[y])
      decreases fill
    {
      ghost var f := fill;
      q := QuotientStep(q, k);
      fill := fill - incr;
      table[base + r + fill] := here;
      forall x: nat {:trigger Low(x, k)} | fill <= x < f
        ensures Low(x, k) == x - fill
      {
        ComposeUnique(q, x - fill, k);
      }
    }
  }

  lemma QuotientStep(q: nat, k: nat) returns (p: nat)
    requires Shl(q, k) > 0
    ensures q == p + 1 && Shl(q, k) == Shl(p, k) + Pow2(k)
  {
    if q == 0 {
      ShlZero(k);
    }
    p := q - 1;
    ShlAdd(p, 1, k);
    ShlOne(k);
  }

  // Filling in symbol s leaves the symbols already placed in order.
  lemma PlaceKeeps(lens: seq<nat>, kind: CodeType, before: seq<Code>, after: seq<Code>, start: nat, root: nat,
                   s: nat, off: nat, wid: nat, t: nat, toff: nat, twid: nat)
    requires Prefixed(lens) && s < |lens| && t < |lens| && s != t && lens[s] > 0
    requires Placed(lens, kind, before, start, root, t, toff, twid)
    requires |after| == |before| && Pow2(root) <= |before| - start
    requires if lens[s] <= root then off == 0 && wid == root && lens[t] <= root else Pow2(root) <= off
    requires (lens[t] > 0 && toff == off && twid == wid && Dropped(lens[s], root) == Dropped(lens[t], root) &&
              (lens[t] > root ==> Low(StreamCode(lens, s), root) == Low(StreamCode(lens, t), root)))
          || toff + Pow2(twid) <= off
    requires forall y :: 0 <= y < |after| ==>
      after[y] == before[y] || (start + off <= y < start + off + Pow2(wid) && Mine(lens, root, s, y - start - off))
    ensures Placed(lens, kind, after, start, root, t, toff, twid)
  {
    hide EntryFor, Low, Shr, Rev, Kraft, CodeOf, Pow2;
    forall y | start + toff <= y < start + toff + Pow2(twid) && Mine(lens, root, t, y - start - toff)
      ensures after[y] == before[y]
    {
      if toff == off {
        MineUnique(lens, root, s, t, y - start - off);
      }
    }
  }

  // ---- Sizing a sub-table ----

  // No symbol whose code starts with the root bits p needs more than wid index
  // bits below the root table.
  ghost predicate FitsBelow(lens: seq<nat>, p: nat, root: nat, wid: nat) {
    forall t :: 0 <= t < |lens| && lens[t] > root + wid ==> Shr(CodeOf(lens, t), lens[t] - root) != p
  }

  // Codes of at most l bits, len <= l, do not fill the sub-table for the root
  // bits p as long as l is below root + wid.
  ghost predicate NotFilled(lens: seq<nat>, p: nat, root: nat, len: nat, wid: nat) {
    forall l :: len <= l < root + wid && root <= l ==> FirstCode(lens, l) + Count(lens, l) < Shl(p + 1, l - root)
  }

  // The look-ahead over the remaining counts that sizes the sub-table for the
  // code c of length len, the first with root bits p, at position k. A table of
  // curr index bits is needed only when enough symbols are left.
  method SubTableBits(lens: seq<nat>, count: array<nat>, len: nat, root: nat, max: nat, ghost c: nat, ghost p: nat, ghost k: nat)
      returns (curr: nat)
    requires Complete(lens) && 1 <= root < len <= max <= MAXBITS
    requires forall s :: 0 <= s < |lens| ==> lens[s] <= max
    requires count.Length == MAXBITS + 1
    requires c == Shl(p, len - root) && c + count[len] == FirstCode(lens, len) + Count(lens, len) && p < Pow2(root)
    requires k + count[len] == Offs(lens, len) + Count(lens, len)
    requires forall l :: len < l <= MAXBITS ==> count[l] == Count(lens, l)
    ensures len <= root + curr <= max
    ensures FitsBelow(lens, p, root, curr) && NotFilled(lens, p, root, len, curr)
    ensures k + Pow2(len - root) + (root + curr - len) <= Offs(lens, MAXBITS + 1)
  {
    hide Below, Complete, NotFilled, FitsBelow, CountTo, Shl, FirstCode, Pow2;
    curr := len - root;
    var left: int := Pow2(curr);
    ghost var e, j := c, k;
    ShlAdd(p, 1, curr);
    ShlOne(curr);
    NotFilledYet(lens, p, root, len, curr);
    while curr + root < max
      invariant len <= curr + root <= max
      invariant left == Shl(p + 1, curr) - e
      invariant e + count[curr + root] == FirstCode(lens, curr + root) + Count(lens, curr + root)
      invariant j + count[curr + root] == Offs(lens, curr + root) + Count(lens, curr + root)
      invariant NotFilled(lens, p, root, len, curr)
      invariant j + left >= k + Pow2(len - root) + (root + curr - len)
      decreases max - curr
    {
      left := left - count[curr + root];
      if left <= 0 {
        FullSubTable(lens, p, root, curr);
        OffsMono(lens, curr + root, MAXBITS + 1);
        return;
      }
      BelowStep(lens, curr + root, |lens|);
      NotFilledYet(lens, p, root, len, curr);
      j := j + count[curr + root];
      Doubled(lens, p + 1, root, curr);
      curr := curr + 1;
      left := 2 * left;
      e := FirstCode(lens, curr + root);
    }
    AllFilled(lens, p, root, max);
    OffsMono(lens, max, MAXBITS + 1);
    NoneAbove(lens, p, root, curr, max);
  }

  lemma Doubled(lens: seq<nat>, x: nat, root: nat, n: nat)
    requires root + n >= 1
    ensures Shl(x, n + 1) == 2 * Shl(x, n)
    ensures FirstCode(lens, root + n + 1) == 2 * (FirstCode(lens, root + n) + Count(lens, root + n))
  {
    hide CountTo;
  }

  lemma NotFilledYet(lens: seq<nat>, p: nat, root: nat, len: nat, wid: nat)
    ensures root + wid <= len ==> NotFilled(lens, p, root, len, wid)
    ensures NotFilled(lens, p, root, len, wid) && FirstCode(lens, root + wid) + Count(lens, root + wid) < Shl(p + 1, wid) ==>
      NotFilled(lens, p, root, len, wid + 1)
  {
    hide CountTo, Shl;
  }

  lemma NoneAbove(lens: seq<nat>, p: nat, root: nat, wid: nat, max: nat)
    requires root + wid == max && forall s :: 0 <= s < |lens| ==> lens[s] <= max
    ensures FitsBelow(lens, p, root, wid)
  {
  }

  // The codes of the greatest length fill whatever is left.
  lemma AllFilled(lens: seq<nat>, p: nat, root: nat, max: nat)
    requires Complete(lens) && 1 <= root <= max <= MAXBITS && p < Pow2(root)
    requires forall s :: 0 <= s < |lens| ==> lens[s] <= max
    ensures Shl(p + 1, max - root) <= FirstCode(lens, max) + Count(lens, max)
  {
    FirstCodeLeft(lens, max);
    hide Left, CountTo, KraftTo, Shl, Pow2;
    LeftIsZero(lens, max);
    ShlMono(p + 1, Pow2(root), max - root);
    ShlPow2(root, max - root);
  }

  lemma FullSubTable(lens: seq<nat>, p: nat, root: nat, wid: nat)
    requires 1 <= root + wid
    requires FirstCode(lens, root + wid) + Count(lens, root + wid) >= Shl(p + 1, wid)
    ensures FitsBelow(lens, p, root, wid)
  {
    var l := root + wid;
    forall t | 0 <= t < |lens| && lens[t] > l
      ensures Shr(CodeOf(lens, t), lens[t] - root) != p
    {
      LongerCodeComesAfter(lens, t, l);
      var top := Shr(CodeOf(lens, t), lens[t] - l);
      ShrShr(CodeOf(lens, t), lens[t] - l, wid);
      ShrMono(Shl(p + 1, wid), top, wid);
      ShrShl(p + 1, wid, 0);
    }
  }

  // The first code with new root bits has only zeros after them.
  lemma {:induction false} Carry(c: nat, n: nat)
    requires Shr(c + 1, n) != Shr(c, n)
    ensures c + 1 == Shl(Shr(c + 1, n), n)
  {
    if n > 0 {
      assert c % 2 == 1;
      Carry(c / 2, n - 1);
    }
  }

  // ---- Why there is always enough space ----

  // What inflate() asks for: its numbers of symbols, and its root tables.
  predicate Usual(kind: CodeType, n: nat, root: nat) {
    (kind == LENS && n <= 286 && root == 9) || (kind == DISTS && n <= 30 && root == 6)
  }

  // The entries of the sub-tables so far, against the number m of symbols in
  // them: the last of them has curr index bits, and of its nodes d bits below
  // the root r are still free.
  predicate Slack(entries: int, m: int, r: int, curr: nat, d: nat) {
    && entries <= m + r + Pow2(curr) - 1 - d
    && (entries == m + r + Pow2(curr) - 1 - d ==> (m + r + d) % 2 == 1)
  }

  lemma {:induction false} ShlGrows(x: nat, g: nat)
    requires x >= 1
    ensures Shl(x, g) >= x + g && (Shl(x, g) == x + g ==> g == 0 || (g == 1 && x == 1))
  {
    if g > 0 { ShlGrows(x, g - 1); }
  }

  // A symbol takes a node, and the nodes left are split for longer codes.
  lemma SlackSame(entries: int, m: int, r: int, curr: nat, d: nat, g: nat)
    requires Slack(entries, m, r, curr, d) && r >= 2
    ensures Slack(entries, m + 1, Shl(r - 1, g), curr, d + g)
  {
    ShlGrows(r - 1, g);
  }

  lemma {:induction false} Pow2Grows(a: nat, b: nat)
    requires 1 <= a <= b
    ensures Pow2(a) - a <= Pow2(b) - b && (a < b ==> Pow2(a) - a < Pow2(b) - b)
    ensures Pow2(a) % 2 == 0 && Pow2(a) >= a + 1 && (Pow2(a) == a + 1 ==> a == 1)
    decreases b
  {
    if a < b { Pow2Grows(a, b - 1); } else if a > 1 { Pow2Grows(a - 1, a - 1); }
  }

  // The last node is taken, and another sub-table is begun.
  lemma SlackNew(entries: int, m: int, curr: nat, d: nat, curr2: nat)
    requires Slack(entries, m, 1, curr, curr) && 1 <= curr <= d
    ensures Slack(entries + Pow2(curr2), m + 1, Pow2(d), curr2, d)
  {
    Pow2Grows(curr, d);
    Pow2Grows(d, d);
  }

  lemma SlackFirst(d: nat, curr: nat)
    requires d >= 1
    ensures Slack(Pow2(curr), 0, Pow2(d), curr, d)
  {
    Pow2Grows(d, d);
  }

  // The tables fit when another sub-table is begun for which there are symbols
  // enough. (One entry more would take as many symbols as there are, but with
  // an odd number of them in sub-tables of lengths, or an even one of distances.)
  lemma SlackFits(kind: CodeType, n: nat, root: nat, entries: int, m: int, short: nat, curr: nat, d: nat)
    requires Usual(kind, n, root) && Slack(entries, m, Pow2(d), curr, d) && 1 <= d <= curr <= MAXBITS - root
    requires m + Pow2(d) + (curr - d) + short <= n && short >= (if kind == LENS then 2 else 3)
    ensures Pow2(root) + entries <= Space(kind, root)
  {
    Pow2Values();
    Pow2Grows(curr, MAXBITS - root);
    Pow2Grows(d, d);
  }

  // Bounds for the Kraft sum from the numbers of short and of all codes.
  lemma {:induction false} KraftBounds(lens: seq<nat>, root: nat, m: nat)
    requires m <= |lens| && LengthsInRange(lens) && 1 <= root < MAXBITS
    ensures CountTo(lens, 1, m) <= Below(lens, root + 1, m) <= Below(lens, MAXBITS + 1, m)
    ensures KraftTo(lens, m) <= 16384 * CountTo(lens, 1, m) + 8192 * (Below(lens, root + 1, m) - CountTo(lens, 1, m))
      + Pow2(MAXBITS - 1 - root) * (Below(lens, MAXBITS + 1, m) - Below(lens, root + 1, m))
    ensures KraftTo(lens, m) >= 16384 * CountTo(lens, 1, m) + (Below(lens, MAXBITS + 1, m) - CountTo(lens, 1, m))
  {
    if m > 0 {
      hide Pow2;
      KraftBounds(lens, root, m - 1);
      var l, u, x := lens[m - 1], Pow2(MAXBITS - 1 - root), Below(lens, MAXBITS + 1, m - 1) - Below(lens, root + 1, m - 1);
      LengthUnit(l, root);
      assert u * (x + 1) == u * x + u;
    }
  }

  lemma LengthUnit(l: nat, root: nat)
    requires l <= MAXBITS && 1 <= root < MAXBITS
    ensures Pow2(MAXBITS - l) >= 1 && (l == 1 ==> Pow2(MAXBITS - l) == 16384)
    ensures l > 1 ==> Pow2(MAXBITS - l) <= 8192
    ensures l > root ==> Pow2(MAXBITS - l) <= Pow2(MAXBITS - 1 - root)
  {
    Pow2Values();
    if 1 < l { Pow2Mono(MAXBITS - l, 13); }
    if root < l { Pow2Mono(MAXBITS - l, MAXBITS - 1 - root); }
  }

  // Some codes are short.
  lemma FewShort(kind: CodeType, lens: seq<nat>, root: nat)
    requires Usual(kind, |lens|, root) && Complete(lens) && Offs(lens, root + 1) < Offs(lens, MAXBITS + 1)
    ensures Offs(lens, root + 1) >= if kind == LENS then 2 else 3
  {
    hide Below, CountTo, KraftTo;
    KraftBounds(lens, root, |lens|);
    Pow2Values();
  }

  // The sub-tables made before the symbol at position k is entered.
  ghost predicate Snug(lens: seq<nat>, root: nat, k: nat, len: nat, curr: nat, used: nat)
    requires At(lens, k, len)
  {
    if len <= root then used == Pow2(root)
    else
      var d, c := len - root, CodeAt(lens, k, len);
      && 1 <= d <= curr && Offs(lens, root + 1) <= k
      && Slack(used - Pow2(root), k - Offs(lens, root + 1), Pow2(d) - Low(c, d), curr, d)
      && NotFilled(lens, Shr(c, d), root, len, curr)
  }

  // The next code: in the same sub-table, or the first of another one.
  lemma NextNode(c: nat, d: nat, g: nat)
    ensures Low(c, d) < Pow2(d)
    ensures Low(c, d) + 1 < Pow2(d) ==>
      Low(Shl(c + 1, g), d + g) == Shl(Low(c, d) + 1, g) && Shr(Shl(c + 1, g), d + g) == Shr(c, d)
    ensures Low(c, d) + 1 == Pow2(d) ==> c + 1 == Shl(Shr(c, d) + 1, d) && Shr(Shl(c + 1, g), d + g) == Shr(c, d) + 1
  {
    hide Low, Shr;
    var q, p := Low(c, d), Shr(c, d);
    Compose(c, d);
    ShlAdd(q + 1, Shl(p, d), g);
    ShlShl(p, d, g);
    ShlAdd(p, 1, d);
    ShlOne(d);
    if q + 1 < Pow2(d) {
      ShlMono(q + 1, Pow2(d), g);
      ShlPow2(d, g);
      ComposeUnique(p, Shl(q + 1, g), d + g);
    } else {
      ShlShl(p + 1, d, g);
      ShrShl(p + 1, d + g, 0);
    }
  }

  lemma SnugSame(lens: seq<nat>, root: nat, k: nat, len: nat, len2: nat, curr: nat, used: nat)
    requires At(lens, k, len) && At(lens, k + 1, len2) && Snug(lens, root, k, len, curr, used)
    requires len2 > root ==> len > root && len2 <= root + curr
    requires len2 > root ==> Shr(CodeAt(lens, k + 1, len2), len2 - root) == Shr(CodeAt(lens, k, len), len - root)
    ensures Snug(lens, root, k + 1, len2, curr, used)
  {
    hide Low, Shr, Below, Pow2, Slack;
    NextCodeAt(lens, k, len, len2);
    if len2 > root {
      var c, d, g := CodeAt(lens, k, len), len - root, len2 - len;
      NextNode(c, d, g);
      var r := Pow2(d) - Low(c, d);
      SlackSame(used - Pow2(root), k - Offs(lens, root + 1), r, curr, d, g);
      ShlAdd(r - 1, Low(c, d) + 1, g);
      ShlPow2(d, g);
    }
  }

  lemma SnugNew(lens: seq<nat>, root: nat, k: nat, len: nat, len2: nat, curr: nat, curr2: nat, used: nat)
    requires At(lens, k, len) && At(lens, k + 1, len2) && Snug(lens, root, k, len, curr, used)
    requires root < len2 <= root + curr2
    requires len > root ==> Shr(CodeAt(lens, k + 1, len2), len2 - root) != Shr(CodeAt(lens, k, len), len - root)
    requires Low(CodeAt(lens, k + 1, len2), len2 - root) == 0
    requires NotFilled(lens, Shr(CodeAt(lens, k + 1, len2), len2 - root), root, len2, curr2)
    ensures Snug(lens, root, k + 1, len2, curr2, used + Pow2(curr2))
  {
    hide Low, Shr, Below, Pow2, Slack, Shl, CountTo;
    NextCodeAt(lens, k, len, len2);
    if len <= root {
      OffsMono(lens, len, root + 1);
      if root + 1 < len2 { OffsMono(lens, root + 1, len2); }
      SlackFirst(len2 - root, curr2);
    } else {
      var c, d := CodeAt(lens, k, len), len - root;
      NextNode(c, d, len2 - len);
      assert d == curr;
      SlackNew(used - Pow2(root), k - Offs(lens, root + 1), curr, len2 - root, curr2);
    }
  }

  // The number of table entries there is room for.
  function Space(kind: CodeType, root: nat): nat {
    match kind
    case CODES => Pow2(root)
    case LENS => ENOUGH_LENS
    case DISTS => ENOUGH_DISTS
  }

  // ---- The loop that makes the table ----

  // The first k symbols of the sorted order are in the table; those that are
  // not in the table being filled, at offset cur, are in a table before it.
  ghost predicate Built(lens: seq<nat>, kind: CodeType, sorted: seq<nat>, table: seq<Code>, start: nat, root: nat,
                        k: nat, cur: nat, offs: seq<nat>, wids: seq<nat>)
  {
    && |offs| == |wids| == k <= |sorted|
    && forall j :: 0 <= j < k ==>
         && Placed(lens, kind, table, start, root, sorted[j], offs[j], wids[j])
         && (offs[j] == cur || offs[j] + Pow2(wids[j]) <= cur)
  }

  // The table at offset cur, with curr index bits, is the one that the symbol
  // at position k, of length len, goes into.
  ghost predicate Current(lens: seq<nat>, sorted: seq<nat>, table: seq<Code>, start: nat, root: nat,
                          k: nat, len: nat, cur: nat, curr: nat, low: int, offs: seq<nat>, wids: seq<nat>)
    requires |offs| == |wids| == k < |sorted|
    requires forall j :: 0 <= j <= k ==> sorted[j] < |lens|
    requires LengthsInRange(lens) && At(lens, k, len)
  {
    if len <= root then
      && cur == 0 && curr == root && low == -1
      && forall j :: 0 <= j < k ==> lens[sorted[j]] <= root && offs[j] == 0 && wids[j] == root
    else
      && Pow2(root) <= cur && 0 < curr < 16 && len <= root + curr
      && low == Low(StreamCode(lens, sorted[k]), root)
      && start + low < |table| && table[start + low] == Code(curr, root, cur)
      && FitsBelow(lens, Shr(CodeAt(lens, k, len), len - root), root, curr)
      && forall j :: 0 <= j < k ==>
           && (offs[j] == cur <==> lens[sorted[j]] > root && Low(StreamCode(lens, sorted[j]), root) == low)
           && (offs[j] == cur ==> wids[j] == curr)
  }

  lemma SortedDistinct(lens: seq<nat>, sorted: seq<nat>, j: nat, k: nat)
    requires Sorted(lens, sorted, |lens|) && LengthsInRange(lens)
    requires j < k < Offs(lens, MAXBITS + 1)
    ensures k < |sorted| && sorted[j] < |lens| && sorted[k] < |lens|
    ensures 0 < lens[sorted[j]] <= lens[sorted[k]]
    ensures sorted[j] != sorted[k]
    ensures lens[sorted[j]] == lens[sorted[k]] ==> CodeOf(lens, sorted[j]) < CodeOf(lens, sorted[k])
  {
    var a := Bucket(lens, j, MAXBITS + 1);
    var b := Bucket(lens, k, MAXBITS + 1);
    AtSymbol(lens, sorted, j, a);
    AtSymbol(lens, sorted, k, b);
    if b < a {
      OffsMono(lens, b, a);
    }
  }

  lemma SortedInRange(lens: seq<nat>, sorted: seq<nat>, k: nat)
    requires Sorted(lens, sorted, |lens|) && LengthsInRange(lens)
    requires k < Offs(lens, MAXBITS + 1)
    ensures k < |sorted| && sorted[k] < |lens| && lens[sorted[k]] > 0
  {
    var a := Bucket(lens, k, MAXBITS + 1);
    AtSymbol(lens, sorted, k, a);
  }

  // Later codes have root bits that are no smaller.
  lemma PrefixOrder(lens: seq<nat>, sorted: seq<nat>, root: nat, j: nat, k: nat)
    requires Prefixed(lens) && Sorted(lens, sorted, |lens|)
    requires j < k < Offs(lens, MAXBITS + 1)
    requires k < |sorted| && sorted[j] < |lens| && sorted[k] < |lens| && lens[sorted[j]] > root
    ensures lens[sorted[k]] > root
    ensures Shr(CodeOf(lens, sorted[j]), lens[sorted[j]] - root) <= Shr(CodeOf(lens, sorted[k]), lens[sorted[k]] - root)
  {
    SortedDistinct(lens, sorted, j, k);
    var s, t := sorted[j], sorted[k];
    if lens[s] == lens[t] {
      ShrMono(CodeOf(lens, s), CodeOf(lens, t), lens[s] - root);
    } else {
      LongerCodeComesAfter(lens, t, lens[s]);
      RankBound(lens, s);
      var top := Shr(CodeOf(lens, t), lens[t] - lens[s]);
      ShrMono(CodeOf(lens, s), top, lens[s] - root);
      ShrShr(CodeOf(lens, t), lens[t] - lens[s], lens[s] - root);
    }
  }

  // The root index of a long code determines its root bits.
  lemma RootBits(lens: seq<nat>, s: nat, root: nat)
    requires Prefixed(lens) && s < |lens| && lens[s] > root
    ensures Low(StreamCode(lens, s), root) == Rev(Shr(CodeOf(lens, s), lens[s] - root), root)
    ensures Shr(CodeOf(lens, s), lens[s] - root) < Pow2(root)
    ensures Low(StreamCode(lens, s), root) < Pow2(root)
  {
    RevLow(CodeOf(lens, s), lens[s], root);
    CodeFits(lens, s);
    ShrBound(CodeOf(lens, s), lens[s] - root, root);
    RevBound(Shr(CodeOf(lens, s), lens[s] - root), root);
  }

  lemma SameRootBits(lens: seq<nat>, s: nat, t: nat, root: nat)
    requires Prefixed(lens) && s < |lens| && lens[s] > root && t < |lens| && lens[t] > root
    ensures Low(StreamCode(lens, s), root) == Low(StreamCode(lens, t), root)
       <==> Shr(CodeOf(lens, s), lens[s] - root) == Shr(CodeOf(lens, t), lens[t] - root)
  {
    RootBits(lens, s, root);
    RootBits(lens, t, root);
    var p, q := Shr(CodeOf(lens, s), lens[s] - root), Shr(CodeOf(lens, t), lens[t] - root);
    if Rev(p, root) == Rev(q, root) {
      RevInjective(p, q, root);
    }
  }

  // A short code does not own the root entry of a long one.
  lemma ShortNotMine(lens: seq<nat>, root: nat, s: nat, t: nat)
    requires Prefixed(lens) && s < |lens| && t < |lens| && 0 < lens[t] <= root < lens[s]
    ensures !Mine(lens, root, t, Low(StreamCode(lens, s), root))
  {
    var c := StreamCode(lens, s);
    LowLow(c, lens[t], root);
    RevBound(CodeOf(lens, s), lens[s]);
    LowSmall(c, lens[s]);
    if Mine(lens, root, t, Low(c, root)) {
      MatchUnique(lens, s, t, c);
    }
  }

  // Writing a link for new root bits leaves the symbols already placed alone.
  lemma LinkKeeps(lens: seq<nat>, kind: CodeType, before: seq<Code>, after: seq<Code>, start: nat, root: nat,
                  s: nat, low: nat, t: nat, toff: nat, twid: nat)
    requires Prefixed(lens) && s < |lens| && lens[s] > root
    requires Placed(lens, kind, before, start, root, t, toff, twid)
    requires low == Low(StreamCode(lens, s), root) < Pow2(root) && start + low < |before|
    requires lens[t] > root ==> Low(StreamCode(lens, t), root) != low
    requires |after| == |before| && forall y :: 0 <= y < |before| && y != start + low ==> after[y] == before[y]
    ensures Placed(lens, kind, after, start, root, t, toff, twid)
  {
    if lens[t] <= root {
      ShortNotMine(lens, root, s, t);
    }
    forall y | start + toff <= y < start + toff + Pow2(twid) && Mine(lens, root, t, y - start - toff)
      ensures after[y] == before[y]
    {
      assert y != start + low;
    }
  }

  // Exactly the entries that belong to symbol s change, and they become here.
  ghost predicate FilledIn(lens: seq<nat>, before: seq<Code>, after: seq<Code>, start: nat, root: nat,
                           s: nat, off: nat, wid: nat, here: Code)
    requires s < |lens|
  {
    && |after| == |before|
    && forall y :: 0 <= y < |after| ==>
      after[y] == if start + off <= y < start + off + Pow2(wid) && Mine(lens, root, s, y - start - off)
                  then here else before[y]
  }

  lemma FilledIsPlaced(lens: seq<nat>, kind: CodeType, before: seq<Code>, after: seq<Code>, start: nat, root: nat,
                       s: nat, off: nat, wid: nat)
    requires s < |lens| <= MaxSymbols(kind) && lens[s] > 0
    requires start + off + Pow2(wid) <= |before| && start + Pow2(root) <= |before|
    requires if lens[s] <= root then off == 0 && wid == root else
      && Pow2(root) <= off && 0 < wid < 16 && lens[s] <= root + wid
      && Low(StreamCode(lens, s), root) < Pow2(root)
      && before[start + Low(StreamCode(lens, s), root)] == Code(wid, root, off)
    requires FilledIn(lens, before, after, start, root, s, off, wid,
                      EntryFor(kind, s, lens[s] - Dropped(lens[s], root)))
    ensures Placed(lens, kind, after, start, root, s, off, wid)
  {
  }

  lemma CurrentIsLinked(lens: seq<nat>, sorted: seq<nat>, table: seq<Code>, start: nat, root: nat,
                        k: nat, len: nat, cur: nat, curr: nat, low: int, offs: seq<nat>, wids: seq<nat>)
    requires Prefixed(lens) && Sorted(lens, sorted, |lens|) && |offs| == |wids| == k < |sorted|
    requires At(lens, k, len) && forall j :: 0 <= j <= k ==> sorted[j] < |lens|
    requires Current(lens, sorted, table, start, root, k, len, cur, curr, low, offs, wids)
    ensures lens[sorted[k]] == len
    ensures if len <= root then cur == 0 && curr == root else
      && Pow2(root) <= cur && 0 < curr < 16 && len <= root + curr && low == Low(StreamCode(lens, sorted[k]), root)
      && 0 <= low < Pow2(root) && start + low < |table| && table[start + low] == Code(curr, root, cur)
  {
    AtSymbol(lens, sorted, k, len);
    if len > root { RootBits(lens, sorted[k], root); }
  }

  lemma EnterKeeps(lens: seq<nat>, kind: CodeType, sorted: seq<nat>, before: seq<Code>, after: seq<Code>,
                   start: nat, root: nat, k: nat, len: nat, cur: nat, curr: nat, low: int,
                   offs: seq<nat>, wids: seq<nat>, j: nat)
    requires Prefixed(lens) && Sorted(lens, sorted, |lens|)
    requires j < k < Offs(lens, MAXBITS + 1) && At(lens, k, len)
    requires Built(lens, kind, sorted, before, start, root, k, cur, offs, wids) && k < |sorted|
    requires forall i :: 0 <= i <= k ==> sorted[i] < |lens|
    requires Current(lens, sorted, before, start, root, k, len, cur, curr, low, offs, wids)
    requires start + Pow2(root) <= |before| && |lens| <= MaxSymbols(kind)
    requires FilledIn(lens, before, after, start, root, sorted[k], cur, curr,
                      EntryFor(kind, sorted[k], len - Dropped(len, root)))
    ensures Placed(lens, kind, after, start, root, sorted[j], offs[j], wids[j])
  {
    hide EntryFor, Low, Shr, Rev, Kraft, CodeOf, Placed, Sorted, FitsBelow, CountTo, Pow2;
    CurrentIsLinked(lens, sorted, before, start, root, k, len, cur, curr, low, offs, wids);
    SortedDistinct(lens, sorted, j, k);
    PlaceKeeps(lens, kind, before, after, start, root, sorted[k], cur, curr, sorted[j], offs[j], wids[j]);
  }

  lemma BuiltSizes(lens: seq<nat>, kind: CodeType, sorted: seq<nat>, table: seq<Code>, start: nat, root: nat,
                   k: nat, cur: nat, offs: seq<nat>, wids: seq<nat>)
    requires Built(lens, kind, sorted, table, start, root, k, cur, offs, wids)
    ensures |offs| == |wids| == k <= |sorted|
  {
    hide Placed;
  }

  // Entering the symbol at position k.
  lemma EnterSymbol(lens: seq<nat>, kind: CodeType, sorted: seq<nat>, before: seq<Code>, after: seq<Code>,
                    start: nat, root: nat, k: nat, len: nat, cur: nat, curr: nat, low: int,
                    offs: seq<nat>, wids: seq<nat>)
    requires Prefixed(lens) && Sorted(lens, sorted, |lens|) && |lens| <= MaxSymbols(kind)
    requires k < Offs(lens, MAXBITS + 1) && At(lens, k, len)
    requires Built(lens, kind, sorted, before, start, root, k, cur, offs, wids) && k < |sorted|
    requires forall j :: 0 <= j <= k ==> sorted[j] < |lens|
    requires Current(lens, sorted, before, start, root, k, len, cur, curr, low, offs, wids)
    requires 1 <= root && start + cur + Pow2(curr) <= |before| && start + Pow2(root) <= |before|
    requires FilledIn(lens, before, after, start, root, sorted[k], cur, curr,
                      EntryFor(kind, sorted[k], len - Dropped(len, root)))
    ensures Built(lens, kind, sorted, after, start, root, k + 1, cur, offs + [cur], wids + [curr])
  {
    hide EntryFor, Low, Shr, Rev, Kraft, CodeOf, Placed, Sorted, FitsBelow, CountTo, Pow2, Current, FilledIn, Below,
      Prefixed, StreamCode, Built;
    BuiltSizes(lens, kind, sorted, before, start, root, k, cur, offs, wids);
    CurrentIsLinked(lens, sorted, before, start, root, k, len, cur, curr, low, offs, wids);
    FilledIsPlaced(lens, kind, before, after, start, root, sorted[k], cur, curr);
    forall j | 0 <= j < k
      ensures Placed(lens, kind, after, start, root, sorted[j], offs[j], wids[j])
    {
      EnterKeeps(lens, kind, sorted, before, after, start, root, k, len, cur, curr, low, offs, wids, j);
    }
    BuiltMore(lens, kind, sorted, before, after, start, root, k, cur, curr, offs, wids);
  }

  lemma BuiltMore(lens: seq<nat>, kind: CodeType, sorted: seq<nat>, before: seq<Code>, after: seq<Code>,
                  start: nat, root: nat, k: nat, cur: nat, curr: nat, offs: seq<nat>, wids: seq<nat>)
    requires Built(lens, kind, sorted, before, start, root, k, cur, offs, wids) && k < |sorted|
    requires forall j :: 0 <= j < k ==> Placed(lens, kind, after, start, root, sorted[j], offs[j], wids[j])
    requires Placed(lens, kind, after, start, root, sorted[k], cur, curr)
    ensures Built(lens, kind, sorted, after, start, root, k + 1, cur, offs + [cur], wids + [curr])
  {
    hide Placed, Pow2;
  }

  // A symbol that stays in the sub-table being filled.
  lemma SameSubTable(lens: seq<nat>, sorted: seq<nat>, table: seq<Code>, start: nat, root: nat,
                     k: nat, len: nat, len2: nat, cur: nat, curr: nat, low: int, offs: seq<nat>, wids: seq<nat>)
    requires Prefixed(lens) && Sorted(lens, sorted, |lens|)
    requires |offs| == |wids| == k && k + 1 < Offs(lens, MAXBITS + 1) && k + 1 < |sorted|
    requires At(lens, k, len) && At(lens, k + 1, len2)
    requires forall j :: 0 <= j <= k + 1 ==> sorted[j] < |lens|
    requires Current(lens, sorted, table, start, root, k, len, cur, curr, low, offs, wids)
    requires len2 > root ==> low == Low(StreamCode(lens, sorted[k + 1]), root)
    ensures Current(lens, sorted, table, start, root, k + 1, len2, cur, curr, low, offs + [cur], wids + [curr])
  {
    AtSymbol(lens, sorted, k, len);
    AtSymbol(lens, sorted, k + 1, len2);
    SortedDistinct(lens, sorted, k, k + 1);
    if len2 > root {
      SameRootBits(lens, sorted[k], sorted[k + 1], root);
    }
  }

  // Where the next symbol needs a new sub-table, its code has only zeros
  // after the root bits ...
  lemma NewRootBitsAligned(lens: seq<nat>, sorted: seq<nat>, root: nat, k: nat, len: nat, len2: nat)
    requires Prefixed(lens) && Sorted(lens, sorted, |lens|)
    requires k + 1 < |sorted| && sorted[k] < |lens| && sorted[k + 1] < |lens|
    requires At(lens, k, len) && At(lens, k + 1, len2) && len2 > root
    requires len > root ==> Low(StreamCode(lens, sorted[k]), root) != Low(StreamCode(lens, sorted[k + 1]), root)
    ensures var c := CodeAt(lens, k + 1, len2); c == Shl(Shr(c, len2 - root), len2 - root)
  {
    NextCodeAt(lens, k, len, len2);
    var c := CodeAt(lens, k, len);
    if len <= root {
      ShlShl(c + 1, root - len, len2 - root);
      ShrShl(Shl(c + 1, root - len), len2 - root, 0);
    } else {
      AtSymbol(lens, sorted, k, len);
      AtSymbol(lens, sorted, k + 1, len2);
      SameRootBits(lens, sorted[k], sorted[k + 1], root);
      ShrShl(c + 1, len2 - len, len - root);
      Carry(c, len - root);
      ShlShl(Shr(c + 1, len - root), len - root, len2 - len);
    }
  }

  // ... and no earlier symbol has the same root bits.
  lemma NewRootBitsFresh(lens: seq<nat>, sorted: seq<nat>, root: nat, k: nat, j: nat)
    requires Prefixed(lens) && Sorted(lens, sorted, |lens|)
    requires j <= k && k + 1 < Offs(lens, MAXBITS + 1) && k + 1 < |sorted|
    requires sorted[j] < |lens| && sorted[k] < |lens| && sorted[k + 1] < |lens|
    requires lens[sorted[j]] > root
    requires lens[sorted[k]] > root ==> Low(StreamCode(lens, sorted[k]), root) != Low(StreamCode(lens, sorted[k + 1]), root)
    ensures Low(StreamCode(lens, sorted[j]), root) != Low(StreamCode(lens, sorted[k + 1]), root)
  {
    if j < k {
      PrefixOrder(lens, sorted, root, j, k);
    }
    PrefixOrder(lens, sorted, root, k, k + 1);
    SameRootBits(lens, sorted[k], sorted[k + 1], root);
    SameRootBits(lens, sorted[j], sorted[k + 1], root);
  }

  // The table entry for symbol s, with the given number of bits.
  method MakeEntry(kind: CodeType, s: nat, bits: nat) returns (here: Code)
    requires s < MaxSymbols(kind)
    ensures here == EntryFor(kind, s, bits)
  {
    var mtch, extra, base;
    match kind {
      case CODES => mtch, extra, base := 20, [], [];
      case LENS => mtch, extra, base := 257, LEXT, LBASE;
      case DISTS => mtch, extra, base := 0, DEXT, DBASE;
    }
    if s + 1 < mtch {
      here := Code(0, bits, s);
    } else if s >= mtch {
      here := Code(extra[s - mtch], bits, base[s - mtch]);
    } else {
      here := Code(32 + 64, bits, 0);
    }
  }

  lemma RestOfCode(lens: seq<nat>, s: nat, d: nat)
    requires s < |lens| && d <= lens[s]
    ensures Shr(StreamCode(lens, s), d) < Pow2(lens[s] - d)
  {
    RevBound(CodeOf(lens, s), lens[s]);
    ShrBound(StreamCode(lens, s), d, lens[s] - d);
  }

  // Create the table entry for symbol s, and replicate it for those indices
  // whose low bits are equal to its code.
  method EnterCode(kind: CodeType, lens: seq<nat>, table: array<Code>, start: nat, root: nat,
                   s: nat, huff: nat, cur: nat, curr: nat, drop: nat)
    requires s < |lens| <= MaxSymbols(kind) && lens[s] > 0 && huff == StreamCode(lens, s)
    requires 1 <= root && drop == Dropped(lens[s], root) && lens[s] - drop <= curr
    requires start + cur + Pow2(curr) <= table.Length
    modifies table
    ensures FilledIn(lens, old(table[..]), table[..], start, root, s, cur, curr, EntryFor(kind, s, lens[s] - drop))
  {
    RestOfCode(lens, s, drop);
    var here := MakeEntry(kind, s, lens[s] - drop);
    Replicate(table, start + cur, curr, lens[s] - drop, Shr(huff, drop), here);
  }

  // Entering a symbol keeps the link to the table being filled.
  lemma CurrentKept(lens: seq<nat>, sorted: seq<nat>, before: seq<Code>, after: seq<Code>, start: nat, root: nat,
                    k: nat, len: nat, cur: nat, curr: nat, low: int, offs: seq<nat>, wids: seq<nat>, here: Code)
    requires Prefixed(lens) && |offs| == |wids| == k < |sorted| && At(lens, k, len)
    requires Sorted(lens, sorted, |lens|)
    requires forall j :: 0 <= j <= k ==> sorted[j] < |lens|
    requires Current(lens, sorted, before, start, root, k, len, cur, curr, low, offs, wids)
    requires FilledIn(lens, before, after, start, root, sorted[k], cur, curr, here)
    ensures Current(lens, sorted, after, start, root, k, len, cur, curr, low, offs, wids)
  {
    AtSymbol(lens, sorted, k, len);
    if len > root {
      RootBits(lens, sorted[k], root);
    }
  }

  // Start the sub-table for the symbol at position k + 1: point its entry in
  // the root table to the entries from cur on.
  lemma OpenSubTable(lens: seq<nat>, kind: CodeType, sorted: seq<nat>, before: seq<Code>, after: seq<Code>,
                     start: nat, root: nat, k: nat, len: nat, len2: nat, cur: nat, curr: nat, cur2: nat, curr2: nat,
                     low: int, low2: nat, offs: seq<nat>, wids: seq<nat>)
    requires Prefixed(lens) && Sorted(lens, sorted, |lens|)
    requires k + 1 < Offs(lens, MAXBITS + 1) <= |sorted|
    requires forall j :: 0 <= j < Offs(lens, MAXBITS + 1) ==> sorted[j] < |lens|
    requires At(lens, k, len) && At(lens, k + 1, len2) && len2 > root >= 1
    requires |offs| == |wids| == k
    requires Current(lens, sorted, before, start, root, k, len, cur, curr, low, offs, wids)
    requires Built(lens, kind, sorted, before, start, root, k + 1, cur, offs + [cur], wids + [curr])
    requires low2 == Low(StreamCode(lens, sorted[k + 1]), root) != low && low2 < Pow2(root)
    requires cur2 == cur + Pow2(curr) && 0 < curr2 < 16 && len2 <= root + curr2
    requires FitsBelow(lens, Shr(CodeAt(lens, k + 1, len2), len2 - root), root, curr2)
    requires start + Pow2(root) <= |before| == |after|
    requires after == before[start + low2 := Code(curr2, root, cur2)]
    ensures Built(lens, kind, sorted, after, start, root, k + 1, cur2, offs + [cur], wids + [curr])
    ensures Current(lens, sorted, after, start, root, k + 1, len2, cur2, curr2, low2, offs + [cur], wids + [curr])
  {
    var offs2, wids2 := offs + [cur], wids + [curr];
    var t := sorted[k + 1];
    AtSymbol(lens, sorted, k, len);
    AtSymbol(lens, sorted, k + 1, len2);
    forall j | 0 <= j < k + 1
      ensures Placed(lens, kind, after, start, root, sorted[j], offs2[j], wids2[j])
      ensures lens[sorted[j]] > root ==> Low(StreamCode(lens, sorted[j]), root) != low2
    {
      if lens[sorted[j]] > root {
        NewRootBitsFresh(lens, sorted, root, k, j);
      }
      LinkKeeps(lens, kind, before, after, start, root, t, low2, sorted[j], offs2[j], wids2[j]);
    }
  }

  lemma {:induction false} RevZero(n: nat)
    ensures Rev(0, n) == 0
  {
    if n > 0 { RevZero(n - 1); }
  }

  // The lengths, counts and symbol order that the table-making loop works on.
  ghost predicate Ready(kind: CodeType, lens: seq<nat>, sorted: seq<nat>, root: nat, max: nat)
  {
    && Prefixed(lens) && |lens| <= MaxSymbols(kind) && Sorted(lens, sorted, |lens|)
    && 1 <= root <= max <= MAXBITS && (kind == CODES ==> max <= root)
    && 0 < Count(lens, max) && Offs(lens, MAXBITS + 1) == Offs(lens, max) + Count(lens, max) <= |sorted|
    && (Complete(lens) || max == 1)
    && (forall s :: 0 <= s < |lens| ==> lens[s] <= max)
    && (forall k :: 0 <= k < Offs(lens, MAXBITS + 1) ==> sorted[k] < |lens| && lens[sorted[k]] > 0)
  }

  // count[] holds the numbers of codes still to be entered.
  ghost predicate Remaining(lens: seq<nat>, count: seq<nat>, k: nat, len: nat) {
    && At(lens, k, len) && |count| == MAXBITS + 1
    && count[len] == Offs(lens, len) + Count(lens, len) - k
    && forall l :: len < l <= MAXBITS ==> count[l] == Count(lens, l)
  }

  // Go to the next symbol: its length, and its code from the incremented one.
  lemma NextSymbol(kind: CodeType, lens: seq<nat>, sorted: seq<nat>, count: seq<nat>, root: nat, max: nat, k: nat, len: nat)
    requires Ready(kind, lens, sorted, root, max)
    requires Remaining(lens, count, k, len) && len <= max && !(len == max && count[len] == 1)
    ensures k + 1 < Offs(lens, MAXBITS + 1)
    ensures var len2 := lens[sorted[k + 1]];
      && len <= len2 && len2 <= max
      && (count[len] > 1 ==> len2 == len)
      && Remaining(lens, count[len := count[len] - 1], k + 1, len2)
      && Rev(CodeAt(lens, k, len) + 1, len) == Rev(CodeAt(lens, k + 1, len2), len2)
      && Rev(CodeAt(lens, k + 1, len2), len2) == StreamCode(lens, sorted[k + 1])
  {
    if len < max { OffsMono(lens, len, max); }
    assert k + 1 < Offs(lens, MAXBITS + 1);
    var len2 := Bucket(lens, k + 1, MAXBITS + 1);
    AtSymbol(lens, sorted, k + 1, len2);
    NextCodeAt(lens, k, len, len2);
    RevShl(CodeAt(lens, k, len) + 1, len, len2 - len);
    if len < len2 {
      OffsMono(lens, len, len2);
    }
  }

  // Enter the current symbol.
  method EnterStep(kind: CodeType, lens: seq<nat>, sorted: seq<nat>, table: array<Code>, start: nat, root: nat, max: nat,
                   sym: nat, len: nat, huff: nat, cur: nat, curr: nat, drop: nat,
                   ghost low: int, ghost offs: seq<nat>, ghost wids: seq<nat>)
    requires Ready(kind, lens, sorted, root, max) && sym < Offs(lens, MAXBITS + 1) && At(lens, sym, len)
    requires lens[sorted[sym]] == len && huff == StreamCode(lens, sorted[sym]) && drop == Dropped(len, root)
    requires start + Pow2(root) <= table.Length && start + cur + Pow2(curr) <= table.Length
    requires Built(lens, kind, sorted, table[..], start, root, sym, cur, offs, wids)
    requires Current(lens, sorted, table[..], start, root, sym, len, cur, curr, low, offs, wids)
    modifies table
    ensures forall y :: 0 <= y < start ==> table[y] == old(table[y])
    ensures Built(lens, kind, sorted, table[..], start, root, sym + 1, cur, offs + [cur], wids + [curr])
    ensures Current(lens, sorted, table[..], start, root, sym, len, cur, curr, low, offs, wids)
  {
    ghost var before, here := table[..], EntryFor(kind, sorted[sym], len - drop);
    EnterCode(kind, lens, table, start, root, sorted[sym], huff, cur, curr, drop);
    ghost var after := table[..];
    EnterSymbol(lens, kind, sorted, before, after, start, root, sym, len, cur, curr, low, offs, wids);
    CurrentKept(lens, sorted, before, after, start, root, sym, len, cur, curr, low, offs, wids, here);
  }

  // Count the symbol off, and find the length and the code of the one after it.
  method NextStep(kind: CodeType, lens: seq<nat>, count: array<nat>, sorted: seq<nat>, root: nat, max: nat,
                  sym: nat, len: nat, huff: nat)
      returns (huff2: nat, len2: nat, done: bool)
    requires Ready(kind, lens, sorted, root, max) && len <= max
    requires Remaining(lens, count[..], sym, len) && huff == Rev(CodeAt(lens, sym, len), len)
    modifies count
    ensures done ==> sym + 1 == Offs(lens, MAXBITS + 1) && len2 == len == max && huff2 == Rev(CodeAt(lens, sym, len) + 1, len)
    ensures !done ==> sym + 1 < Offs(lens, MAXBITS + 1) && len <= len2 <= max && lens[sorted[sym + 1]] == len2
    ensures !done ==> Remaining(lens, count[..], sym + 1, len2)
    ensures !done ==> huff2 == Rev(CodeAt(lens, sym + 1, len2), len2) == StreamCode(lens, sorted[sym + 1])
  {
    huff2 := NextCode(huff, len, CodeAt(lens, sym, len));
    len2, done := len, false;
    ghost var counts := count[..];
    count[len] := count[len] - 1;
    if count[len] == 0 {
      if len == max {
        done := true;
        return;
      }
      NextSymbol(kind, lens, sorted, counts, root, max, sym, len);
      len2 := lens[sorted[sym + 1]];
    } else {
      NextSymbol(kind, lens, sorted, counts, root, max, sym, len);
    }
    assert count[..] == counts[len := counts[len] - 1];
  }

  // Size a new sub-table from the counts that remain.
  method NextTableBits(kind: CodeType, lens: seq<nat>, count: array<nat>, sorted: seq<nat>, root: nat, max: nat,
                       sym: nat, ghost len0: nat, len: nat)
      returns (curr: nat)
    requires Ready(kind, lens, sorted, root, max) && sym + 1 < Offs(lens, MAXBITS + 1)
    requires At(lens, sym, len0) && Remaining(lens, count[..], sym + 1, len) && root < len <= max
    requires len0 > root ==> Low(StreamCode(lens, sorted[sym]), root) != Low(StreamCode(lens, sorted[sym + 1]), root)
    ensures 0 < curr < 16 && len <= root + curr <= max
    ensures FitsBelow(lens, Shr(CodeAt(lens, sym + 1, len), len - root), root, curr)
    ensures NotFilled(lens, Shr(CodeAt(lens, sym + 1, len), len - root), root, len, curr)
    ensures Low(CodeAt(lens, sym + 1, len), len - root) == 0
    ensures sym + 1 + Pow2(len - root) + (root + curr - len) <= Offs(lens, MAXBITS + 1)
  {
    hide Low, Below;
    NewRootBitsAligned(lens, sorted, root, sym, len0, len);
    ghost var c := CodeAt(lens, sym + 1, len);
    ComposeUnique(Shr(c, len - root), 0, len - root);
    AtSymbol(lens, sorted, sym + 1, len);
    RootBits(lens, sorted[sym + 1], root);
    curr := SubTableBits(lens, count, len, root, max, c, Shr(c, len - root), sym + 1);
  }

  // After the last code the incremented code is zero, unless a lone one-bit
  // code leaves the entry 1 free.
  lemma LastCode(kind: CodeType, lens: seq<nat>, sorted: seq<nat>, root: nat, max: nat, k: nat)
    requires Ready(kind, lens, sorted, root, max)
    requires At(lens, k, max) && k + 1 == Offs(lens, MAXBITS + 1)
    ensures Complete(lens) ==> Rev(CodeAt(lens, k, max) + 1, max) == 0
    ensures max == 1 && Count(lens, 1) == 1 ==> k == 0 && Rev(CodeAt(lens, k, max) + 1, max) == 1
  {
    hide Complete, Sorted, Rev, CountTo, Below, Pow2;
    FirstCodeLeft(lens, max);
    BelowStep(lens, 1, |lens|);
    if Complete(lens) {
      LeftIsZero(lens, max);
      RevShl(1, 0, max);
      ShlOne(max);
      assert Rev(1, 0) == 0 by { RevNone(1); }
    }
    RevNone(1);
  }

  lemma RevNone(c: nat)
    ensures Rev(c, 0) == 0 && Rev(1, 1) == 1
  {
    assert Pow2(0) == 1;
  }

  lemma LeftIsZero(lens: seq<nat>, max: nat)
    requires Complete(lens) && max <= MAXBITS && forall s :: 0 <= s < |lens| ==> lens[s] <= max
    ensures Left(lens, max) == 0
  {
    hide Left, KraftTo, Pow2;
    LeftOfMax(lens, max);
  }

  // No codes longer than max: what is unused at max is unused at the end.
  lemma LeftOfMax(lens: seq<nat>, max: nat)
    requires max <= MAXBITS && Prefixed(lens) && forall s :: 0 <= s < |lens| ==> lens[s] <= max
    ensures Left(lens, max) == 0 <==> Kraft(lens) == Pow2(MAXBITS)
  {
    LeftKraft(lens, max);
    ShlIntSub(Left(lens, max), 0, MAXBITS - max);
    KraftUpToAll(lens, max, |lens|);
  }

  lemma {:induction false} KraftUpToAll(lens: seq<nat>, max: nat, m: nat)
    requires max <= MAXBITS && m <= |lens| && LengthsInRange(lens)
    requires forall s :: 0 <= s < |lens| ==> lens[s] <= max
    ensures KraftUpTo(lens, max, m) == KraftTo(lens, m)
  {
    if m > 0 { KraftUpToAll(lens, max, m - 1); }
  }

  lemma LoneCode(lens: seq<nat>, kind: CodeType, sorted: seq<nat>, before: seq<Code>, after: seq<Code>, start: nat,
                 offs: seq<nat>, wids: seq<nat>)
    requires Built(lens, kind, sorted, before, start, 1, 1, 0, offs, wids) && lens[sorted[0]] == 1
    requires StreamCode(lens, sorted[0]) == 0
    requires start + 1 < |before| && after == before[start + 1 := INVALID]
    ensures Built(lens, kind, sorted, after, start, 1, 1, 0, offs, wids)
  {
    hide StreamCode, Mine, EntryFor, Low, Shr, Pow2, Dropped;
    EntryOneFree(lens, sorted[0]);
    assert Placed(lens, kind, before, start, 1, sorted[0], offs[0], wids[0]);
    assert Placed(lens, kind, after, start, 1, sorted[0], offs[0], wids[0]);
  }

  lemma EntryOneFree(lens: seq<nat>, s: nat)
    requires s < |lens| && lens[s] == 1 && StreamCode(lens, s) == 0
    ensures !Mine(lens, 1, s, 1)
  {
    assert Shr(0, 0) == 0;
    assert Low(1, 1) == 1;
  }

  // Mark the one entry that a lone code leaves free.
  method FinishTable(kind: CodeType, lens: seq<nat>, sorted: seq<nat>, table: array<Code>, start: nat, root: nat,
                     max: nat, huff: nat, cur: nat, len: nat, drop: nat,
                     ghost k: nat, ghost offs: seq<nat>, ghost wids: seq<nat>)
    requires Ready(kind, lens, sorted, root, max)
    requires Complete(lens) || (max == 1 && Count(lens, 1) == 1)
    requires At(lens, k, max) && k + 1 == Offs(lens, MAXBITS + 1) && len == max
    requires huff == Rev(CodeAt(lens, k, max) + 1, max) && drop == Dropped(len, root) && (len <= root ==> cur == 0)
    requires start + Pow2(root) <= table.Length
    requires Built(lens, kind, sorted, table[..], start, root, k + 1, cur, offs, wids)
    modifies table
    ensures forall y :: 0 <= y < start ==> table[y] == old(table[y])
    ensures Built(lens, kind, sorted, table[..], start, root, k + 1, cur, offs, wids)
    ensures !Complete(lens) ==> root == 1 && start + 1 < table.Length && table[start + 1] == INVALID
  {
    LastCode(kind, lens, sorted, root, max, k);
    if huff != 0 {
      AtSymbol(lens, sorted, k, max);
      assert StreamCode(lens, sorted[0]) == 0 by { FirstCodeZero(lens, 1); RevZero(1); BelowStep(lens, 1, |lens|); }
      ghost var before := table[..];
      table[start + cur + huff] := Code(64, len - drop, 0);
      LoneCode(lens, kind, sorted, before, table[..], start, offs, wids);
    }
  }

  lemma NewIsSnug(lens: seq<nat>, sorted: seq<nat>, root: nat, k: nat, len: nat, len2: nat, curr: nat, curr2: nat, used: nat)
    requires Prefixed(lens) && Sorted(lens, sorted, |lens|) && k + 1 < |sorted|
    requires At(lens, k, len) && At(lens, k + 1, len2) && Snug(lens, root, k, len, curr, used)
    requires sorted[k] < |lens| && sorted[k + 1] < |lens| && root < len2 <= root + curr2
    requires len > root ==> Low(StreamCode(lens, sorted[k]), root) != Low(StreamCode(lens, sorted[k + 1]), root)
    requires Low(CodeAt(lens, k + 1, len2), len2 - root) == 0
    requires NotFilled(lens, Shr(CodeAt(lens, k + 1, len2), len2 - root), root, len2, curr2)
    ensures Snug(lens, root, k + 1, len2, curr2, used + Pow2(curr2))
  {
    hide Low, Shr, Snug, NotFilled, StreamCode;
    AtSymbol(lens, sorted, k, len);
    AtSymbol(lens, sorted, k + 1, len2);
    if len > root { SameRootBits(lens, sorted[k], sorted[k + 1], root); }
    SnugNew(lens, root, k, len, len2, curr, curr2, used);
  }

  lemma SameIsSnug(lens: seq<nat>, sorted: seq<nat>, root: nat, k: nat, len: nat, len2: nat, curr: nat, used: nat)
    requires Prefixed(lens) && Sorted(lens, sorted, |lens|) && k + 1 < |sorted|
    requires At(lens, k, len) && At(lens, k + 1, len2) && Snug(lens, root, k, len, curr, used)
    requires sorted[k] < |lens| && sorted[k + 1] < |lens|
    requires len2 > root ==> len > root && Low(StreamCode(lens, sorted[k]), root) == Low(StreamCode(lens, sorted[k + 1]), root)
    requires len > root ==> FitsBelow(lens, Shr(CodeAt(lens, k, len), len - root), root, curr)
    ensures Snug(lens, root, k + 1, len2, curr, used)
  {
    hide Low, Shr, Snug, StreamCode;
    AtSymbol(lens, sorted, k, len);
    AtSymbol(lens, sorted, k + 1, len2);
    if len2 > root { SameRootBits(lens, sorted[k], sorted[k + 1], root); }
    SnugSame(lens, root, k, len, len2, curr, used);
  }

  // With inflate()'s numbers the space never runs out.
  lemma SnugFits(kind: CodeType, lens: seq<nat>, root: nat, k: nat, len: nat, curr: nat, used: nat)
    requires Usual(kind, |lens|, root) && Complete(lens) && At(lens, k, len) && Snug(lens, root, k, len, curr, used)
    requires root < len && root + curr <= MAXBITS && Low(CodeAt(lens, k, len), len - root) == 0
    requires k + Pow2(len - root) + (root + curr - len) <= Offs(lens, MAXBITS + 1)
    ensures used <= Space(kind, root)
  {
    hide Low, Slack, Below, NotFilled, Complete;
    FewShort(kind, lens, root);
    SlackFits(kind, |lens|, root, used - Pow2(root), k - Offs(lens, root + 1), Offs(lens, root + 1), curr, len - root);
  }

  // Size a new sub-table, and see whether it still fits.
  method NextTable(kind: CodeType, lens: seq<nat>, count: array<nat>, sorted: seq<nat>, root: nat, max: nat,
                   sym: nat, ghost len0: nat, len: nat, ghost curr: nat, used: nat)
      returns (ret: int, curr2: nat, used2: nat)
    requires Ready(kind, lens, sorted, root, max) && sym + 1 < Offs(lens, MAXBITS + 1)
    requires At(lens, sym, len0) && Remaining(lens, count[..], sym + 1, len) && root < len <= max
    requires len0 > root ==> Low(StreamCode(lens, sorted[sym]), root) != Low(StreamCode(lens, sorted[sym + 1]), root)
    requires Snug(lens, root, sym, len0, curr, used)
    ensures 0 < curr2 < 16 && len <= root + curr2 && used2 == used + Pow2(curr2)
    ensures FitsBelow(lens, Shr(CodeAt(lens, sym + 1, len), len - root), root, curr2)
    ensures Snug(lens, root, sym + 1, len, curr2, used2)
    ensures ret == (if used2 > Space(kind, root) then 1 else 0) && (Usual(kind, |lens|, root) ==> ret == 0)
  {
    hide Low, Shr, Snug, NotFilled, FitsBelow, StreamCode, Below, Pow2, Sorted;
    curr2 := NextTableBits(kind, lens, count, sorted, root, max, sym, len0, len);
    used2 := used + Pow2(curr2);
    NewIsSnug(lens, sorted, root, sym, len0, len, curr, curr2, used);
    if Usual(kind, |lens|, root) { SnugFits(kind, lens, root, sym + 1, len, curr2, used2); }
    ret := if used2 > Space(kind, root) then 1 else 0;
  }

  // Begin a sub-table where the root bits of the code have changed.
  method OpenStep(kind: CodeType, lens: seq<nat>, count: array<nat>, sorted: seq<nat>, table: array<Code>,
                  start: nat, root: nat, max: nat, sym: nat, ghost len0: nat, len: nat, huff: nat,
                  cur: nat, curr: nat, drop: nat, used: nat, low: int, ghost offs: seq<nat>, ghost wids: seq<nat>)
      returns (ret: int, cur2: nat, curr2: nat, drop2: nat, used2: nat, low2: int)
    requires Ready(kind, lens, sorted, root, max) && sym + 1 < Offs(lens, MAXBITS + 1)
    requires At(lens, sym, len0) && Remaining(lens, count[..], sym + 1, len) && len0 <= len <= max
    requires huff == StreamCode(lens, sorted[sym + 1]) && drop == Dropped(len0, root)
    requires start + Space(kind, root) <= table.Length && Pow2(root) <= used == cur + Pow2(curr) <= Space(kind, root)
    requires |offs| == |wids| == sym
    requires Built(lens, kind, sorted, table[..], start, root, sym + 1, cur, offs + [cur], wids + [curr])
    requires Current(lens, sorted, table[..], start, root, sym, len0, cur, curr, low, offs, wids)
    requires Snug(lens, root, sym, len0, curr, used)
    modifies table
    ensures (ret == 0 || ret == 1) && (len <= root || Usual(kind, |lens|, root) ==> ret == 0)
    ensures ret == 0 ==> Snug(lens, root, sym + 1, len, curr2, used2)
    ensures forall y :: 0 <= y < start ==> table[y] == old(table[y])
    ensures ret == 0 ==> used <= used2 && Pow2(root) <= used2 == cur2 + Pow2(curr2) <= Space(kind, root) && drop2 == Dropped(len, root)
    ensures ret == 0 ==>
      && Built(lens, kind, sorted, table[..], start, root, sym + 1, cur2, offs + [cur], wids + [curr])
      && Current(lens, sorted, table[..], start, root, sym + 1, len, cur2, curr2, low2, offs + [cur], wids + [curr])
  {
    hide Snug, Placed;
    ret, cur2, curr2, drop2, used2, low2 := 0, cur, curr, drop, used, low;
    if len > root && Low(huff, root) != low {
      if drop2 == 0 { drop2 := root; }
      AtSymbol(lens, sorted, sym, len0);
      cur2, low2 := cur + Pow2(curr), Low(huff, root);
      ret, curr2, used2 := NextTable(kind, lens, count, sorted, root, max, sym, len0, len, curr, used);
      if ret != 0 { return; }
      AtSymbol(lens, sorted, sym + 1, len);
      RootBits(lens, sorted[sym + 1], root);
      ghost var before := table[..];
      table[start + low2] := Code(curr2, root, cur2);
      OpenSubTable(lens, kind, sorted, before, table[..], start, root, sym, len0, len, cur, curr, cur2, curr2,
                   low, low2, offs, wids);
    } else {
      SameSubTable(lens, sorted, table[..], start, root, sym, len0, len, cur, curr, low, offs, wids);
      SameIsSnug(lens, sorted, root, sym, len0, len, curr, used);
    }
  }

  // The state of the loop: the symbol at position sym is next, its code is
  // huff, and it goes into the table of 1 << curr entries at offset cur.
  ghost predicate Filling(kind: CodeType, lens: seq<nat>, count: seq<nat>, sorted: seq<nat>, table: seq<Code>,
                          start: nat, root: nat, max: nat, sym: nat, len: nat, huff: nat,
                          cur: nat, curr: nat, drop: nat, used: nat, low: int, offs: seq<nat>, wids: seq<nat>)
  {
    && Ready(kind, lens, sorted, root, max)
    && sym < Offs(lens, MAXBITS + 1) && len <= max && Remaining(lens, count, sym, len)
    && lens[sorted[sym]] == len && huff == Rev(CodeAt(lens, sym, len), len) == StreamCode(lens, sorted[sym])
    && drop == Dropped(len, root)
    && used == cur + Pow2(curr) && Pow2(root) <= used <= Space(kind, root)
    && start + Space(kind, root) <= |table|
    && Built(lens, kind, sorted, table, start, root, sym, cur, offs, wids)
    && Current(lens, sorted, table, start, root, sym, len, cur, curr, low, offs, wids)
  }

  lemma SnugStart(lens: seq<nat>, root: nat, min: nat)
    requires At(lens, 0, min) && min <= root
    ensures Snug(lens, root, 0, min, root, Pow2(root))
  {
    hide Below, Pow2;
  }

  // All tables filled so far lie below offset used.
  ghost predicate Within(offs: seq<nat>, wids: seq<nat>, used: nat) {
    |offs| == |wids| && forall j :: 0 <= j < |offs| ==> offs[j] + Pow2(wids[j]) <= used
  }

  lemma WithinNone(used: nat)
    ensures Within([], [], used)
  {
  }

  lemma WithinMore(offs: seq<nat>, wids: seq<nat>, used: nat, cur: nat, curr: nat)
    requires Within(offs, wids, used) && cur + Pow2(curr) <= used
    ensures Within(offs + [cur], wids + [curr], used)
  {
  }

  lemma WithinLarger(offs: seq<nat>, wids: seq<nat>, used: nat, used2: nat)
    requires Within(offs, wids, used) && used <= used2
    ensures Within(offs, wids, used2)
  {
  }

  // That state, with all tables so far below offset used, and not too many.
  ghost predicate Going(kind: CodeType, lens: seq<nat>, count: seq<nat>, sorted: seq<nat>, table: seq<Code>,
                        start: nat, root: nat, max: nat, sym: nat, len: nat, huff: nat,
                        cur: nat, curr: nat, drop: nat, used: nat, low: int, offs: seq<nat>, wids: seq<nat>)
  {
    && Filling(kind, lens, count, sorted, table, start, root, max, sym, len, huff, cur, curr, drop, used, low, offs, wids)
    && Within(offs, wids, used) && Snug(lens, root, sym, len, curr, used)
  }

  lemma FillingStart(kind: CodeType, lens: seq<nat>, count: seq<nat>, sorted: seq<nat>, table: seq<Code>,
                     start: nat, root: nat, min: nat, max: nat)
    requires Ready(kind, lens, sorted, root, max) && min <= root && Remaining(lens, count, 0, min)
    requires Pow2(root) <= Space(kind, root) && start + Space(kind, root) <= |table|
    ensures Filling(kind, lens, count, sorted, table, start, root, max, 0, min, 0, 0, root, 0, Pow2(root), -1, [], [])
  {
    FirstCodeZero(lens, min);
    RevZero(min);
    AtSymbol(lens, sorted, 0, min);
  }

  lemma SymbolsLeft(kind: CodeType, lens: seq<nat>, sorted: seq<nat>, root: nat, max: nat)
    requires Ready(kind, lens, sorted, root, max)
    ensures Offs(lens, MAXBITS + 1) > 0
  {
    hide Below, CountTo, Complete, Sorted;
  }

  lemma GoingStart(kind: CodeType, lens: seq<nat>, count: seq<nat>, sorted: seq<nat>, table: seq<Code>,
                   start: nat, root: nat, min: nat, max: nat)
    requires Ready(kind, lens, sorted, root, max) && min <= root && Remaining(lens, count, 0, min)
    requires Pow2(root) <= Space(kind, root) && start + Space(kind, root) <= |table|
    ensures Going(kind, lens, count, sorted, table, start, root, max, 0, min, 0, 0, root, 0, Pow2(root), -1, [], [])
    ensures Within([], [], Pow2(root)) && Offs(lens, MAXBITS + 1) > 0
  {
    hide Within, Snug, Filling, Ready, Below, CountTo, Pow2;
    FillingStart(kind, lens, count, sorted, table, start, root, min, max);
    SnugStart(lens, root, min);
    WithinNone(Pow2(root));
    SymbolsLeft(kind, lens, sorted, root, max);
  }

  // Nothing behind the tables matters.
  lemma BuiltBelow(lens: seq<nat>, kind: CodeType, sorted: seq<nat>, table: seq<Code>, start: nat, root: nat,
                   k: nat, cur: nat, offs: seq<nat>, wids: seq<nat>, used: nat)
    requires Built(lens, kind, sorted, table, start, root, k, cur, offs, wids) && Within(offs, wids, used)
    requires Pow2(root) <= used && start + used <= |table|
    ensures Built(lens, kind, sorted, table[..start + used], start, root, k, cur, offs, wids)
  {
    hide Placed;
    forall j | 0 <= j < k
      ensures Placed(lens, kind, table[..start + used], start, root, sorted[j], offs[j], wids[j])
    {
      PlacedBelow(lens, kind, table, start, root, sorted[j], offs[j], wids[j], used);
    }
  }

  lemma PlacedBelow(lens: seq<nat>, kind: CodeType, table: seq<Code>, start: nat, root: nat,
                    s: nat, off: nat, wid: nat, used: nat)
    requires Placed(lens, kind, table, start, root, s, off, wid)
    requires off + Pow2(wid) <= used && Pow2(root) <= used && start + used <= |table|
    ensures Placed(lens, kind, table[..start + used], start, root, s, off, wid)
  {
    hide EntryFor, StreamCode, Low, Shr;
  }

  // One round of the loop: enter a symbol, go on to the next one, and begin
  // another sub-table if needed. done says that the table is finished.
  method TableStep(kind: CodeType, lens: seq<nat>, count: array<nat>, sorted: seq<nat>, table: array<Code>,
                   start: nat, root: nat, max: nat, sym: nat, len: nat, huff: nat, cur: nat, curr: nat, drop: nat,
                   used: nat, low: int, ghost offs: seq<nat>, ghost wids: seq<nat>)
      returns (ret: int, done: bool, huff2: nat, len2: nat, cur2: nat, curr2: nat, drop2: nat, used2: nat, low2: int,
               ghost offs2: seq<nat>, ghost wids2: seq<nat>)
    requires Going(kind, lens, count[..], sorted, table[..], start, root, max, sym, len, huff, cur, curr, drop, used, low, offs, wids)
    requires Complete(lens) || (max == 1 && Count(lens, 1) == 1)
    modifies table, count
    ensures (ret == 0 || ret == 1) && (max <= root || Usual(kind, |lens|, root) ==> ret == 0)
    ensures forall y :: 0 <= y < start ==> table[y] == old(table[y])
    ensures ret == 0 ==> Pow2(root) <= used2 <= Space(kind, root) && Within(offs2, wids2, used2)
    ensures ret == 0 && !done ==> sym + 1 < Offs(lens, MAXBITS + 1)
    ensures ret == 0 && !done ==> Going(kind, lens, count[..], sorted, table[..], start, root, max, sym + 1, len2, huff2,
                                        cur2, curr2, drop2, used2, low2, offs2, wids2)
    ensures done ==> ret == 0 && Built(lens, kind, sorted, table[..], start, root, Offs(lens, MAXBITS + 1), cur2, offs2, wids2)
    ensures done && !Complete(lens) ==> root == 1 && start + 1 < table.Length && table[start + 1] == INVALID
  {
    hide EntryFor, Low, Shr, Rev, CodeOf, Placed, Sorted, Pow2, Within, Snug, FitsBelow, Below, CountTo, Complete;
    EnterStep(kind, lens, sorted, table, start, root, max, sym, len, huff, cur, curr, drop, low, offs, wids);
    offs2, wids2 := offs + [cur], wids + [curr];
    WithinMore(offs, wids, used, cur, curr);
    huff2, len2, done := NextStep(kind, lens, count, sorted, root, max, sym, len, huff);
    ret, cur2, curr2, drop2, used2, low2 := 0, cur, curr, drop, used, low;
    if done {
      FinishTable(kind, lens, sorted, table, start, root, max, huff2, cur, len2, drop, sym, offs2, wids2);
      return;
    }
    ret, cur2, curr2, drop2, used2, low2 := OpenStep(kind, lens, count, sorted, table, start, root, max, sym, len, len2,
                                                     huff2, cur, curr, drop, used, low, offs, wids);
    if ret == 0 { WithinLarger(offs2, wids2, used, used2); }
  }

  method BuildTable(kind: CodeType, lens: seq<nat>, count: array<nat>, sorted: seq<nat>, table: array<Code>,
                    start: nat, root: nat, min: nat, max: nat)
      returns (ret: int, used: nat, ghost last: nat, ghost offs: seq<nat>, ghost wids: seq<nat>)
    requires Ready(kind, lens, sorted, root, max) && min <= root
    requires Remaining(lens, count[..], 0, min)
    requires Complete(lens) || (max == 1 && Count(lens, 1) == 1)
    requires start + Space(kind, root) <= table.Length
    modifies table, count
    ensures (ret == 0 || ret == 1) && (max <= root && Pow2(root) <= Space(kind, root) ==> ret == 0)
    ensures Usual(kind, |lens|, root) ==> ret == 0
    ensures forall y :: 0 <= y < start ==> table[y] == old(table[y])
    ensures ret == 0 ==> Pow2(root) <= used <= Space(kind, root)
    ensures ret == 0 ==>
      Built(lens, kind, sorted, table[..], start, root, Offs(lens, MAXBITS + 1), last, offs, wids)
    ensures ret == 0 ==> Within(offs, wids, used)
    ensures ret == 0 && !Complete(lens) ==> root == 1 && start + 1 < table.Length && table[start + 1] == INVALID
  {
    hide Pow2, Within, Complete, Going, Remaining, Ready, Built, CountTo, Below;
    var huff: nat, sym: nat, len: nat, cur: nat, curr: nat, drop: nat := 0, 0, min, 0, root, 0;
    var low: int := -1;
    assert Usual(kind, |lens|, root) ==> Pow2(root) <= Space(kind, root) by { Pow2Values(); }
    ret, used, last, offs, wids := 0, Pow2(root), 0, [], [];
    if used > Space(kind, root) {
      ret := 1;
      return;
    }
    GoingStart(kind, lens, count[..], sorted, table[..], start, root, min, max);
    var done := false;
    while !done
      invariant !done ==> sym < Offs(lens, MAXBITS + 1)
      invariant !done ==> Going(kind, lens, count[..], sorted, table[..], start, root, max, sym, len, huff,
                                cur, curr, drop, used, low, offs, wids)
      invariant Pow2(root) <= used <= Space(kind, root) && Within(offs, wids, used)
      invariant done ==> Built(lens, kind, sorted, table[..], start, root, Offs(lens, MAXBITS + 1), cur, offs, wids)
      invariant done && !Complete(lens) ==> root == 1 && start + 1 < table.Length && table[start + 1] == INVALID
      invariant ret == 0 && forall y :: 0 <= y < start ==> table[y] == old(table[y])
      decreases if done then 0 else Offs(lens, MAXBITS + 1) - sym
    {
      ret, done, huff, len, cur, curr, drop, used, low, offs, wids := TableStep(kind, lens, count, sorted, table, start,
        root, max, sym, len, huff, cur, curr, drop, used, low, offs, wids);
      if ret != 0 { return; }
      if !done { sym := sym + 1; }
    }
    last := cur;
  }

  // ---- From the filled table to its meaning ----

  lemma EntryIsNoLink(kind: CodeType, s: nat, bits: nat)
    requires s < MaxSymbols(kind)
    ensures !IsLink(EntryFor(kind, s, bits)) && EntryFor(kind, s, bits).bits == bits
  {
  }

  // The bits h lead to the entry of symbol s, and its whole code is consumed.
  ghost predicate Found(lens: seq<nat>, kind: CodeType, table: seq<Code>, start: nat, root: nat, s: nat, h: nat)
  {
    && s < |lens| <= MaxSymbols(kind)
    && start + Pow2(root) <= |table| && Low(h, root) < Pow2(root)
    && var e := table[start + Low(h, root)];
       if lens[s] <= root then e == EntryFor(kind, s, lens[s]) else
         && 0 < e.op < 16 && e.bits == root
         && start + e.val + Pow2(e.op) <= |table| && Low(Shr(h, root), e.op) < Pow2(e.op)
         && table[start + e.val + Low(Shr(h, root), e.op)] == EntryFor(kind, s, lens[s] - root)
  }

  lemma ShortIsFound(lens: seq<nat>, kind: CodeType, table: seq<Code>, start: nat, root: nat,
                     s: nat, off: nat, wid: nat, h: nat)
    requires Placed(lens, kind, table, start, root, s, off, wid) && Matches(lens, s, h) && lens[s] <= root
    ensures Found(lens, kind, table, start, root, s, h)
  {
    Compose(h, root);
    LowLow(h, lens[s], root);
    assert Shr(StreamCode(lens, s), 0) == StreamCode(lens, s);
    assert Mine(lens, root, s, Low(h, root));
  }

  lemma LongIsMine(lens: seq<nat>, root: nat, s: nat, wid: nat, h: nat)
    requires s < |lens| && Matches(lens, s, h) && root < lens[s] <= root + wid
    ensures Low(h, root) == Low(StreamCode(lens, s), root)
    ensures Mine(lens, root, s, Low(Shr(h, root), wid))
  {
    LowLow(h, root, lens[s]);
    LowLow(Shr(h, root), lens[s] - root, wid);
    LowShr(h, root, lens[s] - root);
  }

  lemma LongIsFound(lens: seq<nat>, kind: CodeType, table: seq<Code>, start: nat, root: nat,
                    s: nat, off: nat, wid: nat, h: nat)
    requires Placed(lens, kind, table, start, root, s, off, wid) && Matches(lens, s, h) && lens[s] > root
    ensures Found(lens, kind, table, start, root, s, h)
  {
    Compose(h, root);
    Compose(Shr(h, root), wid);
    LongIsMine(lens, root, s, wid, h);
    var y := start + off + Low(Shr(h, root), wid);
    assert y - start - off == Low(Shr(h, root), wid);
    assert table[y] == EntryFor(kind, s, lens[s] - root);
  }

  lemma BuiltIsFound(lens: seq<nat>, kind: CodeType, sorted: seq<nat>, table: seq<Code>, start: nat, root: nat,
                     last: nat, offs: seq<nat>, wids: seq<nat>, s: nat, h: nat)
    requires Prefixed(lens) && Sorted(lens, sorted, |lens|)
    requires Built(lens, kind, sorted, table, start, root, Offs(lens, MAXBITS + 1), last, offs, wids)
    requires s < |lens| && Matches(lens, s, h)
    ensures Found(lens, kind, table, start, root, s, h)
  {
    var k := SymbolAt(lens, sorted, s);
    if lens[s] <= root {
      ShortIsFound(lens, kind, table, start, root, s, offs[k], wids[k], h);
    } else {
      LongIsFound(lens, kind, table, start, root, s, offs[k], wids[k], h);
    }
  }

  lemma FoundLookup(lens: seq<nat>, kind: CodeType, table: seq<Code>, start: nat, root: nat, s: nat, h: nat)
    requires Found(lens, kind, table, start, root, s, h) && InRange(table, start, root)
    ensures FindsSymbol(table, start, root, kind, lens, s, h)
  {
    EntryIsNoLink(kind, s, lens[s]);
    if lens[s] > root { EntryIsNoLink(kind, s, lens[s] - root); }
    hide EntryFor, Low, Shr;
  }

  // Every bit string finds a symbol, or the free entry of a lone code.
  lemma Covered(lens: seq<nat>, kind: CodeType, sorted: seq<nat>, table: seq<Code>, start: nat, root: nat,
                last: nat, offs: seq<nat>, wids: seq<nat>, h: nat) returns (s: nat)
    requires Prefixed(lens) && Sorted(lens, sorted, |lens|) && |lens| <= MaxSymbols(kind)
    requires Built(lens, kind, sorted, table, start, root, Offs(lens, MAXBITS + 1), last, offs, wids)
    requires start + Pow2(root) <= |table|
    requires Complete(lens) || (root == 1 && table[start + 1] == INVALID && Lone(lens))
    ensures s < |lens|
    ensures (Matches(lens, s, h) && Found(lens, kind, table, start, root, s, h))
         || (root == 1 && Low(h, 1) == 1 && table[start + 1] == INVALID)
  {
    s := SomeMatchOrFree(lens, h);
    if Matches(lens, s, h) {
      BuiltIsFound(lens, kind, sorted, table, start, root, last, offs, wids, s, h);
    }
  }

  lemma EntryInRange(lens: seq<nat>, kind: CodeType, sorted: seq<nat>, table: seq<Code>, start: nat, root: nat,
                     last: nat, offs: seq<nat>, wids: seq<nat>, h: nat)
    requires Prefixed(lens) && Sorted(lens, sorted, |lens|) && |lens| <= MaxSymbols(kind)
    requires Built(lens, kind, sorted, table, start, root, Offs(lens, MAXBITS + 1), last, offs, wids)
    requires start + Pow2(root) <= |table| && h < Pow2(root)
    requires Complete(lens) || (root == 1 && table[start + 1] == INVALID && Lone(lens))
    ensures IsLink(table[start + h]) ==>
      start + table[start + h].val + Pow2(table[start + h].op) <= |table| && table[start + h].bits == root
    ensures IsLink(table[start + h]) ==> exists s :: 0 <= s < |lens| && lens[s] > root
  {
    hide EntryFor, Low, Shr, Rev, Built, Sorted, Complete, Kraft;
    LowSmall(h, root);
    var s := Covered(lens, kind, sorted, table, start, root, last, offs, wids, h);
    EntryIsNoLink(kind, s, lens[s]);
  }

  lemma BuiltInRange(lens: seq<nat>, kind: CodeType, sorted: seq<nat>, table: seq<Code>, start: nat, root: nat,
                     last: nat, offs: seq<nat>, wids: seq<nat>)
    requires Prefixed(lens) && Sorted(lens, sorted, |lens|) && |lens| <= MaxSymbols(kind)
    requires Built(lens, kind, sorted, table, start, root, Offs(lens, MAXBITS + 1), last, offs, wids)
    requires start + Pow2(root) <= |table|
    requires Complete(lens) || (root == 1 && table[start + 1] == INVALID && Lone(lens))
    ensures InRange(table, start, root) && LinksNeeded(table, start, root, lens)
  {
    forall x | start <= x < start + Pow2(root) && IsLink(table[x])
      ensures start + table[x].val + Pow2(table[x].op) <= |table| && table[x].bits == root
      ensures exists s :: 0 <= s < |lens| && lens[s] > root
    {
      EntryInRange(lens, kind, sorted, table, start, root, last, offs, wids, x - start);
    }
  }

  lemma FreeLookup(table: seq<Code>, start: nat, h: nat)
    requires InRange(table, start, 1) && Low(h, 1) == 1 && table[start + 1] == INVALID
    ensures Lookup(table, start, 1, h) == (INVALID, 1)
  {
  }

  lemma BuiltDecodes(lens: seq<nat>, kind: CodeType, sorted: seq<nat>, table: seq<Code>, start: nat, root: nat,
                     last: nat, offs: seq<nat>, wids: seq<nat>)
    requires Prefixed(lens) && Sorted(lens, sorted, |lens|) && |lens| <= MaxSymbols(kind)
    requires Built(lens, kind, sorted, table, start, root, Offs(lens, MAXBITS + 1), last, offs, wids)
    requires start + Pow2(root) <= |table|
    requires Complete(lens) || (root == 1 && table[start + 1] == INVALID && Lone(lens))
    ensures Decodes(table, start, root, kind, lens)
  {
    BuiltInRange(lens, kind, sorted, table, start, root, last, offs, wids);
    forall s: nat, h: nat | s < |lens| && Matches(lens, s, h)
      ensures FindsSymbol(table, start, root, kind, lens, s, h)
    {
      BuiltIsFound(lens, kind, sorted, table, start, root, last, offs, wids, s, h);
      FoundLookup(lens, kind, table, start, root, s, h);
    }
    forall h: nat | forall s: nat :: s < |lens| ==> !Matches(lens, s, h)
      ensures Lookup(table, start, root, h) == (INVALID, 1)
    {
      var s := Covered(lens, kind, sorted, table, start, root, last, offs, wids, h);
      FreeLookup(table, start, h);
    }
  }

  // Exactly one symbol has a code, of one bit.
  ghost predicate Lone(lens: seq<nat>) {
    LengthsInRange(lens) && Count(lens, 1) == 1 && forall s :: 0 <= s < |lens| ==> lens[s] <= 1
  }

  lemma SomeMatchOrFree(lens: seq<nat>, h: nat) returns (s: nat)
    requires Complete(lens) || Lone(lens)
    ensures s < |lens|
    ensures Matches(lens, s, h) || (!Complete(lens) && Low(h, 1) == 1)
  {
    if Complete(lens) {
      s := SomeMatch(lens, h);
    } else {
      s := SymbolOfRank(lens, 1, 0, |lens|);
      assert StreamCode(lens, s) == 0;
    }
  }

  // ---- inflate_table() ----

  // accumulate lengths for codes
  method CountLengths(lens: seq<nat>) returns (count: array<nat>)
    requires LengthsInRange(lens)
    ensures fresh(count) && count.Length == MAXBITS + 1
    ensures forall l :: 0 <= l <= MAXBITS ==> count[l] == Count(lens, l)
  {
    count := new nat[MAXBITS + 1](_ => 0);
    var sym := 0;
    while sym < |lens|
      invariant sym <= |lens|
      invariant forall l :: 0 <= l <= MAXBITS ==> count[l] == CountTo(lens, l, sym)
    {
      count[lens[sym]] := count[lens[sym]] + 1;
      sym := sym + 1;
    }
  }

  lemma NoneLonger(lens: seq<nat>, l: nat, s: nat)
    requires s < |lens| && Count(lens, l) == 0
    ensures lens[s] != l
  {
    if lens[s] == l { RankBound(lens, s); }
  }

  // The shortest and the longest length that occurs.
  method Bounds(lens: seq<nat>, count: array<nat>) returns (min: nat, max: nat)
    requires LengthsInRange(lens)
    requires count.Length == MAXBITS + 1 && forall l :: 0 <= l <= MAXBITS ==> count[l] == Count(lens, l)
    ensures max <= MAXBITS && forall s :: 0 <= s < |lens| ==> lens[s] <= max
    ensures max > 0 ==> 1 <= min <= max && Count(lens, max) > 0 && At(lens, 0, min)
    ensures max > 0 ==> Offs(lens, MAXBITS + 1) == Offs(lens, max) + Count(lens, max)
  {
    max := MAXBITS;
    BelowStep(lens, max, |lens|);
    while max >= 1 && count[max] == 0
      invariant 0 <= max <= MAXBITS && forall s :: 0 <= s < |lens| ==> lens[s] <= max
      invariant max >= 1 ==> Offs(lens, MAXBITS + 1) == Offs(lens, max + 1) == Offs(lens, max) + Count(lens, max)
    {
      forall s | 0 <= s < |lens| ensures lens[s] != max {
        NoneLonger(lens, max, s);
      }
      max := max - 1;
      if max >= 1 { BelowStep(lens, max, |lens|); }
    }
    min := 1;
    BelowStep(lens, 1, |lens|);
    while min < max && count[min] == 0
      invariant 1 <= min && (max > 0 ==> min <= max) && Offs(lens, min) == 0
    {
      BelowStep(lens, min, |lens|);
      min := min + 1;
    }
  }

  // What the lengths leave of the code space: less than none, none, or some.
  method CheckLengths(lens: seq<nat>, count: array<nat>) returns (left: int)
    requires LengthsInRange(lens)
    requires count.Length == MAXBITS + 1 && forall l :: 0 <= l <= MAXBITS ==> count[l] == Count(lens, l)
    ensures left < 0 <==> Kraft(lens) > Pow2(MAXBITS)
    ensures left > 0 <==> Kraft(lens) < Pow2(MAXBITS)
  {
    LeftIsKraft(lens);
    left := 1;
    var len := 1;
    while len <= MAXBITS
      invariant 1 <= len <= MAXBITS + 1 && left == Left(lens, len - 1)
    {
      left := 2 * left;
      left := left - count[len];
      if left < 0 {
        LeftMonotone(lens, len, MAXBITS);
        return;
      }
      len := len + 1;
    }
  }

  lemma {:induction false} KraftOfLengths(lens: seq<nat>, m: nat)
    requires m <= |lens| && LengthsInRange(lens)
    ensures KraftTo(lens, m) == 0 <==> forall s :: 0 <= s < m ==> lens[s] == 0
    ensures (forall s :: 0 <= s < m ==> lens[s] <= 1) ==> KraftTo(lens, m) == 16384 * CountTo(lens, 1, m)
  {
    Pow2Values();
    if m > 0 { KraftOfLengths(lens, m - 1); }
  }

  // Put the symbols in order, then enter them.
  method SortAndBuild(kind: CodeType, lens: seq<nat>, count: array<nat>, table: array<Code>, start: nat,
                      work: array<nat>, root: nat, min: nat, max: nat)
      returns (ret: int, used: nat)
    requires Prefixed(lens) && |lens| <= MaxSymbols(kind) && |lens| <= work.Length
    requires count.Length == MAXBITS + 1 && count != work && forall l :: 0 <= l <= MAXBITS ==> count[l] == Count(lens, l)
    requires 1 <= min <= root <= max <= MAXBITS && (kind == CODES ==> max <= root)
    requires At(lens, 0, min) && 0 < Count(lens, max)
    requires Offs(lens, MAXBITS + 1) == Offs(lens, max) + Count(lens, max)
    requires forall s :: 0 <= s < |lens| ==> lens[s] <= max
    requires Complete(lens) || (max == 1 && Count(lens, 1) == 1)
    requires start + Space(kind, root) <= table.Length
    modifies table, work, count
    ensures (ret == 0 || ret == 1) && (max <= root && Pow2(root) <= Space(kind, root) ==> ret == 0)
    ensures Usual(kind, |lens|, root) ==> ret == 0
    ensures forall y :: 0 <= y < start ==> table[y] == old(table[y])
    ensures ret == 0 ==> 0 < used <= Space(kind, root)
    ensures ret == 0 ==> Decodes(table[..start + used], start, root, kind, lens)
  {
    SortSymbols(lens, count, work);
    ghost var sorted := work[..];
    forall k | 0 <= k < Offs(lens, MAXBITS + 1)
      ensures k < |sorted| && sorted[k] < |lens| && lens[sorted[k]] > 0
    {
      SortedInRange(lens, sorted, k);
    }
    SortedInRange(lens, sorted, Offs(lens, MAXBITS + 1) - 1);
    ghost var last, offs, wids;
    ret, used, last, offs, wids := BuildTable(kind, lens, count, work[..], table, start, root, min, max);
    if ret == 0 {
      BuiltBelow(lens, kind, sorted, table[..], start, root, Offs(lens, MAXBITS + 1), last, offs, wids, used);
      if !Complete(lens) { assert Pow2(1) == 2; }
      assert table[..][..start + used] == table[..start + used];
      BuiltDecodes(lens, kind, sorted, table[..start + used], start, root, last, offs, wids);
    }
  }

  lemma RefusedIff(kind: CodeType, lens: seq<nat>, min: nat, max: nat)
    requires LengthsInRange(lens) && 1 <= max <= MAXBITS && Count(lens, max) > 0
    requires forall s :: 0 <= s < |lens| ==> lens[s] <= max
    ensures Refused(kind, lens) <==>
      Kraft(lens) > Pow2(MAXBITS) || (Kraft(lens) < Pow2(MAXBITS) && (kind == CODES || max != 1))
    ensures max == 1 ==> Kraft(lens) == 16384 * Count(lens, 1) && Pow2(MAXBITS) == 32768
  {
    Pow2Values();
    var s := SymbolOfRank(lens, max, 0, |lens|);
    KraftOfLengths(lens, |lens|);
  }

  lemma EmptyDecodes(lens: seq<nat>, kind: CodeType, table: seq<Code>, start: nat)
    requires |lens| <= MaxSymbols(kind) && forall s :: 0 <= s < |lens| ==> lens[s] == 0
    requires start + 2 <= |table| && table[start] == table[start + 1] == INVALID
    ensures Decodes(table, start, 1, kind, lens) && !Refused(kind, lens)
  {
    KraftOfLengths(lens, |lens|);
    forall h: nat ensures Lookup(table, start, 1, h) == (INVALID, 1) {
      Compose(h, 1);
    }
  }

  // Two entries that make any code an invalid one.
  method EmptyTable(kind: CodeType, lens: seq<nat>, table: array<Code>, start: nat)
    requires |lens| <= MaxSymbols(kind) && forall s :: 0 <= s < |lens| ==> lens[s] == 0
    requires start + 2 <= table.Length
    modifies table
    ensures forall y :: 0 <= y < start ==> table[y] == old(table[y])
    ensures Decodes(table[..start + 2], start, 1, kind, lens) && !Refused(kind, lens)
  {
    hide Decodes, Refused;
    table[start], table[start + 1] := INVALID, INVALID;
    EmptyDecodes(lens, kind, table[..start + 2], start);
  }

  // Build the table for the lengths lens at start. bits is the wanted size of
  // the root table and root the one it got; next is the first entry behind all
  // tables.
  method InflateTable(kind: CodeType, lens: seq<nat>, table: array<Code>, start: nat, bits: nat, work: array<nat>)
      returns (ret: int, next: nat, root: nat)
    requires LengthsInRange(lens) && |lens| <= MaxSymbols(kind) && |lens| <= work.Length
    requires 1 <= bits && (kind == CODES ==> forall s :: 0 <= s < |lens| ==> lens[s] <= bits)
    requires start + Space(kind, bits) <= table.Length && 2 <= Space(kind, bits)
    modifies table, work
    ensures ret == 0 || ret == -1 || ret == 1
    ensures ret == -1 <==> Refused(kind, lens)
    ensures Usual(kind, |lens|, bits) ==> ret != 1
    ensures ret == 1 ==> Pow2(root) > Space(kind, root) || exists s :: 0 <= s < |lens| && lens[s] > root
    ensures ret >= 0 && (exists s :: 0 <= s < |lens| && lens[s] == bits) ==> root == bits
    ensures forall y :: 0 <= y < start ==> table[y] == old(table[y])
    ensures ret == 0 ==> start < next <= start + Space(kind, bits)
    ensures ret == 0 ==> 1 <= root <= MAXBITS && Decodes(table[..next], start, root, kind, lens)
    ensures ret >= 0 && kind == CODES ==> ret == 0 && root <= bits && forall s :: 0 <= s < |lens| ==> lens[s] <= root
  {
    hide Decodes, Refused, Below, CountTo, KraftTo, At;
    ret, next := 0, start;
    var count := CountLengths(lens);
    var min, max := Bounds(lens, count);
    if max == 0 {
      EmptyTable(kind, lens, table, start);
      next, root := start + 2, 1;
      return;
    }
    ret, next, root := CheckAndBuild(kind, lens, count, table, start, bits, work, min, max);
  }

  // Refuse lengths that are no code, and build the table for the others.
  method CheckAndBuild(kind: CodeType, lens: seq<nat>, count: array<nat>, table: array<Code>, start: nat, bits: nat,
                       work: array<nat>, min: nat, max: nat)
      returns (ret: int, next: nat, root: nat)
    requires LengthsInRange(lens) && |lens| <= MaxSymbols(kind) && |lens| <= work.Length
    requires 1 <= bits && (kind == CODES ==> forall s :: 0 <= s < |lens| ==> lens[s] <= bits)
    requires start + Space(kind, bits) <= table.Length && 2 <= Space(kind, bits)
    requires count.Length == MAXBITS + 1 && count != work && forall l :: 0 <= l <= MAXBITS ==> count[l] == Count(lens, l)
    requires 1 <= min <= max <= MAXBITS && (forall s :: 0 <= s < |lens| ==> lens[s] <= max)
    requires Count(lens, max) > 0 && At(lens, 0, min) && Offs(lens, MAXBITS + 1) == Offs(lens, max) + Count(lens, max)
    modifies table, work, count
    ensures ret == 0 || ret == -1 || ret == 1
    ensures ret == -1 <==> Refused(kind, lens)
    ensures Usual(kind, |lens|, bits) ==> ret != 1
    ensures ret == 1 ==> Pow2(root) > Space(kind, root) || exists s :: 0 <= s < |lens| && lens[s] > root
    ensures ret >= 0 && (exists s :: 0 <= s < |lens| && lens[s] == bits) ==> root == bits
    ensures forall y :: 0 <= y < start ==> table[y] == old(table[y])
    ensures ret == 0 ==> start < next <= start + Space(kind, bits)
    ensures ret == 0 ==> 1 <= root <= MAXBITS && Decodes(table[..next], start, root, kind, lens)
    ensures ret >= 0 && kind == CODES ==> ret == 0 && root <= bits && forall s :: 0 <= s < |lens| ==> lens[s] <= root
  {
    hide Decodes, Refused, Below, CountTo, KraftTo, At, Usual;
    ret, next := 0, start;
    root := if bits > max then max else bits;
    NotBelowMin(lens, min, bits);
    if root < min { root := min; }
    if Usual(kind, |lens|, bits) { UsualRoot(kind, lens, bits, min, max); }
    var left := CheckLengths(lens, count);
    RefusedIff(kind, lens, min, max);
    if left < 0 || (left > 0 && (kind == CODES || max != 1)) {
      ret := -1;
      return;
    }
    var used;
    ghost var longest := SymbolOfRank(lens, max, 0, |lens|);
    if kind == CODES { Pow2Mono(root, bits); }
    ret, used := SortAndBuild(kind, lens, count, table, start, work, root, min, max);
    next := if ret == 0 then start + used else start;
  }

  // A root table of the usual size is not too small for the shortest code.
  lemma UsualRoot(kind: CodeType, lens: seq<nat>, bits: nat, min: nat, max: nat)
    requires Usual(kind, |lens|, bits) && LengthsInRange(lens)
    requires 1 <= min <= max <= MAXBITS && Count(lens, max) > 0 && At(lens, 0, min)
    ensures max <= bits ==> Pow2(max) <= Space(kind, max)
    ensures max > bits && Complete(lens) ==> min <= bits
  {
    hide Below, CountTo, Complete;
    Pow2Values();
    if max <= bits {
      Pow2Mono(max, bits);
    } else if Complete(lens) && bits < min {
      OffsMono(lens, max, MAXBITS + 1);
      if bits + 1 < min { OffsMono(lens, bits + 1, min); }
      if bits + 1 < max { OffsMono(lens, bits + 1, max); }
      FewShort(kind, lens, bits);
    }
  }

  lemma NotBelowMin(lens: seq<nat>, min: nat, bits: nat)
    requires 1 <= bits && At(lens, 0, min)
    ensures (exists s :: 0 <= s < |lens| && lens[s] == bits) ==> min <= bits
  {
    if s :| 0 <= s < |lens| && lens[s] == bits && bits < min {
      RankBound(lens, s);
      OffsMono(lens, bits, min);
    }
  }

  // A table goes on decoding whatever is put behind it.
  lemma DecodesMore(table: seq<Code>, more: seq<Code>, start: nat, root: nat, kind: CodeType, lens: seq<nat>)
    requires Decodes(table, start, root, kind, lens) && |table| <= |more| && more[..|table|] == table
    ensures Decodes(more, start, root, kind, lens)
  {
    hide EntryFor, Matches, Low, Shr;
    assert forall x :: 0 <= x < |table| ==> more[..|table|][x] == more[x];
    forall h: nat ensures Lookup(more, start, root, h) == Lookup(table, start, root, h) {
      RootIndex(h, root);
      var e := table[start + Low(h, root)];
      RootIndex(Shr(h, e.bits), e.op);
    }
  }
}
