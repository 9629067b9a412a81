// The compressed block format (sections 3.2.3 to 3.2.7 of RFC 1951) as bit
// strings: what the compressor must emit and the decompressor must read.
module Format {
  import opened Bits
  import opened CanonicalCode
  import opened BitWriter

  const END_BLOCK: nat := 256
  const LITERALS: nat := 256
  const LENGTH_CODES: nat := 29
  const L_CODES: nat := 286
  const D_CODES: nat := 30
  const BL_CODES: nat := 19
  const MIN_MATCH: nat := 3
  const MAX_MATCH: nat := 258

  const EXTRA_LBITS: seq<nat> :=
    [0, 0, 0, 0, 0, 0, 0, 0, 1, 1, 1, 1, 2, 2, 2, 2, 3, 3, 3, 3, 4, 4, 4, 4, 5, 5, 5, 5, 0]
  const EXTRA_DBITS: seq<nat> :=
    [0, 0, 0, 0, 1, 1, 2, 2, 3, 3, 4, 4, 5, 5, 6, 6, 7, 7, 8, 8, 9, 9, 10, 10, 11, 11, 12, 12, 13, 13]
  const BASE_LENGTH: seq<nat> :=
    [0, 1, 2, 3, 4, 5, 6, 7, 8, 10, 12, 14, 16, 20, 24, 28, 32, 40, 48, 56,
     64, 80, 96, 112, 128, 160, 192, 224, 0]
  const BASE_DIST: seq<nat> :=
    [0, 1, 2, 3, 4, 6, 8, 12, 16, 24, 32, 48, 64, 96, 128, 192, 256, 384, 512, 768,
     1024, 1536, 2048, 3072, 4096, 6144, 8192, 12288, 16384, 24576]

  // The last c' <= c with base[c'] <= x.
  function LastBase(base: seq<nat>, x: nat, c: nat): (r: nat)
    requires c < |base|
    ensures r <= c && (base[0] <= x ==> base[r] <= x)
    ensures forall i :: r < i <= c ==> base[i] > x
  {
    if c == 0 || base[c] <= x then c else LastBase(base, x, c - 1)
  }

  // The code of a match length less MIN_MATCH, and of a distance less one.
  function LengthCode(lc: nat): nat {
    if lc == 255 then 28 else LastBase(BASE_LENGTH, lc, 27)
  }

  function DistCode(dist: nat): nat {
    LastBase(BASE_DIST, dist, 29)
  }

  // A literal byte, or a copy of len bytes from dist bytes back.
  datatype Token = Literal(c: byte) | Match(len: nat, dist: nat)

  predicate TokenOk(t: Token) {
    t.Match? ==> MIN_MATCH <= t.len <= MAX_MATCH && 1 <= t.dist <= 32768
  }

  predicate TokensOk(ts: seq<Token>) {
    forall i :: 0 <= i < |ts| ==> TokenOk(ts[i])
  }

  // ---- The bytes that tokens stand for ----

  // Copy one byte at a time, so that a copy may overlap its own output.
  function CopyBack(out: seq<byte>, len: nat, dist: nat): (r: seq<byte>)
    requires 1 <= dist <= |out|
    ensures |r| == |out| + len && r[..|out|] == out
    decreases len
  {
    if len == 0 then out else CopyBack(out + [out[|out| - dist]], len - 1, dist)
  }

  predicate Expandable(out: seq<byte>, t: Token) {
    t.Match? ==> 1 <= t.dist <= |out|
  }

  function ExpandOne(out: seq<byte>, t: Token): seq<byte>
    requires Expandable(out, t)
  {
    match t
    case Literal(c) => out + [c]
    case Match(len, dist) => CopyBack(out, len, dist)
  }

  // The tokens never reach back before the start of the data.
  predicate AllExpandable(out: seq<byte>, ts: seq<Token>)
    decreases |ts|
  {
    ts == [] || (Expandable(out, ts[0]) && AllExpandable(ExpandOne(out, ts[0]), ts[1..]))
  }

  function Expand(out: seq<byte>, ts: seq<Token>): seq<byte>
    requires AllExpandable(out, ts)
    decreases |ts|
  {
    if ts == [] then out else Expand(ExpandOne(out, ts[0]), ts[1..])
  }

  // ---- Codes ----

  function CodeBits(lens: seq<nat>, s: nat): seq<bool>
    requires s < |lens|
  {
    BitsOf(StreamCode(lens, s), lens[s])
  }

  // The symbols a token needs, and whether the code lengths provide them.
  predicate Coded(ll: seq<nat>, dl: seq<nat>, t: Token) {
    match t
    case Literal(c) => c < |ll| && ll[c] > 0
    case Match(len, dist) =>
      && MIN_MATCH <= len <= MAX_MATCH && 1 <= dist <= 32768
      && LITERALS + 1 + LengthCode(len - MIN_MATCH) < |ll| && ll[LITERALS + 1 + LengthCode(len - MIN_MATCH)] > 0
      && DistCode(dist - 1) < |dl| && dl[DistCode(dist - 1)] > 0
  }

  function TokenBits(ll: seq<nat>, dl: seq<nat>, t: Token): seq<bool>
    requires Coded(ll, dl, t)
  {
    match t
    case Literal(c) => CodeBits(ll, c)
    case Match(len, dist) =>
      var lc, d := len - MIN_MATCH, dist - 1;
      var c, e := LengthCode(lc), DistCode(d);
      CodeBits(ll, LITERALS + 1 + c) + BitsOf(lc - BASE_LENGTH[c], EXTRA_LBITS[c])
      + (CodeBits(dl, e) + BitsOf(d - BASE_DIST[e], EXTRA_DBITS[e]))
  }

  predicate AllCoded(ll: seq<nat>, dl: seq<nat>, ts: seq<Token>) {
    forall i :: 0 <= i < |ts| ==> Coded(ll, dl, ts[i])
  }

  function TokensBits(ll: seq<nat>, dl: seq<nat>, ts: seq<Token>): seq<bool>
    requires AllCoded(ll, dl, ts)
  {
    if ts == [] then []
    else TokensBits(ll, dl, ts[..|ts| - 1]) + TokenBits(ll, dl, ts[|ts| - 1])
  }

  // The compressed data of a block: its tokens and the end-of-block code.
  function BodyBits(ll: seq<nat>, dl: seq<nat>, ts: seq<Token>): seq<bool>
    requires AllCoded(ll, dl, ts) && END_BLOCK < |ll|
  {
    TokensBits(ll, dl, ts) + CodeBits(ll, END_BLOCK)
  }

  lemma BitsOfLength(v: nat, n: nat)
    ensures |BitsOf(v, n)| == n
  {
  }

  // ---- The tables behind the codes ----

  lemma LengthCodeFits(lc: nat)
    requires lc <= 255
    ensures LengthCode(lc) < LENGTH_CODES && BASE_LENGTH[LengthCode(lc)] <= lc
    ensures LengthCode(lc) < 28 ==> lc - BASE_LENGTH[LengthCode(lc)] < Pow2(EXTRA_LBITS[LengthCode(lc)])
    ensures LengthCode(lc) == 28 ==> lc == 255
  {
    Pow2Values();
    var c := LengthCode(lc);
    assert c < 27 ==> BASE_LENGTH[c + 1] > lc;
    assert forall i :: 0 <= i < 27 ==> BASE_LENGTH[i + 1] == BASE_LENGTH[i] + Pow2(EXTRA_LBITS[i]);
  }

  lemma DistCodeFits(dist: nat)
    requires dist < 32768
    ensures DistCode(dist) < D_CODES && BASE_DIST[DistCode(dist)] <= dist
    ensures dist - BASE_DIST[DistCode(dist)] < Pow2(EXTRA_DBITS[DistCode(dist)])
  {
    Pow2Values();
    var c := DistCode(dist);
    assert c < 29 ==> BASE_DIST[c + 1] > dist;
    assert forall i :: 0 <= i < 29 ==> BASE_DIST[i + 1] == BASE_DIST[i] + Pow2(EXTRA_DBITS[i]);
  }

  // The two parts of a match's bits: its length and its distance, each a code
  // and extra bits.
  function LengthBits(ll: seq<nat>, lc: nat): seq<bool>
    requires lc <= 255 && LITERALS + 1 + LengthCode(lc) < |ll|
  {
    LengthCodeFits(lc);
    CodeBits(ll, LITERALS + 1 + LengthCode(lc)) + BitsOf(lc - BASE_LENGTH[LengthCode(lc)], EXTRA_LBITS[LengthCode(lc)])
  }

  function DistBits(dl: seq<nat>, d: nat): seq<bool>
    requires d < 32768 && DistCode(d) < |dl|
  {
    DistCodeFits(d);
    CodeBits(dl, DistCode(d)) + BitsOf(d - BASE_DIST[DistCode(d)], EXTRA_DBITS[DistCode(d)])
  }

  lemma MatchBits(ll: seq<nat>, dl: seq<nat>, t: Token)
    requires Coded(ll, dl, t) && t.Match?
    ensures 3 <= t.len <= 258 && 1 <= t.dist <= 32768
    ensures LITERALS + 1 + LengthCode(t.len - 3) < |ll| && ll[LITERALS + 1 + LengthCode(t.len - 3)] > 0
    ensures DistCode(t.dist - 1) < |dl| && dl[DistCode(t.dist - 1)] > 0
    ensures TokenBits(ll, dl, t) == LengthBits(ll, t.len - 3) + DistBits(dl, t.dist - 1)
  {
    hide LengthCode, DistCode, BitsOf, StreamCode;
  }
}
