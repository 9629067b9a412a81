// inffast.c: why reading ahead does no harm. inflate_fast() takes more bytes
// into the accumulator than the bits it needs; a configuration with such bits
// is compared here with the one that inflate() would be in, which never holds
// a whole byte that it does not need.
module InflateAhead {
  import opened Bits
  import opened CanonicalCode
  import opened BitWriter
  import opened Format
  import opened InflateTable
  import opened InflateMachine
  import opened InflateStream
  import InflateBlocks

  // Code lengths that inflate_table() accepts for lengths and distances.
  ghost predicate Accepted(lens: seq<nat>) {
    Prefixed(lens) && (Complete(lens) || forall s :: 0 <= s < |lens| ==> lens[s] <= 1)
  }

  lemma NotRefusedAccepted(kind: CodeType, lens: seq<nat>)
    requires kind != CODES && LengthsInRange(lens) && !Refused(kind, lens)
    ensures Accepted(lens)
  {
    if Kraft(lens) == 0 {
      forall s | 0 <= s < |lens| ensures lens[s] <= 1 {
        if lens[s] > 0 { SomeKraft(lens, s, |lens|); }
      }
    }
  }

  lemma {:induction false} SomeKraft(lens: seq<nat>, s: nat, m: nat)
    requires LengthsInRange(lens) && s < m <= |lens| && lens[s] > 0
    ensures KraftTo(lens, m) > 0
  {
    if s < m - 1 { SomeKraft(lens, s, m - 1); }
  }

  // The number of bits that decoding takes.
  function Used(lens: seq<nat>, d: Decoded): nat {
    match d
    case Symbol(y) => if y < |lens| then lens[y] else 0
    case Invalid => 1
    case More => 0
  }

  // What can be decoded from the first B bits of V is decoded from any number
  // of bits that is enough, and not from fewer.
  lemma DecodePrefix(lens: seq<nat>, V: nat, B: nat, b: nat)
    requires Accepted(lens) && !Decode(lens, Low(V, B), B).More?
    ensures var d := Decode(lens, Low(V, B), B);
      Decode(lens, Low(V, b), b) == if b < Used(lens, d) then More else d
  {
    hide Low, StreamCode, Complete, Prefixed, Decode;
    var d := Decode(lens, Low(V, B), B);
    forall z: nat, n: nat | z < |lens| && 0 < lens[z] <= n
      ensures Matches(lens, z, Low(V, n)) <==> Matches(lens, z, V)
    {
      LowLow(V, lens[z], n);
    }
    DecodeIs(lens, Low(V, b), b);
    if d.Symbol? {
      forall z: nat | z < |lens| && Matches(lens, z, Low(V, b)) && lens[z] <= b ensures z == d.s {
        MatchUnique(lens, z, d.s, V);
      }
      if b >= lens[d.s] {
        assert Matches(lens, d.s, Low(V, b));
        forall z: nat | z < |lens| && Matches(lens, z, Low(V, b)) ensures z == d.s {
          MatchUnique(lens, z, d.s, Low(V, b));
        }
      } else {
        NoneInvalid(lens, Low(V, b), b, d.s);
      }
    } else {
      InvalidShort(lens, Low(V, B), V, B, b);
    }
  }

  // What Decode() says, without the choice of a symbol.
  lemma DecodeIs(lens: seq<nat>, hold: nat, bits: nat)
    ensures var d := Decode(lens, hold, bits);
      && (d.Invalid? <==> bits >= 1 && forall s: nat :: s < |lens| ==> !Matches(lens, s, hold))
      && (d.Symbol? ==> d.s < |lens| && Matches(lens, d.s, hold) && 1 <= lens[d.s] <= bits)
      && ((exists s: nat :: s < |lens| && Matches(lens, s, hold)) && d.More? ==>
           exists s: nat :: s < |lens| && Matches(lens, s, hold) && lens[s] > bits)
  {
    hide Matches;
  }

  // Too few bits for a symbol are never taken for an invalid code.
  lemma NoneInvalid(lens: seq<nat>, hold: nat, b: nat, y: nat)
    requires Accepted(lens) && y < |lens| && b < lens[y]
    ensures !Decode(lens, hold, b).Invalid?
  {
    hide Matches, Decode;
    DecodeIs(lens, hold, b);
    if Complete(lens) {
      var s := SomeMatch(lens, hold);
    }
  }

  // An invalid code is known by its first bit.
  lemma InvalidShort(lens: seq<nat>, hold: nat, V: nat, B: nat, b: nat)
    requires Accepted(lens) && hold == Low(V, B) && Decode(lens, hold, B).Invalid?
    ensures Decode(lens, Low(V, b), b) == if b < 1 then More else Invalid
  {
    hide Decode, Low, Complete, Prefixed;
    DecodeIs(lens, hold, B);
    DecodeIs(lens, Low(V, b), b);
    if Complete(lens) {
      var s := SomeMatch(lens, hold);
    }
    if b >= 1 {
      forall z: nat | z < |lens| ensures !Matches(lens, z, Low(V, b)) {
        LowLow(V, 1, b);
        LowLow(V, 1, B);
        assert !Matches(lens, z, hold);
      }
    }
  }

  // ---- inflate() from the same place ----

  // inflate() holds no whole byte, unless it waits for more of them. (A call
  // may end while a long code has come in halfway: the next one may then start
  // with inflate_fast(), and more than 7 bits held.)
  ghost predicate Light(s: State) {
    s.bits < 8 || Next(s).Pull?
  }

  // c is where inflate() is when inflate_fast() is at f.
  ghost predicate Behind(c: Config, f: Config) {
    && Good(c.s) && Good(f.s) && SameBut(c.s, f.s) && Light(c.s)
    && Stream(c) == Stream(f) && c.room == f.room && Tail(c.input, f.input)
  }

  lemma PullAhead(c: Config, f: Config)
    requires Behind(c, f) && f.input != []
    ensures Behind(c, Config(Pulled(f.s, f.input[0]), f.input[1..], f.room))
  {
    hide Stream, Good, Light;
    PullKeeps(f);
    assert Tail(f.input, f.input[1..]);
    TailOfTail(c.input, f.input, f.input[1..]);
  }

  lemma DropStream(c: Config, n: nat)
    requires Good(c.s) && n <= c.s.bits
    ensures n <= |Stream(c)| && Good(Drop(c.s, n)) && Stream(c.(s := Drop(c.s, n))) == Stream(c)[n..]
  {
    hide BitsOf, BytesBits, Low, Shr, Pow2;
    StreamSize(c);
    var v := Low(c.s.hold, n);
    Compose(c.s.hold, n);
    BitsOfSplit(c.s.hold, n, c.s.bits - n);
    BitsOfLow(c.s.hold, n);
    BitsOfLength(v, n);
    var rest := BitsOf(Shr(c.s.hold, n), c.s.bits - n) + BytesBits(c.input);
    assert Stream(c) == BitsOf(v, n) + rest;
    TakeBits(c, v, n, rest);
    assert Stream(c)[n..] == rest;
  }

  // inflate() takes in bytes until it can decode what inflate_fast() decodes.
  lemma {:induction false} SlowSymbol(c: Config, B: nat) returns (e: Config)
    requires Good(c.s) && (c.s.mode == LEN || c.s.mode == DIST) && Accepted(CodeLens(c.s))
    requires !Decode(CodeLens(c.s), Low(Value(c), B), B).More?
    requires Used(CodeLens(c.s), Decode(CodeLens(c.s), Low(Value(c), B), B)) <= |Stream(c)|
    ensures Call(e) == Call(c) && Good(e.s) && Stream(e) == Stream(c) && e.room == c.room
    ensures SameBut(c.s, e.s) && Tail(c.input, e.input)
    ensures var d := Decode(CodeLens(c.s), Low(Value(c), B), B); var n := Used(CodeLens(c.s), d);
      && Decode(CodeLens(e.s), e.s.hold, e.s.bits) == d && n <= e.s.bits && (c.s.bits < n + 8 ==> e.s.bits < n + 8)
    decreases |c.input|
  {
    hide Stream, Good, Next, Call, Decode, Low, Accepted;
    var lens := CodeLens(c.s);
    var d := Decode(lens, Low(Value(c), B), B);
    HoldIsLow(c);
    DecodePrefix(lens, Value(c), B, c.s.bits);
    if c.s.bits < Used(lens, d) {
      MorePulls(c.s);
      var p := PullOne(c, Used(lens, d));
      e := SlowSymbol(p, B);
      TailOfTail(c.input, p.input, e.input);
    } else {
      e := c;
    }
  }

  lemma MorePulls(s: State)
    requires (s.mode == LEN || s.mode == DIST) && Decode(CodeLens(s), s.hold, s.bits).More?
    ensures Next(s).Pull?
  {
    hide Decode;
  }

  // The state after decoding d in a state that has the bits for it.
  ghost function AfterDecode(s: State, d: Decoded): State
    requires (s.mode == LEN || s.mode == DIST) && Used(CodeLens(s), d) <= s.bits
  {
    var t := Drop(s, Used(CodeLens(s), d));
    match d
    case More => t
    case Invalid => t.(mode := BAD)
    case Symbol(y) =>
      if s.mode == DIST then
        if y < D_CODES then t.(mode := DISTEXT, offset := DBASE[y], extra := DEXT[y] - 16) else t.(mode := BAD)
      else if y < LITERALS then t.(mode := LIT, length := y)
      else if y == END_BLOCK then t.(mode := TYPE)
      else if y < L_CODES then t.(mode := LENEXT, length := LBASE[y - 257], extra := LEXT[y - 257] - 16)
      else t.(mode := BAD)
  }

  lemma DecodedNext(s: State, d: Decoded)
    requires (s.mode == LEN || s.mode == DIST) && Decode(CodeLens(s), s.hold, s.bits) == d && !d.More?
    ensures Used(CodeLens(s), d) <= s.bits && Next(s) == Go(AfterDecode(s, d))
  {
    hide Low, Shr;
  }

  // Both drop the same bits, and inflate() still holds less than a byte.
  lemma BehindDrop(c: Config, f: Config, n: nat)
    requires Good(c.s) && Good(f.s) && SameBut(c.s, f.s) && n <= c.s.bits < n + 8 && n <= f.s.bits
    requires Stream(c) == Stream(f) && c.room == f.room && |c.input| >= |f.input| && Tail(c.input, f.input)
    ensures Behind(c.(s := Drop(c.s, n)), f.(s := Drop(f.s, n)))
  {
    DropStream(c, n);
    DropStream(f, n);
    hide Next;
  }

  lemma TailLonger(s: seq<byte>, t: seq<byte>, u: seq<byte>)
    requires Tail(s, t) && Tail(s, u) && |t| >= |u|
    ensures Tail(t, u)
  {
    assert t[|t| - |u|..] == s[|s| - |t|..][|t| - |u|..] == s[|s| - |u|..];
  }

  lemma MoreInput(c: Config, f: Config, n: nat)
    requires Stream(c) == Stream(f) && c.s.bits < n + 8 && n <= f.s.bits
    ensures |c.input| >= |f.input|
  {
    StreamSize(c);
    StreamSize(f);
  }

  // A change of numbers that does not touch the accumulator.
  ghost predicate SameBits(s: State, t: State) {
    t.hold == s.hold && t.bits == s.bits
  }

  lemma BehindSame(c: Config, f: Config, c2: Config, f2: Config)
    requires Behind(c, f) && c2.input == c.input && f2.input == f.input && c2.room == f2.room && c.s.bits < 8
    requires SameBits(c.s, c2.s) && SameBits(f.s, f2.s) && SameBut(c2.s, f2.s)
    ensures Behind(c2, f2)
  {
    hide Next, Stream;
    InflateBlocks.StreamOf(c, c2);
    InflateBlocks.StreamOf(f, f2);
  }

  lemma LightUsed(s: State, V: nat, B: nat, d: Decoded)
    requires Light(s) && (s.mode == LEN || s.mode == DIST) && Accepted(CodeLens(s)) && s.hold == Low(V, s.bits)
    requires Decode(CodeLens(s), Low(V, B), B) == d && !d.More?
    ensures s.bits < Used(CodeLens(s), d) + 8
  {
    hide Decode, Accepted, Low;
    DecodePrefix(CodeLens(s), V, B, s.bits);
    if s.bits >= Used(CodeLens(s), d) {
      DecodedNext(s, d);
    }
  }

  lemma LightExtra(s: State)
    requires Light(s) && (s.mode == LENEXT || s.mode == DISTEXT)
    ensures s.bits < s.extra + 8
  {
    if s.extra <= s.bits { ExtendedNext(s); }
  }

  // Decoding a symbol ahead is decoding it in place.
  lemma SymbolAhead(c: Config, f: Config, d: Decoded) returns (c2: Config)
    requires Behind(c, f) && (f.s.mode == LEN || f.s.mode == DIST) && Accepted(CodeLens(f.s))
    requires Decode(CodeLens(f.s), f.s.hold, f.s.bits) == d && !d.More?
    ensures Used(CodeLens(f.s), d) <= f.s.bits && Next(f.s) == Go(AfterDecode(f.s, d))
    ensures Call(c2) == Call(c) && Behind(c2, f.(s := AfterDecode(f.s, d))) && Tail(c.input, c2.input) && c2.s.bits < 8
  {
    hide Stream, Good, Next, Call, Decode, Low, Shr, Accepted;
    var n := Used(CodeLens(f.s), d);
    DecodedNext(f.s, d);
    HoldIsLow(f);
    HoldIsLow(c);
    LightUsed(c.s, Value(c), f.s.bits, d);
    StreamSize(f);
    var e := SlowSymbol(c, f.s.bits);
    MoreInput(e, f, n);
    TailLonger(c.input, e.input, f.input);
    BehindDrop(e, f, n);
    DecodedNext(e.s, d);
    c2 := e.(s := AfterDecode(e.s, d));
    GoStep(e);
    DecodedSame(e.s, f.s, d);
    BehindSame(e.(s := Drop(e.s, n)), f.(s := Drop(f.s, n)), c2, f.(s := AfterDecode(f.s, d)));
  }

  lemma DecodedSame(s: State, t: State, d: Decoded)
    requires (s.mode == LEN || s.mode == DIST) && SameBut(s, t)
    requires Used(CodeLens(s), d) <= s.bits && Used(CodeLens(s), d) <= t.bits
    ensures SameBut(AfterDecode(s, d), AfterDecode(t, d))
    ensures SameBits(Drop(s, Used(CodeLens(s), d)), AfterDecode(s, d)) && SameBits(Drop(t, Used(CodeLens(s), d)), AfterDecode(t, d))
  {
    hide Shr;
  }

  // The state after extra bits.
  ghost function Extended(s: State): State
    requires (s.mode == LENEXT || s.mode == DISTEXT) && s.extra <= s.bits
  {
    var v := Low(s.hold, s.extra);
    if s.mode == LENEXT then Drop(s, s.extra).(mode := DIST, length := s.length + v)
    else Drop(s, s.extra).(mode := MATCH, offset := s.offset + v)
  }

  lemma ExtendedNext(s: State)
    requires (s.mode == LENEXT || s.mode == DISTEXT) && s.extra <= s.bits
    ensures Next(s) == Go(Extended(s))
  {
  }

  lemma SameLow(c: Config, f: Config, n: nat)
    requires Good(c.s) && Good(f.s) && Stream(c) == Stream(f) && n <= c.s.bits && n <= f.s.bits
    ensures Low(c.s.hold, n) == Low(f.s.hold, n)
  {
    hide Stream, Low, Good;
    HoldIsLow(c);
    HoldIsLow(f);
    LowLow(Value(c), n, c.s.bits);
    LowLow(Value(f), n, f.s.bits);
  }

  lemma ExtraAhead(c: Config, f: Config) returns (c2: Config)
    requires Behind(c, f) && (f.s.mode == LENEXT || f.s.mode == DISTEXT) && f.s.extra <= f.s.bits
    ensures Call(c2) == Call(c) && Behind(c2, f.(s := Extended(f.s))) && Tail(c.input, c2.input) && c2.s.bits < 8
  {
    hide Stream, Good, Next, Call, Low, Shr;
    var n := f.s.extra;
    LightExtra(c.s);
    StreamSize(f);
    var e := NeedBits(c);
    MoreInput(e, f, n);
    TailLonger(c.input, e.input, f.input);
    BehindDrop(e, f, n);
    SameLow(e, f, n);
    ExtendedNext(e.s);
    c2 := e.(s := Extended(e.s));
    GoStep(e);
    BehindSame(e.(s := Drop(e.s, n)), f.(s := Drop(f.s, n)), c2, f.(s := Extended(f.s)));
  }

  // Returning the unused bytes gives inflate()'s own state.
  lemma GiveBack(c: Config, f: Config)
    requires Behind(c, f) && c.s.bits < 8
    ensures c.s.bits == f.s.bits % 8 && c.s.hold == Low(f.s.hold, f.s.bits % 8)
    ensures |c.input| == |f.input| + f.s.bits / 8
  {
    StreamSize(c);
    StreamSize(f);
    hide Stream, Low, Light;
    BitsModulo(c.s.bits, |c.input|, f.s.bits, |f.input|);
    SameLow(c, f, c.s.bits);
    LowSmall(c.s.hold, c.s.bits);
  }

  lemma BitsModulo(a: nat, n: nat, b: nat, m: nat)
    requires a + 8 * n == b + 8 * m && a < 8
    ensures a == b % 8 && n == m + b / 8
  {
  }

  lemma BehindSelf(c: Config)
    requires Good(c.s) && Light(c.s)
    ensures Behind(c, c)
  {
  }
}
