// The machine that models inflate(), reading bits: what the accumulator and
// the input hold is one string of bits, from whose front the machine takes
// codes and numbers.
module InflateStream {
  import opened Bits
  import opened CanonicalCode
  import opened BitWriter
  import opened Format
  import opened InflateMachine

  // The bits still to be read.
  ghost function Stream(c: Config): seq<bool> {
    BitsOf(c.s.hold, c.s.bits) + BytesBits(c.input)
  }

  ghost predicate Good(s: State) {
    s.hold < Pow2(s.bits)
  }

  lemma StreamSize(c: Config)
    ensures |Stream(c)| == c.s.bits + 8 * |c.input|
  {
    BitsOfLength(c.s.hold, c.s.bits);
  }

  lemma FirstByte(s: seq<byte>)
    requires s != []
    ensures BytesBits(s) == BitsOf(s[0], 8) + BytesBits(s[1..])
  {
    assert s == [s[0]] + s[1..];
    BytesBitsConcat([s[0]], s[1..]);
    ByteBits(s[0]);
  }

  // Taking a byte into the accumulator changes nothing in the stream.
  lemma PullKeeps(c: Config)
    requires Good(c.s) && c.input != []
    ensures var d := Config(Pulled(c.s, c.input[0]), c.input[1..], c.room); Good(d.s) && Stream(d) == Stream(c)
  {
    hide BitsOf, BytesBits, Pow2, Shl;
    var b := c.input[0];
    assert b < Pow2(8) by { Pow2Values(); }
    JoinBits(c.s.hold, c.s.bits, b, 8);
    FirstByte(c.input);
    assert BitsOf(c.s.hold, c.s.bits) + (BitsOf(b, 8) + BytesBits(c.input[1..]))
        == BitsOf(c.s.hold, c.s.bits) + BitsOf(b, 8) + BytesBits(c.input[1..]);
  }

  // The same state but for the accumulator.
  ghost predicate SameBut(s: State, t: State) {
    t == s.(hold := t.hold, bits := t.bits)
  }

  // One pull of the machine.
  lemma PullOne(c: Config, n: nat) returns (d: Config)
    requires Good(c.s) && Next(c.s).Pull? && c.s.bits < n <= |Stream(c)|
    ensures Call(d) == Call(c) && Good(d.s) && Stream(d) == Stream(c) && d.room == c.room
    ensures SameBut(c.s, d.s) && d.s.bits == c.s.bits + 8 && c.input != [] && d.input == c.input[1..]
  {
    StreamSize(c);
    hide Next;
    d := Step(c);
    PullKeeps(c);
  }

  // t is what is left of s when some of its front is taken away.
  ghost predicate Tail(s: seq<byte>, t: seq<byte>) {
    |t| <= |s| && s[|s| - |t|..] == t
  }

  lemma TailOfTail(s: seq<byte>, t: seq<byte>, u: seq<byte>)
    requires Tail(s, t) && Tail(t, u)
    ensures Tail(s, u)
  {
    assert s[|s| - |u|..] == s[|s| - |t|..][|t| - |u|..];
  }

  // How many bits a state waits for that waits for a number of them.
  function Needs(s: State): nat {
    match s.mode
    case TYPE => if s.last then 0 else 3
    case STORED => if s.bits % 8 == 0 then 32 else 0
    case TABLE => 14
    case LENLENS => if s.have < s.ncode && s.have < BL_CODES && |s.bl| == BL_CODES then 3 else 0
    case LENEXT => s.extra
    case DISTEXT => s.extra
    case _ => 0
  }

  lemma NeedsPulls(s: State)
    ensures s.bits < Needs(s) ==> Next(s).Pull?
  {
  }

  // NEEDBITS(): the state is reached again, with enough bits.
  lemma {:induction false} NeedBits(c: Config) returns (d: Config)
    requires Good(c.s) && Needs(c.s) <= |Stream(c)|
    ensures Call(d) == Call(c) && Good(d.s) && Stream(d) == Stream(c) && d.room == c.room
    ensures SameBut(c.s, d.s) && Needs(d.s) == Needs(c.s) <= d.s.bits && Tail(c.input, d.input)
    ensures c.s.bits < Needs(c.s) + 8 ==> d.s.bits < Needs(c.s) + 8
    decreases |c.input|
  {
    hide Stream, Good, Next, Call;
    if c.s.bits < Needs(c.s) {
      NeedsPulls(c.s);
      var e := PullOne(c, Needs(c.s));
      d := NeedBits(e);
      TailOfTail(c.input, e.input, d.input);
    } else {
      d := c;
    }
  }

  // The first n bits of the stream are those of v: they are the low bits of
  // the accumulator, and dropping them leaves the rest.
  lemma TakeBits(c: Config, v: nat, n: nat, rest: seq<bool>)
    requires Good(c.s) && n <= c.s.bits && v < Pow2(n) && Stream(c) == BitsOf(v, n) + rest
    ensures Low(c.s.hold, n) == v
    ensures Good(Drop(c.s, n)) && Stream(c.(s := Drop(c.s, n))) == rest
  {
    var h, b := c.s.hold, c.s.bits;
    hide Pow2, BitsOf, BytesBits, Low, Shr;
    BitsOfSplit(h, n, b - n);
    SplitAt(BitsOf(h, n), BitsOf(Shr(h, n), b - n), BytesBits(c.input), BitsOf(v, n), rest);
    ValBitsOf(h, n);
    ValBitsOf(v, n);
    LowSmall(v, n);
    ShrBound(h, n, b - n);
  }

  lemma SplitAt(a: seq<bool>, b: seq<bool>, c: seq<bool>, x: seq<bool>, y: seq<bool>)
    requires a + b + c == x + y && |a| == |x|
    ensures a == x && b + c == y
  {
    assert a == (a + b + c)[..|a|] == (x + y)[..|a|] == x;
    assert b + c == (a + b + c)[|a|..] == (x + y)[|a|..] == y;
  }

  // ---- Codes ----

  // The code lengths that a state decodes with.
  function CodeLens(s: State): seq<nat> {
    match s.mode
    case CODELENS => s.bl
    case LEN => s.ll
    case DIST => s.dl
    case _ => []
  }

  // With the bits of V in the accumulator as far as they have come in, decoding
  // waits for the whole code of y and then finds y.
  lemma DecodeFinds(lens: seq<nat>, y: nat, V: nat, hold: nat, bits: nat)
    requires Complete(lens) && y < |lens| && Matches(lens, y, V) && hold == Low(V, bits)
    ensures Decode(lens, hold, bits) == if lens[y] <= bits then Symbol(y) else More
  {
    hide Low, StreamCode;
    forall z: nat | z < |lens| && Matches(lens, z, hold) && lens[z] <= bits ensures z == y {
      LowLow(V, lens[z], bits);
      MatchUnique(lens, z, y, V);
    }
    if lens[y] <= bits {
      LowLow(V, lens[y], bits);
      assert Matches(lens, y, hold);
      forall z: nat | z < |lens| && Matches(lens, z, hold) ensures z == y {
        MatchUnique(lens, z, y, hold);
      }
    }
    var some := SomeMatch(lens, hold);
  }

  // The whole stream as a number.
  ghost function Value(c: Config): nat {
    Val(Stream(c))
  }

  lemma HoldIsLow(c: Config)
    requires Good(c.s)
    ensures c.s.hold == Low(Value(c), c.s.bits)
  {
    hide BitsOf, BytesBits, Low, Pow2;
    ValPrefix(Stream(c), c.s.bits);
    BitsOfLength(c.s.hold, c.s.bits);
    assert Stream(c)[..c.s.bits] == BitsOf(c.s.hold, c.s.bits);
    ValBitsOf(c.s.hold, c.s.bits);
    LowSmall(c.s.hold, c.s.bits);
  }

  lemma CodeMatches(c: Config, lens: seq<nat>, y: nat, rest: seq<bool>)
    requires Prefixed(lens) && y < |lens| && lens[y] > 0 && Stream(c) == CodeBits(lens, y) + rest
    ensures Matches(lens, y, Value(c)) && StreamCode(lens, y) < Pow2(lens[y])
  {
    hide BitsOf, BytesBits, Low, Rev;
    var n := lens[y];
    RevBound(CodeOf(lens, y), n);
    ValPrefix(Stream(c), n);
    BitsOfLength(StreamCode(lens, y), n);
    assert Stream(c)[..n] == CodeBits(lens, y);
    ValBitsOf(StreamCode(lens, y), n);
    LowSmall(StreamCode(lens, y), n);
  }

  // Whether the state is about to decode a symbol.
  ghost predicate Decoding(s: State) {
    s.mode == LEN || s.mode == DIST || (s.mode == CODELENS && |s.lens| < s.nlen + s.ndist)
  }

  // The bits after the code that the state waits for before it goes on.
  function ExtraNeeded(s: State, y: nat): nat {
    if s.mode != CODELENS || y < 16 then 0 else if y == 16 then 2 else if y == 17 then 3 else 7
  }

  lemma CodePulls(s: State, y: nat)
    requires Decoding(s) && y < |CodeLens(s)| && (s.mode == CODELENS ==> |s.bl| == BL_CODES)
    requires Decode(CodeLens(s), s.hold, s.bits) == if CodeLens(s)[y] <= s.bits then Symbol(y) else More
    requires s.bits < CodeLens(s)[y] + ExtraNeeded(s, y)
    ensures Next(s).Pull?
  {
    hide Decode, Shr, Low;
  }

  // The decoding loop: the state is reached again with the whole code of y,
  // and the extra bits it waits for, in the accumulator.
  lemma {:induction false} NeedCode(c: Config, y: nat) returns (d: Config)
    requires Good(c.s) && Decoding(c.s) && Complete(CodeLens(c.s)) && y < |CodeLens(c.s)|
    requires c.s.mode == CODELENS ==> |c.s.bl| == BL_CODES
    requires Matches(CodeLens(c.s), y, Value(c))
    requires CodeLens(c.s)[y] + ExtraNeeded(c.s, y) <= |Stream(c)|
    ensures Call(d) == Call(c) && Good(d.s) && Stream(d) == Stream(c) && d.room == c.room
    ensures SameBut(c.s, d.s) && CodeLens(c.s)[y] + ExtraNeeded(c.s, y) <= d.s.bits
    ensures c.s.bits < CodeLens(c.s)[y] + ExtraNeeded(c.s, y) + 8 ==>
      d.s.bits < CodeLens(c.s)[y] + ExtraNeeded(c.s, y) + 8
    ensures Decode(CodeLens(d.s), d.s.hold, d.s.bits) == Symbol(y)
    decreases |c.input|
  {
    hide Stream, Good, Next, Call, Decode, Complete, Matches;
    HoldIsLow(c);
    DecodeFinds(CodeLens(c.s), y, Value(c), c.s.hold, c.s.bits);
    if c.s.bits < CodeLens(c.s)[y] + ExtraNeeded(c.s, y) {
      CodePulls(c.s, y);
      var e := PullOne(c, CodeLens(c.s)[y] + ExtraNeeded(c.s, y));
      d := NeedCode(e, y);
    } else {
      d := c;
    }
  }

  // Reading a code whose bits are at the front of the stream, up to the step
  // that acts on it.
  lemma ReadCode(c: Config, y: nat, rest: seq<bool>) returns (d: Config)
    requires Good(c.s) && Decoding(c.s) && Complete(CodeLens(c.s)) && y < |CodeLens(c.s)| && CodeLens(c.s)[y] > 0
    requires c.s.mode == CODELENS ==> |c.s.bl| == BL_CODES
    requires Stream(c) == CodeBits(CodeLens(c.s), y) + rest && ExtraNeeded(c.s, y) <= |rest|
    ensures Call(d) == Call(c) && d.room == c.room && SameBut(c.s, d.s) && Stream(d) == Stream(c)
    ensures Decode(CodeLens(d.s), d.s.hold, d.s.bits) == Symbol(y)
    ensures CodeLens(c.s)[y] + ExtraNeeded(c.s, y) <= d.s.bits && Good(d.s)
    ensures c.s.bits < 8 ==> d.s.bits < CodeLens(c.s)[y] + ExtraNeeded(c.s, y) + 8
    ensures var e := d.(s := Drop(d.s, CodeLens(c.s)[y])); Good(e.s) && Stream(e) == rest
  {
    var lens := CodeLens(c.s);
    assert Prefixed(lens);
    hide Stream, Good, Next, Call, Decode, Prefixed, Complete, Matches, BitsOf;
    CodeMatches(c, lens, y, rest);
    BitsOfLength(StreamCode(lens, y), lens[y]);
    d := NeedCode(c, y);
    TakeBits(d, StreamCode(lens, y), lens[y], rest);
  }

  // One step that neither takes input nor makes output.
  lemma GoStep(c: Config)
    requires Next(c.s).Go?
    ensures Call(c.(s := Next(c.s).to)) == Call(c)
  {
    hide Next;
  }

  lemma EmitStep(c: Config)
    requires Next(c.s).Emit? && c.room > 0
    ensures Call(Config(Next(c.s).to, c.input, c.room - 1)) == Call(c)
  {
    hide Next;
  }
}
