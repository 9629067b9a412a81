// inflate.c: what inflate() does to a raw stream, in steps so small that each
// takes at most one byte of input, makes at most one byte of output, or only
// changes the state. It is written over code lengths; the tables that stand
// for them are the business of InflateTable and Inflate.
module InflateMachine {
  import opened Bits
  import CanonicalCode
  import opened BitWriter
  import opened Format
  import opened TreeHeader
  import opened BlockFormat
  import opened InflateTable

  datatype Mode =
    | TYPE | STORED | COPY | TABLE | LENLENS | CODELENS
    | LEN | LENEXT | DIST | DISTEXT | MATCH | LIT
    | CHECK | DONE | BAD

  // hold and bits are the bit accumulator; bl, lens, ll and dl are the code
  // lengths of the items, those read so far, and those of the two codes; out
  // is all output since the start of the stream.
  datatype State = State(mode: Mode, last: bool, hold: nat, bits: nat, length: nat, offset: nat, extra: nat,
                         nlen: nat, ndist: nat, ncode: nat, have: nat, bl: seq<nat>, lens: seq<nat>,
                         ll: seq<nat>, dl: seq<nat>, out: seq<byte>)

  function Initial(): State {
    State(TYPE, false, 0, 0, 0, 0, 0, 0, 0, 0, 0, [], [], [], [], [])
  }

  // What the machine does next: take a byte into the accumulator; change its
  // state; change its state if there is room for output; also put a byte out;
  // copy a byte; or nothing more.
  datatype Action = Pull | Go(to: State) | Look(to: State) | Emit(to: State) | Copy | Stop

  // Remove n bits from the accumulator.
  function Drop(s: State, n: nat): State
    requires n <= s.bits
  {
    s.(hold := Shr(s.hold, n), bits := s.bits - n)
  }

  // The symbol whose code the bits in the accumulator start with.
  datatype Decoded = More | Invalid | Symbol(s: nat)

  ghost function Decode(lens: seq<nat>, hold: nat, bits: nat): (d: Decoded)
    ensures d.Symbol? ==> d.s < |lens| && CanonicalCode.Matches(lens, d.s, hold) && 1 <= lens[d.s] <= bits
    ensures d.Invalid? ==> bits >= 1 && forall s: nat :: s < |lens| ==> !CanonicalCode.Matches(lens, s, hold)
  {
    if s: nat :| s < |lens| && CanonicalCode.Matches(lens, s, hold) then
      if lens[s] <= bits then Symbol(s) else More
    else if bits >= 1 then Invalid
    else More
  }

  // The code lengths refused, or the state to go on with.
  ghost function Checked(s: State, kind: CodeType, lens: seq<nat>, good: State): State {
    if CanonicalCode.LengthsInRange(lens) && !Refused(kind, lens) then good else s.(mode := BAD)
  }

  ghost function TypeAction(s: State): Action {
    if s.last then
      if s.bits % 8 != 0 then Go(Drop(s, s.bits % 8)) else Go(s.(mode := CHECK))
    else if s.bits < 3 then Pull
    else
      var t := Drop(s, 3).(last := s.hold % 2 == 1);
      var kind := Low(Shr(s.hold, 1), 2);
      if kind == STORED_BLOCK then Go(t.(mode := STORED))
      else if kind == STATIC_TREES then Go(t.(mode := LEN, ll := FixedLitLens(), dl := FixedInflateDists()))
      else if kind == DYN_TREES then Go(t.(mode := TABLE))
      else Go(t.(mode := BAD))
  }

  // fixedtables() has all 32 five-bit distance codes.
  function FixedInflateDists(): (s: seq<nat>)
    ensures |s| == 32 && forall i :: 0 <= i < 32 ==> s[i] == 5
  {
    seq(32, i => 5)
  }

  ghost function StoredAction(s: State): Action {
    if s.bits % 8 != 0 then Go(Drop(s, s.bits % 8))
    else if s.bits < 32 then Pull
    else
      var len, nlen := Low(s.hold, 16), Low(Shr(s.hold, 16), 16);
      if len + nlen != 65535 then Go(s.(mode := BAD, bits := 0, hold := 0))
      else Go(s.(mode := COPY, length := len, bits := 0, hold := 0))
  }

  ghost function TableAction(s: State): Action {
    if s.bits < 14 then Pull
    else
      var nlen, ndist, ncode := Low(s.hold, 5) + 257, Low(Shr(s.hold, 5), 5) + 1, Low(Shr(s.hold, 10), 4) + 4;
      var t := Drop(s, 14).(nlen := nlen, ndist := ndist, ncode := ncode);
      if nlen > 286 || ndist > 30 then Go(t.(mode := BAD))
      else Go(t.(mode := LENLENS, have := 0, bl := seq(BL_CODES, i => 0)))
  }

  ghost function LenLensAction(s: State): Action {
    if s.have < s.ncode && s.have < BL_CODES && |s.bl| == BL_CODES then
      if s.bits < 3 then Pull
      else Go(Drop(s, 3).(have := s.have + 1, bl := s.bl[OrderAt(s.have) := Low(s.hold, 3)]))
    else Go(Checked(s, CODES, s.bl, s.(mode := CODELENS, lens := [])))
  }

  // A repeat: of what, how many more than min, in how many bits.
  ghost function RepeatAction(s: State, used: nat, v: nat, min: nat, n: nat): Action
    requires used >= 1
  {
    if s.bits < used + n then Pull
    else
      var copy := min + Low(Shr(s.hold, used), n);
      if |s.lens| + copy > s.nlen + s.ndist then Go(Drop(s, used + n).(mode := BAD))
      else Go(Drop(s, used + n).(lens := s.lens + Repeat(v, copy)))
  }

  ghost function CodeLensAction(s: State): Action {
    if |s.lens| < s.nlen + s.ndist then
      match Decode(s.bl, s.hold, s.bits)
      case More => Pull
      case Invalid => Go(Drop(s, 1).(lens := s.lens + [0]))
      case Symbol(y) =>
        if y < REP_3_6 then Go(Drop(s, s.bl[y]).(lens := s.lens + [y]))
        else if y == REP_3_6 then
          if s.bits < s.bl[y] + 2 then Pull
          else if s.lens == [] then Go(Drop(s, s.bl[y]).(mode := BAD))
          else RepeatAction(s, s.bl[y], s.lens[|s.lens| - 1], 3, 2)
        else if y == REPZ_3_10 then RepeatAction(s, s.bl[y], 0, 3, 3)
        else RepeatAction(s, s.bl[y], 0, 11, 7)
    else
      var n := if s.nlen <= |s.lens| then s.nlen else |s.lens|;
      var ll, dl := s.lens[..n], s.lens[n..];
      if |ll| <= END_BLOCK || ll[END_BLOCK] == 0 then Go(s.(mode := BAD))
      else Go(Checked(s, LENS, ll, Checked(s, DISTS, dl, s.(mode := LEN, ll := ll, dl := dl))))
  }

  ghost function LenAction(s: State): Action {
    match Decode(s.ll, s.hold, s.bits)
    case More => Pull
    case Invalid => Go(Drop(s, 1).(mode := BAD))
    case Symbol(y) =>
      var t := Drop(s, s.ll[y]);
      if y < LITERALS then Go(t.(mode := LIT, length := y))
      else if y == END_BLOCK then Go(t.(mode := TYPE))
      else if y < L_CODES then Go(t.(mode := LENEXT, length := LBASE[y - 257], extra := LEXT[y - 257] - 16))
      else Go(t.(mode := BAD))
  }

  ghost function DistAction(s: State): Action {
    match Decode(s.dl, s.hold, s.bits)
    case More => Pull
    case Invalid => Go(Drop(s, 1).(mode := BAD))
    case Symbol(y) =>
      var t := Drop(s, s.dl[y]);
      if y < D_CODES then Go(t.(mode := DISTEXT, offset := DBASE[y], extra := DEXT[y] - 16))
      else Go(t.(mode := BAD))
  }

  ghost function MatchAction(s: State): Action {
    if s.offset > |s.out| || s.offset == 0 then Look(s.(mode := BAD))
    else
      var t := s.(out := s.out + [s.out[|s.out| - s.offset]], length := if s.length == 0 then 0 else s.length - 1);
      Emit(if s.length <= 1 then t.(mode := LEN) else t)
  }

  ghost function Next(s: State): Action {
    match s.mode
    case TYPE => TypeAction(s)
    case STORED => StoredAction(s)
    case COPY => if s.length == 0 then Go(s.(mode := TYPE)) else Copy
    case TABLE => TableAction(s)
    case LENLENS => LenLensAction(s)
    case CODELENS => CodeLensAction(s)
    case LEN => LenAction(s)
    case LENEXT =>
      if s.bits < s.extra then Pull
      else Go(Drop(s, s.extra).(mode := DIST, length := s.length + Low(s.hold, s.extra)))
    case DIST => DistAction(s)
    case DISTEXT =>
      if s.bits < s.extra then Pull
      else Go(Drop(s, s.extra).(mode := MATCH, offset := s.offset + Low(s.hold, s.extra)))
    case MATCH => MatchAction(s)
    case LIT => if s.length < 256 then Emit(s.(mode := LEN, out := s.out + [s.length])) else Go(s.(mode := BAD))
    case CHECK => Go(s.(mode := DONE))
    case DONE => Stop
    case BAD => Stop
  }

  // ---- Running with some input and some room for output ----

  datatype Config = Config(s: State, input: seq<byte>, room: nat)

  function Pulled(s: State, b: byte): State {
    s.(hold := s.hold + Shl(b, s.bits), bits := s.bits + 8)
  }

  // inflate() has to return: it needs input, or room, or is at the end.
  ghost predicate Stuck(c: Config) {
    match Next(c.s)
    case Pull => c.input == []
    case Go(_) => false
    case Look(_) => c.room == 0
    case Emit(_) => c.room == 0
    case Copy => c.input == [] || c.room == 0
    case Stop => true
  }

  ghost function Step(c: Config): Config
    requires !Stuck(c)
  {
    match Next(c.s)
    case Pull => Config(Pulled(c.s, c.input[0]), c.input[1..], c.room)
    case Go(t) => c.(s := t)
    case Look(t) => c.(s := t)
    case Emit(t) => Config(t, c.input, c.room - 1)
    case Copy =>
      Config(c.s.(length := if c.s.length == 0 then 0 else c.s.length - 1, out := c.s.out + [c.input[0]]), c.input[1..], c.room - 1)
  }

  // Changes of state without input or output do not go on forever.
  function Rank(m: Mode): nat {
    match m
    case LENLENS => 7
    case CODELENS => 6
    case LENEXT => 6
    case DIST => 5
    case DISTEXT => 5
    case COPY => 4
    case MATCH => 4
    case LIT => 4
    case LEN => 4
    case TYPE => 3
    case STORED => 3
    case TABLE => 3
    case CHECK => 1
    case DONE => 0
    case BAD => 0
  }

  predicate Forward(s: State, a: Action) {
    && (a.Go? ==> a.to.bits < s.bits || (a.to.bits == s.bits && Rank(a.to.mode) < Rank(s.mode)))
    && (a.Look? ==> a.to.bits == s.bits && Rank(a.to.mode) < Rank(s.mode))
  }

  lemma BlockForward(s: State)
    ensures s.mode == TYPE ==> Forward(s, TypeAction(s))
    ensures s.mode == STORED ==> Forward(s, StoredAction(s))
    ensures s.mode == TABLE ==> Forward(s, TableAction(s))
  {
    hide Shr, Low;
  }

  lemma LensForward(s: State)
    ensures s.mode == LENLENS ==> Forward(s, LenLensAction(s))
    ensures s.mode == CODELENS ==> Forward(s, CodeLensAction(s))
  {
    hide Shr, Low, Decode, Refused, OrderAt, CanonicalCode.LengthsInRange, Repeat;
  }

  lemma DataForward(s: State)
    ensures s.mode == LEN ==> Forward(s, LenAction(s))
    ensures s.mode == DIST ==> Forward(s, DistAction(s))
    ensures s.mode == MATCH ==> Forward(s, MatchAction(s))
  {
    hide Shr, Low, Decode;
  }

  lemma GoForward(s: State)
    ensures Forward(s, Next(s))
  {
    hide Shr, Low, TypeAction, StoredAction, TableAction, LenLensAction, CodeLensAction, LenAction, DistAction,
      MatchAction;
    BlockForward(s);
    LensForward(s);
    DataForward(s);
  }

  // One call of inflate().
  ghost function Call(c: Config): Config
    decreases |c.input|, c.room, c.s.bits, Rank(c.s.mode)
  {
    GoForward(c.s);
    if Stuck(c) then c else Call(Step(c))
  }

  lemma {:induction false} CallStops(c: Config)
    ensures Stuck(Call(c))
    decreases |c.input|, c.room, c.s.bits, Rank(c.s.mode)
  {
    GoForward(c.s);
    if !Stuck(c) { CallStops(Step(c)); }
  }

  // ---- Calls may be split anywhere ----

  // The same configuration with more input and more room.
  function Given(c: Config, input: seq<byte>, room: nat): Config {
    c.(input := c.input + input, room := c.room + room)
  }

  lemma StepGiven(c: Config, input: seq<byte>, room: nat)
    requires !Stuck(c)
    ensures !Stuck(Given(c, input, room)) && Step(Given(c, input, room)) == Given(Step(c), input, room)
  {
    if c.input != [] {
      assert (c.input + input)[1..] == c.input[1..] + input;
    }
  }

  // Calling with some input and room, and then again with the rest and more,
  // ends exactly where one call with all of it ends.
  lemma {:induction false} CallAgain(c: Config, input: seq<byte>, room: nat)
    ensures Call(Given(Call(c), input, room)) == Call(Given(c, input, room))
    decreases |c.input|, c.room, c.s.bits, Rank(c.s.mode)
  {
    GoForward(c.s);
    if !Stuck(c) {
      StepGiven(c, input, room);
      CallAgain(Step(c), input, room);
    }
  }

  // Any number of calls: each is given a piece of input and some room.
  datatype Piece = Piece(input: seq<byte>, room: nat)

  ghost function Calls(c: Config, pieces: seq<Piece>): Config
    decreases |pieces|
  {
    if pieces == [] then c else Calls(Call(Given(c, pieces[0].input, pieces[0].room)), pieces[1..])
  }

  function AllInput(pieces: seq<Piece>): seq<byte> {
    if pieces == [] then [] else pieces[0].input + AllInput(pieces[1..])
  }

  function AllRoom(pieces: seq<Piece>): nat {
    if pieces == [] then 0 else pieces[0].room + AllRoom(pieces[1..])
  }

  // The output and the verdict do not depend on how the input and the room
  // for output were split over calls.
  lemma {:induction false} SplitAnywhere(c: Config, pieces: seq<Piece>)
    requires pieces != []
    ensures Calls(c, pieces) == Call(Given(c, AllInput(pieces), AllRoom(pieces)))
    decreases |pieces|
  {
    hide Call, Given;
    var p, rest := pieces[0], pieces[1..];
    var d := Given(c, p.input, p.room);
    if rest == [] {
      assert p.input + [] == p.input;
    } else {
      SplitAnywhere(Call(d), rest);
      CallAgain(d, AllInput(rest), AllRoom(rest));
      GivenTwice(c, p.input, AllInput(rest), p.room, AllRoom(rest));
    }
  }

  lemma GivenTwice(c: Config, a: seq<byte>, b: seq<byte>, n: nat, m: nat)
    ensures Given(Given(c, a, n), b, m) == Given(c, a + b, n + m)
  {
    assert c.input + a + b == c.input + (a + b);
  }
}
