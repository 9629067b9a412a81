// inflate.c: whole calls of inflate(), one after another, with the tables, the
// window and the registers that are kept from one to the next.
module InflateCall {
  import opened BitWriter
  import opened BlockFormat
  import InflateTable
  import opened Bits
  import CanonicalCode
  import StaticTrees
  import opened InflateMachine
  import opened InflateStream
  import opened InflateAhead
  import opened Window
  import opened Inflate
  import opened InflateHeader

  lemma EnterBlock(s: Inflate)
    requires Ready(s) && InBlock(s.mode)
    ensures s.Valid() && Light(s.st)
  {
    hide Good, Call, Prepared, TablesFor, Light, ModeOk;
  }

  lemma LeaveBlock(s: Inflate)
    requires s.Valid() && Light(s.st) && Prepared(s.Held())
    ensures Ready(s)
  {
    hide Good, Call, Prepared, TablesFor, Light, ModeOk;
    ModeOkModes(s.st);
  }

  lemma ReadyParts(s: Inflate)
    requires Ready(s)
    ensures Running(s) && Prepared(s.Held())
  {
    hide Good, Call, Prepared, Loaded, Light;
  }

  lemma StuckAtGoal(s: Inflate)
    requires Running(s)
    ensures s.seen <= |s.input| && (Stuck(s.Now()) || s.mode == DONE || s.mode == BAD ==> s.Now() == s.goal)
  {
    hide Good;
  }

  // The data of a block.
  method DoBlock(s: Inflate) returns (leave: bool, ghost heavy: bool)
    requires Ready(s) && InBlock(s.mode)
    modifies s`mode, s`hold, s`bits, s`next, s`seen, s`st, s`length, s`offset, s`extra, s`put, s`left, s.dst
    ensures Ready(s) && s.seen <= |s.input| && if leave then s.Now() == s.goal else Smaller(s.Now(), old(s.Now()))
    ensures (heavy <==> old(s.Heavy())) && (leave || s.bits < 8)
  {
    hide *;
    ReadyParts(s);
    RunningParts(s);
    EnterBlock(s);
    leave, heavy := s.DecodeBlock();
    LeaveBlock(s);
    ReadyParts(s);
    RunningParts(s);
  }

  // The states in front of a block.
  method DoHead(s: Inflate) returns (leave: bool)
    requires Ready(s) && !InBlock(s.mode) && s.mode != DONE && s.mode != BAD
    modifies s`mode, s`last, s`hold, s`bits, s`next, s`seen, s`st, s`length, s`nlen, s`ndist, s`ncode, s`have,
      s`lencode, s`lenbits, s`distcode, s`distbits, s`put, s`left, s.dst, s.lens, s.table, s.work
    ensures Ready(s) && s.seen <= |s.input| && s.Moved(leave, old(s.Now())) && (leave || s.mode == BAD || s.bits < 8)
  {
    hide Ready, Call, Next, Good, Stuck, Smaller;
    ReadyParts(s);
    RunningParts(s);
    leave := false;
    match s.mode {
      case TYPE => leave := DoType(s);
      case STORED => leave := DoStored(s);
      case COPY => leave := DoCopy(s);
      case TABLE => leave := DoTable(s);
      case LENLENS => leave := DoLenLens(s);
      case CODELENS => leave := DoCodeLens(s);
      case CHECK => DoCheck(s);
    }
    ReadyParts(s);
    RunningParts(s);
  }

  // One round of the loop: leave says that the call is at its end, and heavy
  // that inflate_fast() is entered in it with a whole byte held.
  method Round(s: Inflate) returns (leave: bool, ghost heavy: bool)
    requires Ready(s)
    modifies s`mode, s`last, s`hold, s`bits, s`next, s`seen, s`st, s`length, s`offset, s`extra, s`nlen, s`ndist, s`ncode, s`have,
      s`lencode, s`lenbits, s`distcode, s`distbits, s`put, s`left, s.dst, s.lens, s.table, s.work
    ensures Ready(s) && s.seen <= |s.input| && if leave then s.Now() == s.goal else Smaller(s.Now(), old(s.Now()))
    ensures (heavy <==> old(s.Heavy())) && (leave || s.mode == BAD || s.bits < 8)
  {
    hide Ready, Running, Call, Next, Good, Stuck, Smaller;
    ReadyParts(s);
    RunningParts(s);
    StuckAtGoal(s);
    heavy := false;
    if s.mode == DONE || s.mode == BAD {
      leave := true;
    } else if InBlock(s.mode) {
      leave, heavy := DoBlock(s);
    } else {
      leave := DoHead(s);
      ReadyParts(s);
      StuckAtGoal(s);
    }
  }

  // The loop of inflate(): in the end it is where the machine's call ends.
  method Run(s: Inflate) returns (ghost heavy: bool)
    requires Ready(s)
    modifies s`mode, s`last, s`hold, s`bits, s`next, s`seen, s`st, s`length, s`offset, s`extra, s`nlen, s`ndist, s`ncode, s`have,
      s`lencode, s`lenbits, s`distcode, s`distbits, s`put, s`left, s.dst, s.lens, s.table, s.work
    ensures Ready(s) && s.seen <= |s.input| && s.Now() == s.goal && (heavy <==> old(s.Heavy()))
  {
    hide Ready, Running, Call, Next, Good, Stuck, Smaller;
    ReadyParts(s);
    RunningParts(s);
    var leave := false;
    ghost var first := true;
    heavy := false;
    while !leave
      invariant Ready(s) && s.seen <= |s.input| && (leave ==> s.Now() == s.goal)
      invariant if first then !leave && s.Heavy() == old(s.Heavy()) else leave || s.mode == BAD || s.bits < 8
      invariant heavy <==> !first && old(s.Heavy())
      decreases if leave then 0 else 1, |s.input| - s.seen, s.left, s.bits, Rank(s.mode)
    {
      ReadyParts(s);
      RunningParts(s);
      ghost var before := s.Now();
      ghost var fast;
      leave, fast := Round(s);
      heavy, first := heavy || fast, false;
      ReadyParts(s);
      RunningParts(s);
      if !leave { SmallerParts(s.Now(), before); }
    }
  }

  // ---- From one call to the next ----

  // What is kept: registers, arrays and window, for the machine's state st.
  ghost predicate Kept(r: Registers, mem: Memory, win: Window, st: State)
    reads mem.table, mem.lens, win, win.window
  {
    && st.mode == r.mode && st.hold == r.hold && st.bits == r.bits && st.last == r.last && Good(st)
    && win.window.Length == 32768
    && (r.mode != BAD && r.mode != DONE ==>
         win.Valid(st.out) && Prepared(mem) && Light(st) && Loaded(st, r, mem.lens[..], mem.table[..]))
  }

  lemma KeptParts(r: Registers, mem: Memory, win: Window, st: State)
    requires Kept(r, mem, win, st)
    ensures st.mode == r.mode && st.bits == r.bits && win.window.Length == 32768
  {
    hide Prepared, Loaded, Light, Holds, Good;
  }

  // What Ready() says of the state's own arrays and registers.
  ghost predicate Stored(s: Inflate)
    reads s, s.table, s.lens
  {
    && s.st.mode == s.mode && s.st.hold == s.hold && s.st.bits == s.bits && s.st.last == s.last && Good(s.st)
    && s.window.window.Length == 32768 && s.dst != s.window.window
    && Prepared(s.Held()) && (s.mode != BAD ==> Light(s.st)) && Loaded(s.st, s.Saved(), s.lens[..], s.table[..])
  }

  lemma StoredIs(s: Inflate)
    requires Ready(s)
    ensures Stored(s)
  {
    hide Good, Call, Prepared, Loaded, Light, Holds;
  }

  lemma KeptIs(s: Inflate)
    requires Stored(s) && (s.mode != BAD && s.mode != DONE ==> s.window.Valid(s.st.out))
    ensures Kept(s.Saved(), s.Held(), s.window, s.st)
  {
    hide Good, Call, Prepared, Loaded, Light, Holds;
  }

  lemma ReadyStarts(s: Inflate, r: Registers, mem: Memory, win: Window, st: State)
    requires Kept(r, mem, win, st) && r.mode != BAD && r.mode != DONE
    requires s.Base() && s.st == st && s.Saved() == r && s.Held() == mem && s.next == s.seen == 0
    ensures Ready(s)
  {
    hide Good, Call, Prepared, Loaded, Light, Holds;
  }

  lemma NotAtCheck(s: Inflate, c: Config)
    requires Running(s) && s.Now() == Call(c)
    ensures s.mode != CHECK
  {
    hide Good;
    CallStops(c);
  }

  lemma PlaceOf(s: Inflate)
    requires Running(s)
    ensures s.put + s.left == s.start + s.room <= s.dst.Length && s.start <= s.put
    ensures s.st.out == s.hist + s.dst[s.start..s.put]
  {
    hide Good, Call;
  }

  // One call of inflate(): data in, room for n bytes out. used bytes are taken,
  // and made bytes put out; everything is where the machine's call ends. heavy
  // tells whether inflate_fast() was entered with a whole byte held: the state
  // that was kept decides that, with enough input and room.
  method InflateOnce(r: Registers, mem: Memory, win: Window, data: seq<byte>, out: array<byte>, n: nat, finish: bool, ghost st: State)
      returns (r2: Registers, used: nat, made: nat, ghost st2: State, ghost heavy: bool)
    requires Kept(r, mem, win, st) && r.mode != BAD && r.mode != DONE && n <= out.Length && out != win.window
    modifies mem.table, mem.lens, mem.work, win, win.window, out
    ensures Kept(r2, mem, win, st2) && used <= |data| && made <= n
    ensures Config(st2, data[used..], n - made) == Call(Config(st, data, n))
    ensures st2.out == st.out + out[..made]
    ensures heavy <==> r.mode == LEN && r.bits >= 8 && |data| >= 6 && n >= 258
  {
    hide Good, Call, Prepared, Loaded, Light, Holds, Ready, Running;
    var s := new Inflate(r, mem, win, data, out, n, st, st.out);
    ReadyStarts(s, r, mem, win, st);
    heavy := Run(s);
    r2, used, made, st2 := Finished(s, finish, Config(st, data, n));
  }

  // Leave the loop.
  method Finished(s: Inflate, finish: bool, ghost c: Config) returns (r2: Registers, used: nat, made: nat, ghost st2: State)
    requires Ready(s) && s.seen <= |s.input| && s.Now() == s.goal == Call(c) && s.start == 0
    modifies s.window, s.window.window
    ensures Kept(r2, s.Held(), s.window, st2) && used <= |s.input| && made <= s.room <= s.dst.Length
    ensures Config(st2, s.input[used..], s.room - made) == Call(c)
    ensures st2.out == s.hist + s.dst[..made]
  {
    hide Good, Call, Prepared, Loaded, Light, Holds, Ready, Running;
    ReadyParts(s);
    RunningParts(s);
    NotAtCheck(s, c);
    PlaceOf(s);
    StoredIs(s);
    r2, used, made, st2 := s.Saved(), s.next, s.put, s.st;
    assert s.dst[0..made] == s.dst[..made];
    Left(s, finish);
    KeptIs(s);
  }

  method Left(s: Inflate, finish: bool)
    requires Ready(s) && s.mode != CHECK && Stored(s)
    modifies s.window, s.window.window
    ensures Stored(s) && (s.mode != BAD && s.mode != DONE ==> s.window.Valid(s.st.out))
    ensures s.dst[..] == old(s.dst[..])
  {
    hide Good, Call, Prepared, Loaded, Light, Holds;
    s.Leave(finish);
  }

  // ---- A whole stream ----

  lemma FixedLengths()
    ensures CanonicalCode.LengthsInRange(FixedLitLens()) && !InflateTable.Refused(InflateTable.LENS, FixedLitLens())
    ensures |FixedLitLens()| == 288 && FixedLitLens()[200] == 9 && forall s :: 0 <= s < 288 ==> FixedLitLens()[s] <= 9
    ensures CanonicalCode.LengthsInRange(FixedInflateDists()) && !InflateTable.Refused(InflateTable.DISTS, FixedInflateDists())
  {
    StaticTrees.FixedComplete();
    StaticTrees.FiveBitKraft(FixedInflateDists());
    hide FixedInflateDists;
  }

  // Tables for the fixed codes, before those that are built.
  lemma FixedBuilt(before: seq<InflateTable.Code>, table: seq<InflateTable.Code>, distfix: nat, codes: nat)
    requires distfix <= codes <= |table| && |before| == |table| && before[..distfix] == table[..distfix]
    requires InflateTable.Decodes(before[..distfix], 0, 9, InflateTable.LENS, FixedLitLens())
    requires InflateTable.Decodes(table[..codes], distfix, 5, InflateTable.DISTS, FixedInflateDists())
    ensures FixedTables(table[..codes], 0, distfix)
  {
    hide InflateTable.Decodes, FixedLitLens, FixedInflateDists;
    assert table[..codes][..distfix] == table[..distfix];
    InflateTable.DecodesMore(before[..distfix], table[..codes], 0, 9, InflateTable.LENS, FixedLitLens());
  }

  // The arrays of a new state, with the tables of fixedtables() in them.
  method NewMemory() returns (mem: Memory)
    ensures Prepared(mem) && fresh(mem.table) && fresh(mem.lens) && fresh(mem.work)
  {
    hide InflateTable.Decodes, InflateTable.Refused, FixedLitLens, FixedInflateDists, FixedTables;
    var table := new InflateTable.Code[2 * (InflateTable.ENOUGH_LENS + InflateTable.ENOUGH_DISTS)];
    var lens, work := new nat[LENS_SIZE], new nat[WORK_SIZE];
    FixedLengths();
    assert Pow2(9) == 512 && Pow2(5) == 32 by { Pow2Values(); }
    assert FixedInflateDists()[0] == 5;
    var ret, distfix, root := InflateTable.InflateTable(InflateTable.LENS, FixedLitLens(), table, 0, 9, work);
    ghost var before := table[..];
    var codes;
    ret, codes, root := InflateTable.InflateTable(InflateTable.DISTS, FixedInflateDists(), table, distfix, 5, work);
    assert before[..distfix] == table[..][..distfix];
    FixedBuilt(before, table[..], distfix, codes);
    mem := Memory(table, lens, work, codes, 0, distfix);
  }

  // The state of a stream between calls: what has come out of it so far, the
  // input that is left, and the room.
  ghost predicate Reached(st: State, out: seq<byte>, rest: seq<byte>, room: nat, done: seq<Piece>, pieces: seq<Piece>) {
    && done <= pieces && st.out == out
    && Calls(Config(st, rest, room), pieces[|done|..]) == Calls(Config(Initial(), [], 0), pieces)
  }

  lemma ReachedStart(pieces: seq<Piece>)
    ensures Reached(Initial(), [], [], 0, [], pieces)
  {
    assert pieces[0..] == pieces;
  }

  lemma ReachedMore(st: State, out: seq<byte>, rest: seq<byte>, room: nat, done: seq<Piece>, pieces: seq<Piece>, p: Piece,
                    st2: State, rest2: seq<byte>, room2: nat, out2: seq<byte>)
    requires Reached(st, out, rest, room, done, pieces) && |done| < |pieces| && p == pieces[|done|]
    requires Config(st2, rest2, room2) == Call(Config(st, rest + p.input, room + p.room)) && st2.out == out2
    ensures Reached(st2, out2, rest2, room2, done + [p], pieces)
  {
    hide Call;
    assert pieces[|done|..][1..] == pieces[|done| + 1..];
  }

  lemma ReachedEnd(st: State, out: seq<byte>, rest: seq<byte>, room: nat, pieces: seq<Piece>)
    requires Reached(st, out, rest, room, pieces, pieces)
    ensures Config(st, rest, room) == Calls(Config(Initial(), [], 0), pieces) && st.out == out
  {
    assert pieces[|pieces|..] == [];
  }

  // At the end of the stream and after an error further calls do nothing.
  lemma StoppedCall(c: Config)
    requires c.s.mode == DONE || c.s.mode == BAD
    ensures Call(c) == c
  {
  }

  lemma InOneCall(pieces: seq<Piece>)
    requires pieces != []
    ensures Calls(Config(Initial(), [], 0), pieces) == Call(Config(Initial(), AllInput(pieces), AllRoom(pieces)))
  {
    hide Call, Calls, AllInput, AllRoom, Initial;
    SplitAnywhere(Config(Initial(), [], 0), pieces);
    assert [] + AllInput(pieces) == AllInput(pieces);
  }

  // The output so far, the state reached, the input left over, and the room.
  ghost predicate EndsLike(c: Config, out: seq<byte>, mode: Mode, rest: seq<byte>, room: nat) {
    c.s.out == out && c.s.mode == mode && c.input == rest && c.room == room
  }

  // inflateInit2() and one call of inflate() for each piece of input, with the
  // flush value Z_FINISH for some: the output, and the state in the end. It is
  // where a single call with all of the input and all of the room ends.
  method InflateAll(pieces: seq<Piece>, finish: seq<bool>)
      returns (out: seq<byte>, mode: Mode, rest: seq<byte>, room: nat)
    requires |finish| == |pieces|
    ensures EndsLike(Calls(Config(Initial(), [], 0), pieces), out, mode, rest, room)
    ensures pieces != [] ==> EndsLike(Call(Config(Initial(), AllInput(pieces), AllRoom(pieces))), out, mode, rest, room)
  {
    hide Given, AllInput, AllRoom, Call, Calls, Good, Prepared, Loaded, Light, Holds, Reached;
    var mem := NewMemory();
    var win := new Window(32768);
    var r := Registers(TYPE, false, 0, 0, 0, 0, 0, 0, 0, 0, 0, 0, 0, 0, 0);
    ghost var st := Initial();
    out, rest, room := [], [], 0;
    KeptStart(r, mem, win);
    ReachedStart(pieces);
    var i := 0;
    while i < |pieces|
      invariant 0 <= i <= |pieces| && Kept(r, mem, win, st)
      invariant fresh(win) && fresh(win.window) && fresh(mem.table) && fresh(mem.lens) && fresh(mem.work)
      invariant Reached(st, out, rest, room, pieces[..i], pieces) && st.out == out
    {
      ghost var st0, out0, rest0, room0 := st, out, rest, room;
      rest, room := rest + pieces[i].input, room + pieces[i].room;
      if r.mode != DONE && r.mode != BAD {
        var buf := new byte[room];
        var used, made;
        ghost var heavy;
        r, used, made, st, heavy := InflateOnce(r, mem, win, rest, buf, room, finish[i], st);
        out, rest, room := out + buf[..made], rest[used..], room - made;
      } else {
        StoppedCall(Config(st, rest, room));
      }
      ReachedMore(st0, out0, rest0, room0, pieces[..i], pieces, pieces[i], st, rest, room, out);
      assert pieces[..i] + [pieces[i]] == pieces[..i + 1];
      i := i + 1;
    }
    assert pieces[..i] == pieces;
    ReachedEnd(st, out, rest, room, pieces);
    if pieces != [] { InOneCall(pieces); }
    mode := r.mode;
  }

  lemma KeptStart(r: Registers, mem: Memory, win: Window)
    requires r == Registers(TYPE, false, 0, 0, 0, 0, 0, 0, 0, 0, 0, 0, 0, 0, 0)
    requires Prepared(mem) && win.Valid([]) && win.window.Length == 32768
    ensures Kept(r, mem, win, Initial())
  {
    hide Prepared, Holds;
  }
}
