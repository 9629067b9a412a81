// inflate.c: the states of inflate() between blocks and in front of them, TYPE
// to CODELENS, on the real data, and whole calls of inflate().
module InflateHeader {
  import opened Bits
  import opened CanonicalCode
  import opened BitWriter
  import opened Format
  import opened TreeHeader
  import opened BlockFormat
  import StaticTrees
  import opened InflateTable
  import opened InflateMachine
  import opened InflateStream
  import InflateBlocks
  import opened InflateAhead
  import opened Inflate

  const LENS_SIZE: nat := 320
  const WORK_SIZE: nat := 288

  // The arrays are large enough, and the tables of the fixed codes are there.
  ghost predicate Prepared(m: Memory)
    reads m.table
  {
    && m.codes + ENOUGH_LENS + ENOUGH_DISTS <= m.table.Length
    && m.lens.Length == LENS_SIZE && m.work.Length == WORK_SIZE && m.lens != m.work
    && FixedTables(m.table[..m.codes], m.lenfix, m.distfix)
  }

  ghost predicate FixedTables(table: seq<Code>, lenfix: nat, distfix: nat) {
    && Decodes(table, lenfix, 9, LENS, FixedLitLens())
    && Decodes(table, distfix, 5, DISTS, FixedInflateDists())
  }

  // ---- The fields of the state in front of a block ----

  // have of the ncode lengths of the item codes have been read.
  ghost predicate LenLensLoaded(st: State, r: Registers, lens: seq<nat>) {
    && |lens| == LENS_SIZE && |st.bl| == BL_CODES && st.have == r.have <= st.ncode == r.ncode <= BL_CODES
    && 257 <= st.nlen == r.nlen <= L_CODES && 1 <= st.ndist == r.ndist <= D_CODES
    && (forall i :: 0 <= i < st.have ==> lens[OrderAt(i)] == st.bl[OrderAt(i)] <= 7)
    && (forall i :: st.have <= i < BL_CODES ==> st.bl[OrderAt(i)] == 0)
  }

  // have of the nlen + ndist code lengths have been read.
  ghost predicate CodeLensLoaded(st: State, r: Registers, lens: seq<nat>, table: seq<Code>) {
    && |lens| == LENS_SIZE && 257 <= st.nlen == r.nlen <= L_CODES && 1 <= st.ndist == r.ndist <= D_CODES
    && |st.lens| == r.have <= st.nlen + st.ndist && st.lens == lens[..r.have]
    && (forall i :: 0 <= i < |st.lens| ==> st.lens[i] <= 15)
    && ItemTable(table, r.lencode, r.lenbits, st.bl)
  }

  // A table of one level that decodes items.
  ghost predicate ItemTable(table: seq<Code>, lencode: nat, lenbits: nat, bl: seq<nat>) {
    && |bl| == BL_CODES && Decodes(table, lencode, lenbits, CODES, bl) && Accepted(bl)
    && forall i :: 0 <= i < BL_CODES ==> bl[i] <= lenbits
  }

  ghost predicate Loaded(st: State, r: Registers, lens: seq<nat>, table: seq<Code>) {
    match st.mode
    case COPY => st.length == r.length
    case LENLENS => LenLensLoaded(st, r, lens)
    case CODELENS => CodeLensLoaded(st, r, lens, table)
    case TYPE => true
    case STORED => true
    case TABLE => true
    case CHECK => true
    case DONE => true
    case BAD => true
    case _ => BlockLoaded(st, r, table)
  }

  // The machine's accumulator and place in the input.
  ghost predicate Agrees(s: Inflate)
    reads s`mode, s`hold, s`bits, s`st, s`next, s`seen
  {
    s.st.mode == s.mode && s.st.hold == s.hold && s.st.bits == s.bits && s.next == s.seen
  }

  ghost predicate Ready(s: Inflate)
    reads s, s.table, s.lens, s.dst, s.window, s.window.window
  {
    && s.Base() && Agrees(s) && Prepared(s.Held())
    && Loaded(s.st, s.Saved(), s.lens[..], s.table[..]) && (s.st.mode != BAD ==> Light(s.st))
  }

  // ---- NEEDBITS() in front of a block ----

  ghost predicate Running(s: Inflate)
    reads s`mode, s`last, s`hold, s`bits, s`st, s`next, s`seen, s`put, s`left, s.dst, s.window, s.window.window
  {
    s.Base() && Agrees(s)
  }

  lemma RunningParts(s: Inflate)
    requires Running(s)
    ensures s.seen <= |s.input| && Good(s.st) && s.next == s.seen
    ensures s.st.mode == s.mode && s.st.last == s.last && s.st.hold == s.hold && s.st.bits == s.bits
    ensures s.Now() == Config(s.st, s.input[s.seen..], s.left)
    ensures s.Held() == Memory(s.table, s.lens, s.work, s.codes, s.lenfix, s.distfix)
  {
    hide Good, Call;
  }

  lemma SavedParts(s: Inflate)
    ensures var r := s.Saved();
      && r.length == s.length && r.nlen == s.nlen && r.ndist == s.ndist && r.ncode == s.ncode && r.have == s.have
      && r.lencode == s.lencode && r.lenbits == s.lenbits && r.distcode == s.distcode && r.distbits == s.distbits
  {
  }

  // A step that takes no input and makes no output.
  lemma SmallerState(s: Inflate, before: Config)
    requires Running(s) && before.input == s.input[s.seen..] && before.room == s.left
    requires s.bits < before.s.bits || (s.bits == before.s.bits && Rank(s.mode) < Rank(before.s.mode))
    ensures Smaller(s.Now(), before)
  {
    hide Good, Call;
  }

  lemma ReadyIs(s: Inflate)
    requires Running(s) && Prepared(s.Held()) && Loaded(s.st, s.Saved(), s.lens[..], s.table[..])
    requires s.mode != BAD ==> Light(s.st)
    ensures Ready(s)
  {
    hide Good, Call, Prepared, Loaded, Light;
  }

  method PullHead(s: Inflate)
    requires Running(s) && s.next < |s.input| && Next(s.st).Pull?
    modifies s`hold, s`bits, s`next, s`seen, s`st
    ensures Running(s) && s.next == old(s.next) + 1 && s.st == Pulled(old(s.st), s.input[old(s.next)])
    ensures SameBut(old(s.st), s.st)
  {
    hide Next, Call, Good, Shl;
    PullCall(s.st, s.input, s.next, s.left);
    s.st := Pulled(s.st, s.input[s.next]);
    s.hold := s.hold + Shl(s.input[s.next], s.bits);
    s.bits := s.bits + 8;
    s.next, s.seen := s.next + 1, s.seen + 1;
  }

  // The number of bits that a state in front of a block waits for.
  function HeadNeed(s: State): nat {
    if s.mode == TYPE && !s.last then 3
    else if s.mode == STORED && s.bits % 8 == 0 then 32
    else if s.mode == TABLE then 14
    else if s.mode == LENLENS && s.have < s.ncode && s.have < BL_CODES && |s.bl| == BL_CODES then 3
    else 0
  }

  lemma HeadPulls(s: State)
    ensures s.bits < HeadNeed(s) ==> Next(s).Pull?
    ensures HeadNeed(s) > 0 && Light(s) ==> s.bits < HeadNeed(s) + 8
    ensures forall b: byte :: HeadNeed(Pulled(s, b)) == HeadNeed(s)
  {
    hide Low, Shr, Shl;
  }

  method NeedHead(s: Inflate, n: nat) returns (leave: bool)
    requires Running(s) && n == HeadNeed(s.st) && n > 0 && Light(s.st)
    modifies s`hold, s`bits, s`next, s`seen, s`st
    ensures Running(s) && SameBut(old(s.st), s.st) && HeadNeed(s.st) == n
    ensures s.next > old(s.next) || (s.next == old(s.next) && s.st == old(s.st))
    ensures if leave then Stuck(s.Now()) && Light(s.st) else n <= s.bits < n + 8
  {
    hide Next, Call, Good, Shl, HeadNeed, Light, Stuck;
    leave := false;
    HeadPulls(s.st);
    while s.bits < n
      invariant Running(s) && SameBut(old(s.st), s.st) && HeadNeed(s.st) == n && s.bits < n + 8
      invariant s.next > old(s.next) || (s.next == old(s.next) && s.st == old(s.st))
      decreases |s.input| - s.next
    {
      HeadPulls(s.st);
      if s.next == |s.input| {
        PullStuck(s.Now());
        PullLight(s.st);
        return true;
      }
      PullHead(s);
    }
  }

  // One step of the machine that changes nothing but numbers.
  lemma GoNow(s: Inflate, t: State)
    requires Running(s) && Next(s.st) == Go(t)
    ensures Call(Config(t, s.input[s.seen..], s.left)) == s.goal
    ensures t.bits < s.st.bits || (t.bits == s.st.bits && Rank(t.mode) < Rank(s.st.mode))
  {
    hide Next, Good;
    GoCall(s.st, s.input[s.seen..], s.left);
    GoForward(s.st);
  }

  // Take that step.
  method Become(s: Inflate, mode: Mode, last: bool, hold: nat, bits: nat, ghost t: State)
    requires Running(s) && Next(s.st) == Go(t) && Good(t) && t.out == s.st.out
    requires t.mode == mode && t.last == last && t.hold == hold && t.bits == bits
    modifies s`mode, s`last, s`hold, s`bits, s`st
    ensures Running(s) && s.st == t && s.mode == mode && s.last == last && s.hold == hold && s.bits == bits
    ensures bits < old(s.bits) || (bits == old(s.bits) && Rank(mode) < Rank(old(s.mode)))
  {
    hide Next, Good, Call;
    GoNow(s, t);
    s.st, s.mode, s.last, s.hold, s.bits := t, mode, last, hold, bits;
  }

  // ---- TYPE ----

  lemma TypeNext(s: State)
    requires s.mode == TYPE
    ensures s.last && s.bits % 8 != 0 ==> Next(s) == Go(Drop(s, s.bits % 8))
    ensures s.last && s.bits % 8 == 0 ==> Next(s) == Go(s.(mode := CHECK))
    ensures !s.last && s.bits >= 3 ==> Next(s) == Go(AfterType(s))
  {
    hide Low, Shr;
  }

  // The state behind the three bits of a block's start.
  ghost function AfterType(s: State): State
    requires s.bits >= 3
  {
    var t := Drop(s, 3).(last := s.hold % 2 == 1);
    var kind := Low(Shr(s.hold, 1), 2);
    if kind == STORED_BLOCK then t.(mode := STORED)
    else if kind == STATIC_TREES then t.(mode := LEN, ll := FixedLitLens(), dl := FixedInflateDists())
    else if kind == DYN_TREES then t.(mode := TABLE)
    else t.(mode := BAD)
  }

  // BYTEBITS()
  method ByteBits(s: Inflate)
    requires Running(s) && (s.bits % 8 != 0 ==> Next(s.st) == Go(Drop(s.st, s.bits % 8)))
    modifies s`hold, s`bits, s`st
    ensures Running(s) && s.st == Drop(old(s.st), old(s.bits) % 8) && s.bits % 8 == 0
    ensures s.bits <= old(s.bits) && (s.bits == old(s.bits) ==> s.st == old(s.st))
  {
    hide Next, Call, Good, Shr;
    var n := s.bits % 8;
    GoodDrop(s.st, n);
    NoDrop(s.st);
    if n != 0 { GoNow(s, Drop(s.st, n)); }
    s.st := Drop(s.st, n);
    s.hold, s.bits := Shr(s.hold, n), s.bits - n;
  }

  lemma NoDrop(s: State)
    ensures Drop(s, 0) == s
  {
  }

  // The tables of the fixed codes serve for the codes of a block.
  lemma FixedServe(s: Inflate, st: State)
    requires Prepared(s.Held()) && st.ll == FixedLitLens() && st.dl == FixedInflateDists()
    ensures TablesFor(s.table[..], s.lenfix, 9, s.distfix, 5, st.ll, st.dl)
  {
    hide Decodes, Complete, Prefixed;
    StaticTrees.FixedComplete();
    StaticTrees.FiveBitKraft(FixedInflateDists());
    DecodesMore(s.table[..s.codes], s.table[..], s.lenfix, 9, LENS, st.ll);
    DecodesMore(s.table[..s.codes], s.table[..], s.distfix, 5, DISTS, st.dl);
    CompleteAccepted(st.ll);
    CompleteAccepted(st.dl);
  }

  lemma CompleteAccepted(lens: seq<nat>)
    requires Complete(lens)
    ensures Accepted(lens)
  {
  }

  lemma TypeBitsOf(hold: nat)
    ensures Low(hold, 1) == hold % 2 && Shr(hold, 1) == hold / 2 && Low(Shr(hold, 1), 2) <= 3
    ensures Shr(hold, 3) == Shr(Shr(hold, 1), 2)
  {
    assert Low(hold, 1) == hold % 2 + 2 * Low(hold / 2, 0);
    Compose(Shr(hold, 1), 2);
    assert Pow2(2) == 4 by { Pow2Values(); }
    ShrShr(hold, 1, 2);
  }

  method DoType(s: Inflate) returns (leave: bool)
    requires Ready(s) && s.mode == TYPE
    modifies s`mode, s`last, s`hold, s`bits, s`next, s`seen, s`st, s`lencode, s`lenbits, s`distcode, s`distbits
    ensures Ready(s) && s.Moved(leave, old(s.Now()))
    ensures !leave && s.mode != BAD ==> s.bits < 8
  {
    hide Next, Call, Good, Low, Shr, Decodes, Accepted, TablesFor, Prepared, Light, Stuck, Loaded, AfterType;
    leave := false;
    if s.last {
      LastLight(s.st);
      TypeNext(s.st);
      ByteBits(s);
      TypeNext(s.st);
      GoodBits(s.st, s.st.(mode := CHECK));
      FewLight(s.st.(mode := CHECK));
      Become(s, CHECK, s.last, s.hold, s.bits, s.st.(mode := CHECK));
      EasyLoaded(s.st, s.Saved(), s.lens[..], s.table[..]);
      return;
    }
    NeedIs(s.st);
    leave := NeedHead(s, 3);
    if leave {
      EasyLoaded(s.st, s.Saved(), s.lens[..], s.table[..]);
      return;
    }
    TypeNext(s.st);
    TakeType(s);
  }

  lemma LastLight(s: State)
    requires s.mode == TYPE && s.last && Light(s)
    ensures s.bits < 8
  {
    hide Shr, Low;
  }

  lemma NeedIs(s: State)
    ensures s.mode == TYPE && !s.last ==> HeadNeed(s) == 3
    ensures s.mode == STORED && s.bits % 8 == 0 ==> HeadNeed(s) == 32
    ensures s.mode == TABLE ==> HeadNeed(s) == 14
    ensures s.mode == LENLENS && s.have < s.ncode && s.have < BL_CODES && |s.bl| == BL_CODES ==> HeadNeed(s) == 3
  {
  }

  lemma EasyLoaded(st: State, r: Registers, lens: seq<nat>, table: seq<Code>)
    requires st.mode == TYPE || st.mode == STORED || st.mode == TABLE || st.mode == CHECK || st.mode == DONE || st.mode == BAD
    ensures Loaded(st, r, lens, table)
  {
  }

  lemma TypeKinds(s: State)
    requires s.bits >= 3
    ensures var t, kind := AfterType(s), Low(Shr(s.hold, 1), 2);
      && t.hold == Shr(Shr(s.hold, 1), 2) && t.bits == s.bits - 3 && t.out == s.out && t.last == (Low(s.hold, 1) == 1)
      && kind <= 3
      && (kind == 0 ==> t.mode == STORED)
      && (kind == 1 ==> t.mode == LEN && t.ll == FixedLitLens() && t.dl == FixedInflateDists())
      && (kind == 2 ==> t.mode == TABLE)
      && (kind == 3 ==> t.mode == BAD)
  {
    TypeBitsOf(s.hold);
    hide Low, Shr;
  }

  lemma LenLoaded(st: State, r: Registers, lens: seq<nat>, table: seq<Code>)
    requires st.mode == LEN && TablesFor(table, r.lencode, r.lenbits, r.distcode, r.distbits, st.ll, st.dl)
    ensures Loaded(st, r, lens, table)
  {
    hide TablesFor;
  }

  lemma CopyLoaded(st: State, r: Registers, lens: seq<nat>, table: seq<Code>)
    requires st.mode == COPY && st.length == r.length
    ensures Loaded(st, r, lens, table)
  {
  }

  lemma TypeGood(s: State)
    requires Good(s) && s.bits >= 3
    ensures Good(AfterType(s))
  {
    GoodDrop(s, 3);
    hide Low, Shr;
  }

  // The three bits in front of a block.
  method TakeType(s: Inflate)
    requires Running(s) && Prepared(s.Held()) && s.mode == TYPE && 3 <= s.bits < 11 && Next(s.st) == Go(AfterType(s.st))
    modifies s`mode, s`last, s`hold, s`bits, s`st, s`lencode, s`lenbits, s`distcode, s`distbits
    ensures Ready(s) && s.bits == old(s.bits) - 3
  {
    hide *;
    RunningParts(s);
    ghost var t := AfterType(s.st);
    TypeKinds(s.st);
    TypeGood(s.st);
    TypeBitsOf(s.hold);
    FewLight(t);
    FixedServe(s, s.st.(ll := FixedLitLens(), dl := FixedInflateDists()));
    var kind := Low(Shr(s.hold, 1), 2);
    var mode := if kind == 0 then STORED else if kind == 1 then LEN else if kind == 2 then TABLE else BAD;
    Become(s, mode, Low(s.hold, 1) == 1, Shr(Shr(s.hold, 1), 2), s.bits - 3, t);
    if kind == 1 {
      s.lencode, s.lenbits, s.distcode, s.distbits := s.lenfix, 9, s.distfix, 5;
      SavedParts(s);
      LenLoaded(s.st, s.Saved(), s.lens[..], s.table[..]);
    } else {
      EasyLoaded(s.st, s.Saved(), s.lens[..], s.table[..]);
    }
    ReadyIs(s);
  }

  // ---- STORED and COPY ----

  // The state behind the two lengths of a stored block.
  ghost function AfterStored(s: State): State {
    var len, nlen := Low(s.hold, 16), Low(Shr(s.hold, 16), 16);
    if len + nlen != 65535 then s.(mode := BAD, bits := 0, hold := 0)
    else s.(mode := COPY, length := len, bits := 0, hold := 0)
  }

  lemma StoredNext(s: State)
    requires s.mode == STORED
    ensures s.bits % 8 != 0 ==> Next(s) == Go(Drop(s, s.bits % 8))
    ensures s.bits % 8 == 0 && s.bits >= 32 ==> Next(s) == Go(AfterStored(s))
  {
    hide Low, Shr;
  }

  lemma LowMax(x: nat, n: nat)
    ensures Low(x, n) < Pow2(n)
  {
    Compose(x, n);
  }

  method DoStored(s: Inflate) returns (leave: bool)
    requires Ready(s) && s.mode == STORED
    modifies s`mode, s`last, s`hold, s`bits, s`next, s`seen, s`st, s`length
    ensures Ready(s) && s.Moved(leave, old(s.Now()))
    ensures !leave && s.mode != BAD ==> s.bits < 8
  {
    hide Next, Call, Good, Low, Shr, Decodes, Accepted, TablesFor, Prepared, Light, Stuck, Loaded, AfterStored;
    StoredNext(s.st);
    KeepsLight(s.st);
    ByteBits(s);
    NeedIs(s.st);
    leave := NeedHead(s, 32);
    if leave {
      EasyLoaded(s.st, s.Saved(), s.lens[..], s.table[..]);
      return;
    }
    StoredNext(s.st);
    TakeStored(s);
  }

  // Dropping bits up to a byte boundary leaves too few.
  lemma KeepsLight(s: State)
    requires s.mode == STORED && Light(s)
    ensures Light(Drop(s, s.bits % 8))
  {
    hide Shr, Low;
  }

  lemma StoredParts(s: State)
    ensures var t, len, nlen := AfterStored(s), Low(s.hold, 16), Low(Shr(s.hold, 16), 16);
      && t.hold == 0 && t.bits == 0 && t.out == s.out && t.last == s.last && Good(t)
      && (if len + nlen != 65535 then t.mode == BAD else t.mode == COPY && t.length == len)
  {
    hide Low, Shr;
  }

  method TakeStored(s: Inflate)
    requires Running(s) && Prepared(s.Held()) && s.mode == STORED && s.bits >= 32 && Next(s.st) == Go(AfterStored(s.st))
    modifies s`mode, s`last, s`hold, s`bits, s`st, s`length
    ensures Ready(s) && s.bits == 0
  {
    hide *;
    RunningParts(s);
    ghost var t := AfterStored(s.st);
    StoredParts(s.st);
    FewLight(t);
    var len, nlen := Low(s.hold, 16), Low(Shr(s.hold, 16), 16);
    if len + nlen != 65535 {
      Become(s, BAD, s.last, 0, 0, t);
      EasyLoaded(s.st, s.Saved(), s.lens[..], s.table[..]);
    } else {
      s.length := len;
      Become(s, COPY, s.last, 0, 0, t);
      SavedParts(s);
      CopyLoaded(s.st, s.Saved(), s.lens[..], s.table[..]);
    }
    ReadyIs(s);
  }

  lemma CopyStep(s: State, input: seq<byte>, next: nat, room: nat)
    requires s.mode == COPY && s.length > 0 && next < |input| && room > 0
    ensures var t := s.(length := s.length - 1, out := s.out + [input[next]]);
      Call(Config(t, input[next + 1..], room - 1)) == Call(Config(s, input[next..], room))
  {
    var c := Config(s, input[next..], room);
    assert input[next..][1..] == input[next + 1..];
    assert Next(s).Copy?;
    assert Step(c) == Config(s.(length := s.length - 1, out := s.out + [input[next]]), input[next + 1..], room - 1);
    hide Next, Step;
    InflateBlocks.StepCall(c);
  }

  // Pass one byte of a stored block on.
  method CopyByte(s: Inflate)
    requires Running(s) && s.mode == COPY && s.st.length == s.length > 0 && s.next < |s.input| && s.left > 0
    modifies s`next, s`seen, s`put, s`left, s`length, s`st, s.dst
    ensures Running(s) && s.next == old(s.next) + 1 && s.left == old(s.left) - 1 && s.put == old(s.put) + 1
    ensures s.length == old(s.length) - 1 == s.st.length
    ensures s.st == old(s.st).(length := s.st.length, out := s.st.out)
  {
    hide Next, Call, Good;
    CopyStep(s.st, s.input, s.next, s.left);
    ghost var b := s.input[s.next];
    GoodBits(s.st, s.st.(length := s.length - 1, out := s.st.out + [b]));
    s.st := s.st.(length := s.length - 1, out := s.st.out + [b]);
    s.dst[s.put] := s.input[s.next];
    assert s.dst[s.start..s.put + 1] == old(s.dst[s.start..s.put]) + [b];
    assert s.hist + (old(s.dst[s.start..s.put]) + [b]) == old(s.st.out) + [b];
    s.next, s.seen, s.put, s.left, s.length := s.next + 1, s.seen + 1, s.put + 1, s.left - 1, s.length - 1;
  }

  lemma CopyStuck(c: Config)
    requires c.s.mode == COPY && c.s.length > 0 && (c.input == [] || c.room == 0)
    ensures Stuck(c)
  {
  }

  lemma CopyIsLoaded(s: Inflate)
    requires Ready(s) && s.mode == COPY
    ensures s.st.length == s.length
  {
    hide Light;
  }

  // COPY: as many bytes of a stored block as there are, and room for.
  method DoCopy(s: Inflate) returns (leave: bool)
    requires Ready(s) && s.mode == COPY
    modifies s`mode, s`last, s`hold, s`bits, s`st, s`next, s`seen, s`put, s`left, s`length, s.dst
    ensures Ready(s) && s.Moved(leave, old(s.Now()))
    ensures !leave && s.mode != BAD ==> s.bits < 8
  {
    hide Next, Call, Good, Prepared, Light, Loaded, Stuck;
    CopyIsLoaded(s);
    leave := false;
    CopyLight(s.st);
    var copy := s.length;
    if copy != 0 {
      if copy > |s.input| - s.next { copy := |s.input| - s.next; }
      if copy > s.left { copy := s.left; }
      if copy == 0 {
        CopyStuck(s.Now());
        return true;
      }
      var i := 0;
      while i < copy
        invariant 0 <= i <= copy && Running(s) && s.mode == COPY && s.st.length == s.length == old(s.length) - i
        invariant s.next == old(s.next) + i && s.left == old(s.left) - i && s.bits == old(s.bits)
        invariant s.st == old(s.st).(length := s.st.length, out := s.st.out)
      {
        CopyByte(s);
        i := i + 1;
      }
      FewLight(s.st);
      CopyLoaded(s.st, s.Saved(), s.lens[..], s.table[..]);
    } else {
      CopyEnds(s.st);
      GoodBits(s.st, s.st.(mode := TYPE));
      FewLight(s.st.(mode := TYPE));
      Become(s, TYPE, s.last, s.hold, s.bits, s.st.(mode := TYPE));
      EasyLoaded(s.st, s.Saved(), s.lens[..], s.table[..]);
    }
  }

  lemma CopyLight(s: State)
    requires s.mode == COPY && Light(s)
    ensures s.bits < 8
  {
  }

  lemma CopyEnds(s: State)
    requires s.mode == COPY && s.length == 0
    ensures Next(s) == Go(s.(mode := TYPE))
  {
  }

  // ---- TABLE ----

  ghost function AfterTable(s: State): State
    requires s.bits >= 14
  {
    var nlen, ndist, ncode := Low(s.hold, 5) + 257, Low(Shr(s.hold, 5), 5) + 1, Low(Shr(s.hold, 10), 4) + 4;
    var t := Drop(s, 14).(nlen := nlen, ndist := ndist, ncode := ncode);
    if nlen > 286 || ndist > 30 then t.(mode := BAD)
    else t.(mode := LENLENS, have := 0, bl := seq(BL_CODES, i => 0))
  }

  lemma TableNext(s: State)
    requires s.mode == TABLE && s.bits >= 14
    ensures Next(s) == Go(AfterTable(s))
  {
    hide Low, Shr;
  }

  lemma TableNumbers(s: State)
    requires s.bits >= 14
    ensures var t, nlen, ndist, ncode := AfterTable(s), Low(s.hold, 5) + 257, Low(Shr(s.hold, 5), 5) + 1, Low(Shr(s.hold, 10), 4) + 4;
      && t.hold == Shr(s.hold, 14) && t.bits == s.bits - 14 && t.out == s.out && t.last == s.last && ncode <= 19
      && t.nlen == nlen && t.ndist == ndist && t.ncode == ncode
      && (if nlen > 286 || ndist > 30 then t.mode == BAD else t.mode == LENLENS && t.have == 0 && t.bl == seq(BL_CODES, i => 0))
    ensures Shr(Shr(s.hold, 5), 5) == Shr(s.hold, 10) && Shr(Shr(s.hold, 10), 4) == Shr(s.hold, 14)
  {
    LowMax(Shr(s.hold, 10), 4);
    assert Pow2(4) == 16 by { Pow2Values(); }
    ShrShr(s.hold, 5, 5);
    ShrShr(s.hold, 10, 4);
    hide Low, Shr;
  }

  lemma LenLensStart(st: State, r: Registers, lens: seq<nat>, table: seq<Code>)
    requires st.mode == LENLENS && st.have == 0 == r.have && st.bl == seq(BL_CODES, i => 0) && |lens| == LENS_SIZE
    requires st.nlen == r.nlen && st.ndist == r.ndist && st.ncode == r.ncode <= BL_CODES
    requires 257 <= st.nlen <= L_CODES && 1 <= st.ndist <= D_CODES
    ensures Loaded(st, r, lens, table)
  {
  }

  method DoTable(s: Inflate) returns (leave: bool)
    requires Ready(s) && s.mode == TABLE
    modifies s`mode, s`last, s`hold, s`bits, s`next, s`seen, s`st, s`nlen, s`ndist, s`ncode, s`have
    ensures Ready(s) && s.Moved(leave, old(s.Now()))
    ensures !leave && s.mode != BAD ==> s.bits < 8
  {
    hide Next, Call, Good, Low, Shr, Prepared, Light, Stuck, Loaded;
    NeedIs(s.st);
    leave := NeedHead(s, 14);
    if leave {
      EasyLoaded(s.st, s.Saved(), s.lens[..], s.table[..]);
      return;
    }
    TakeTable(s);
  }

  method TakeTable(s: Inflate)
    requires Running(s) && Prepared(s.Held()) && s.mode == TABLE && 14 <= s.bits < 22
    modifies s`mode, s`last, s`hold, s`bits, s`st, s`nlen, s`ndist, s`ncode, s`have
    ensures Ready(s) && s.bits == old(s.bits) - 14
  {
    hide Next, Call, Good, Low, Shr, Light, Loaded, AfterTable, FixedTables;
    ghost var t := AfterTable(s.st);
    TableNext(s.st);
    TableNumbers(s.st);
    GoodDrop(s.st, 14);
    GoodBits(Drop(s.st, 14), t);
    FewLight(t);
    var hold := s.hold;
    s.nlen := Low(hold, 5) + 257;
    hold := Shr(hold, 5);
    s.ndist := Low(hold, 5) + 1;
    hold := Shr(hold, 5);
    s.ncode := Low(hold, 4) + 4;
    hold := Shr(hold, 4);
    if s.nlen > 286 || s.ndist > 30 {
      Become(s, BAD, s.last, hold, s.bits - 14, t);
      EasyLoaded(s.st, s.Saved(), s.lens[..], s.table[..]);
    } else {
      s.have := 0;
      Become(s, LENLENS, s.last, hold, s.bits - 14, t);
      LenLensStart(s.st, s.Saved(), s.lens[..], s.table[..]);
    }
  }

  // ---- LENLENS ----

  lemma OrderDistinct(i: nat, j: nat)
    requires i < j < BL_CODES
    ensures OrderAt(i) != OrderAt(j)
  {
  }

  // Where a length of an item code stands in the order of transmission.
  lemma OrderCovers(y: nat) returns (i: nat)
    requires y < BL_CODES
    ensures i < BL_CODES && OrderAt(i) == y
  {
    var places: seq<nat> := [3, 17, 15, 13, 11, 9, 7, 5, 4, 6, 8, 10, 12, 14, 16, 18, 0, 1, 2];
    i := places[y];
  }

  ghost function AfterLenLens(s: State): State
    requires s.bits >= 3 && s.have < BL_CODES && |s.bl| == BL_CODES
  {
    Drop(s, 3).(have := s.have + 1, bl := s.bl[OrderAt(s.have) := Low(s.hold, 3)])
  }

  lemma LenLensNext(s: State)
    requires s.mode == LENLENS && |s.bl| == BL_CODES
    ensures s.have < s.ncode && s.have < BL_CODES && s.bits >= 3 ==> Next(s) == Go(AfterLenLens(s))
    ensures s.have >= s.ncode || s.have >= BL_CODES ==>
      Next(s) == Go(Checked(s, CODES, s.bl, s.(mode := CODELENS, lens := [])))
  {
    hide Low, Shr, Checked, OrderAt;
  }

  // One more length.
  lemma LenLensMore(st: State, r: Registers, lens: seq<nat>, t: State, r2: Registers, lens2: seq<nat>)
    requires LenLensLoaded(st, r, lens) && st.have < st.ncode && st.bits >= 3 && t == AfterLenLens(st)
    requires r2 == r.(have := r.have + 1, hold := r2.hold, bits := r2.bits) && lens2 == lens[OrderAt(st.have) := Low(st.hold, 3)]
    ensures LenLensLoaded(t, r2, lens2)
  {
    LowMax(st.hold, 3);
    assert Pow2(3) == 8 by { Pow2Values(); }
    hide Low, Shr, OrderAt;
    forall i | 0 <= i < BL_CODES && i != st.have ensures OrderAt(i) != OrderAt(st.have) {
      if i < st.have { OrderDistinct(i, st.have); } else { OrderDistinct(st.have, i); }
    }
  }

  lemma LenLensIs(st: State, r: Registers, lens: seq<nat>, table: seq<Code>)
    requires st.mode == LENLENS
    ensures Loaded(st, r, lens, table) <==> LenLensLoaded(st, r, lens)
  {
  }

  lemma LenLensParts(st: State, r: Registers, lens: seq<nat>)
    requires LenLensLoaded(st, r, lens)
    ensures |lens| == LENS_SIZE && |st.bl| == BL_CODES && st.have == r.have <= st.ncode == r.ncode <= BL_CODES
  {
  }

  lemma LenLensSame(st: State, t: State, r: Registers, r2: Registers, lens: seq<nat>)
    requires LenLensLoaded(st, r, lens) && SameBut(st, t) && r2 == r.(hold := r2.hold, bits := r2.bits)
    ensures LenLensLoaded(t, r2, lens)
  {
  }

  // Read one length of an item code.
  method TakeLenLens(s: Inflate)
    requires Running(s) && s.mode == LENLENS && s.lens.Length == LENS_SIZE && s.lens != s.work
    requires LenLensLoaded(s.st, s.Saved(), s.lens[..]) && s.have < s.ncode && 3 <= s.bits < 11
    modifies s`mode, s`last, s`hold, s`bits, s`st, s`have, s.lens
    ensures Running(s) && s.mode == LENLENS && LenLensLoaded(s.st, s.Saved(), s.lens[..]) && s.bits == old(s.bits) - 3
    ensures s.have == old(s.have) + 1 && Good(s.st)
  {
    hide Next, Call, Good, Low, Shr, OrderAt, LenLensLoaded;
    ghost var st, r, lens := s.st, s.Saved(), s.lens[..];
    LenLensParts(st, r, lens);
    ghost var t := AfterLenLens(st);
    LenLensNext(st);
    GoodDrop(st, 3);
    GoodBits(Drop(st, 3), t);
    var at, v := OrderAt(s.have), Low(s.hold, 3);
    s.lens[at] := v;
    s.have := s.have + 1;
    Become(s, LENLENS, s.last, Shr(s.hold, 3), s.bits - 3, t);
    LenLensMore(st, r, lens, s.st, s.Saved(), s.lens[..]);
  }

  // The lengths of the item codes that have been read.
  ghost predicate Lengths(s: Inflate)
    reads s, s.lens, s.dst, s.window, s.window.window
  {
    && Running(s) && s.mode == LENLENS && s.lens.Length == LENS_SIZE && s.lens != s.work && Light(s.st)
    && LenLensLoaded(s.st, s.Saved(), s.lens[..])
  }

  lemma LengthsParts(s: Inflate)
    requires Lengths(s)
    ensures Running(s) && s.mode == LENLENS && s.have <= s.ncode <= BL_CODES && Light(s.st)
    ensures s.have == s.st.have && s.ncode == s.st.ncode && |s.st.bl| == BL_CODES
  {
    hide Good, Call, Light, OrderAt;
  }

  // Read the next length.
  method NextLength(s: Inflate) returns (leave: bool)
    requires Lengths(s) && s.have < s.ncode
    modifies s`mode, s`last, s`hold, s`bits, s`next, s`seen, s`st, s`have, s.lens
    ensures Lengths(s) && s.seen <= |s.input| && s.ncode == old(s.ncode)
    ensures if leave then s.have == old(s.have) && Stuck(s.Now()) else s.have == old(s.have) + 1
    ensures s.Now() == old(s.Now()) || Smaller(s.Now(), old(s.Now()))
    ensures s.Now() == old(s.Now()) ==> leave
  {
    hide Next, Call, Good, Low, Shr, Light, Stuck, OrderAt, LenLensLoaded;
    LenLensParts(s.st, s.Saved(), s.lens[..]);
    NeedIs(s.st);
    ghost var st, r := s.st, s.Saved();
    leave := NeedHead(s, 3);
    LenLensSame(st, s.st, r, s.Saved(), s.lens[..]);
    if leave { return; }
    TakeLenLens(s);
    FewLight(s.st);
  }

  method ReadLenLens(s: Inflate) returns (leave: bool)
    requires Lengths(s)
    modifies s`mode, s`last, s`hold, s`bits, s`next, s`seen, s`st, s`have, s.lens
    ensures Lengths(s) && s.seen <= |s.input|
    ensures s.Now() == old(s.Now()) || Smaller(s.Now(), old(s.Now()))
    ensures if leave then Stuck(s.Now()) else s.have == s.ncode && s.bits < 8
  {
    hide *;
    LengthsParts(s);
    RunningParts(s);
    ghost var before := s.Now();
    leave := false;
    while s.have < s.ncode && !leave
      invariant Lengths(s) && s.have <= s.ncode && s.seen <= |s.input| && (leave ==> Stuck(s.Now()))
      invariant s.Now() == before || Smaller(s.Now(), before)
      decreases if leave then 0 else 1, s.ncode - s.have
    {
      LengthsParts(s);
      ghost var middle := s.Now();
      leave := NextLength(s);
      NoLarger(s.Now(), middle, before);
      LengthsParts(s);
    }
    LengthsParts(s);
    RunningParts(s);
    if !leave { LenLensDone(s.st); }
  }

  lemma NoLarger(a: Config, b: Config, c: Config)
    requires (a == b || Smaller(a, b)) && (b == c || Smaller(b, c))
    ensures a == c || Smaller(a, c)
  {
  }

  lemma LenLensDone(s: State)
    requires s.mode == LENLENS && s.have >= s.ncode && Light(s)
    ensures s.bits < 8
  {
    hide Low, Shr, Checked;
  }

  // The lengths of the item codes that were not sent are zero.
  method ClearRest(lens: array<nat>, from: nat, ghost bl: seq<nat>)
    requires lens.Length == LENS_SIZE && |bl| == BL_CODES && from <= BL_CODES
    requires forall i :: 0 <= i < from ==> lens[OrderAt(i)] == bl[OrderAt(i)]
    requires forall i :: from <= i < BL_CODES ==> bl[OrderAt(i)] == 0
    modifies lens
    ensures lens[..BL_CODES] == bl
  {
    hide OrderAt;
    var have := from;
    while have < BL_CODES
      invariant from <= have <= BL_CODES
      invariant forall i :: 0 <= i < have ==> lens[OrderAt(i)] == bl[OrderAt(i)]
    {
      forall i | 0 <= i < have ensures OrderAt(i) != OrderAt(have) {
        OrderDistinct(i, have);
      }
      lens[OrderAt(have)] := 0;
      have := have + 1;
    }
    forall y | 0 <= y < BL_CODES ensures lens[y] == bl[y] {
      var i := OrderCovers(y);
    }
  }

  lemma ItemLengths(st: State, r: Registers, lens: seq<nat>)
    requires LenLensLoaded(st, r, lens) && st.have == st.ncode
    ensures LengthsInRange(st.bl) && (forall y :: 0 <= y < BL_CODES ==> st.bl[y] <= 7)
    ensures forall i :: 0 <= i < st.have ==> lens[OrderAt(i)] == st.bl[OrderAt(i)]
    ensures forall i :: st.have <= i < BL_CODES ==> st.bl[OrderAt(i)] == 0
    ensures 257 <= st.nlen == r.nlen <= L_CODES && 1 <= st.ndist == r.ndist <= D_CODES
  {
    hide OrderAt;
    forall y | 0 <= y < BL_CODES ensures st.bl[y] <= 7 {
      var i := OrderCovers(y);
    }
  }

  lemma CodesAccepted(bl: seq<nat>)
    requires LengthsInRange(bl) && !Refused(CODES, bl)
    ensures Accepted(bl)
  {
    if Kraft(bl) == 0 {
      forall s | 0 <= s < |bl| ensures bl[s] <= 1 {
        if bl[s] > 0 { SomeKraft(bl, s, |bl|); }
      }
    }
  }

  // The tables of the fixed codes lie before those that are built.
  lemma PreparedKept(m: Memory, before: seq<Code>, after: seq<Code>)
    requires m.codes <= |before| == |after| && before[..m.codes] == after[..m.codes] && FixedTables(before[..m.codes], m.lenfix, m.distfix)
    ensures FixedTables(after[..m.codes], m.lenfix, m.distfix)
  {
  }

  lemma CodeLensStart(st: State, r: Registers, lens: seq<nat>, table: seq<Code>)
    requires st.mode == CODELENS && st.lens == [] && r.have == 0 && |lens| == LENS_SIZE
    requires 257 <= st.nlen == r.nlen <= L_CODES && 1 <= st.ndist == r.ndist <= D_CODES
    requires ItemTable(table, r.lencode, r.lenbits, st.bl)
    ensures Loaded(st, r, lens, table)
  {
    hide ItemTable;
  }

  lemma ItemTableIs(table: seq<Code>, next: nat, lencode: nat, lenbits: nat, bl: seq<nat>)
    requires next <= |table| && Decodes(table[..next], lencode, lenbits, CODES, bl) && |bl| == BL_CODES
    requires LengthsInRange(bl) && !Refused(CODES, bl) && forall i :: 0 <= i < BL_CODES ==> bl[i] <= lenbits
    ensures ItemTable(table, lencode, lenbits, bl)
  {
    hide Decodes, Refused, Accepted;
    DecodesMore(table[..next], table, lencode, lenbits, CODES, bl);
    CodesAccepted(bl);
  }

  method DoLenLens(s: Inflate) returns (leave: bool)
    requires Ready(s) && s.mode == LENLENS
    modifies s`mode, s`last, s`hold, s`bits, s`next, s`seen, s`st, s`have, s`lencode, s`lenbits, s.lens, s.table, s.work
    ensures Ready(s) && s.Moved(leave, old(s.Now()))
    ensures !leave && s.mode != BAD ==> s.bits < 8
  {
    hide Next, Call, Good, Low, Shr, Light, Stuck, OrderAt, LenLensLoaded, FixedTables, Loaded;
    ghost var before := s.Now();
    LenLensIs(s.st, s.Saved(), s.lens[..], s.table[..]);
    leave := ReadLenLens(s);
    LenLensIs(s.st, s.Saved(), s.lens[..], s.table[..]);
    if leave { return; }
    LengthsParts(s);
    ghost var middle := s.Now();
    BuildItemTable(s);
    SmallerTrans(s.Now(), middle, before);
  }

  // Build the table of the item codes; ok says that their lengths are accepted.
  method MakeItemTable(s: Inflate) returns (ok: bool)
    requires Prepared(s.Held()) && LenLensLoaded(s.st, s.Saved(), s.lens[..]) && s.have == s.ncode
    modifies s`lencode, s`lenbits, s.lens, s.table, s.work
    ensures Prepared(s.Held()) && LengthsInRange(s.st.bl) && (ok <==> !Refused(CODES, s.st.bl))
    ensures ok ==> ItemTable(s.table[..], s.lencode, s.lenbits, s.st.bl)
  {
    hide OrderAt, LenLensLoaded, FixedTables, Refused, Decodes, LengthsInRange, ItemTable, Next, Good;
    ghost var st, before := s.st, s.table[..];
    LenLensParts(st, s.Saved(), s.lens[..]);
    ItemLengths(st, s.Saved(), s.lens[..]);
    ClearRest(s.lens, s.have, st.bl);
    assert Pow2(7) == 128 by { Pow2Values(); }
    var ret, next, root := InflateTable.InflateTable(CODES, s.lens[..BL_CODES], s.table, s.codes, 7, s.work);
    PreparedKept(s.Held(), before, s.table[..]);
    ok := ret == 0;
    s.lencode, s.lenbits := s.codes, root;
    if ok { ItemTableIs(s.table[..], next, s.codes, root, st.bl); }
  }

  lemma ItemCounts(st: State, r: Registers, lens: seq<nat>)
    requires LenLensLoaded(st, r, lens)
    ensures |lens| == LENS_SIZE && |st.bl| == BL_CODES && st.have == r.have <= st.ncode == r.ncode <= BL_CODES
    ensures 257 <= st.nlen == r.nlen <= L_CODES && 1 <= st.ndist == r.ndist <= D_CODES
  {
  }

  lemma ItemsChecked(s: State)
    requires s.mode == LENLENS && s.have >= s.ncode && |s.bl| == BL_CODES && LengthsInRange(s.bl)
    ensures Next(s) == Go(if Refused(CODES, s.bl) then s.(mode := BAD) else s.(mode := CODELENS, lens := []))
  {
    LenLensNext(s);
    hide Next, Refused, LengthsInRange;
  }

  // All lengths of the item codes are there.
  method BuildItemTable(s: Inflate)
    requires Running(s) && Prepared(s.Held()) && s.mode == LENLENS && LenLensLoaded(s.st, s.Saved(), s.lens[..])
    requires s.have == s.ncode && s.bits < 8
    modifies s`mode, s`last, s`hold, s`bits, s`st, s`have, s`lencode, s`lenbits, s.lens, s.table, s.work
    ensures Ready(s) && Smaller(s.Now(), old(s.Now())) && s.bits < 8
  {
    hide *;
    RunningParts(s);
    SavedParts(s);
    ghost var st, before := s.st, s.Now();
    ItemCounts(st, s.Saved(), s.lens[..]);
    assert s.lens.Length == LENS_SIZE;
    var ok := MakeItemTable(s);
    ItemsChecked(st);
    ghost var t := if ok then st.(mode := CODELENS, lens := []) else st.(mode := BAD);
    GoodBits(st, t);
    FewLight(t);
    Become(s, if ok then CODELENS else BAD, s.last, s.hold, s.bits, t);
    if ok {
      s.have := 0;
      SavedParts(s);
      CodeLensStart(s.st, s.Saved(), s.lens[..], s.table[..]);
    } else {
      EasyLoaded(s.st, s.Saved(), s.lens[..], s.table[..]);
    }
    SmallerState(s, before);
    ReadyIs(s);
  }

  // ---- CODELENS ----

  // There are code lengths still to be read.
  ghost predicate Reading(st: State) {
    st.mode == CODELENS && |st.lens| < st.nlen + st.ndist
  }

  lemma ItemPulls(s: State)
    requires Reading(s) && Decode(s.bl, s.hold, s.bits).More?
    ensures Next(s).Pull?
  {
    hide Decode;
  }

  // Few bits are held when an item has been found.
  lemma ItemLight(s: State)
    requires Reading(s) && Light(s)
    ensures match Decode(s.bl, s.hold, s.bits)
      case More => true
      case Invalid => s.bits < 8
      case Symbol(y) => s.bits < 8 || (y >= 16 && s.bits < s.bl[y] + 7)
  {
    hide Decode, Repeat;
  }

  // With a byte less, the item could not have been found.
  ghost predicate TightItem(s: State) {
    Light(s) || (s.bits >= 8 && Decode(s.bl, Low(s.hold, s.bits - 8), s.bits - 8).More?)
  }

  lemma TightItemUsed(s: State, here: Code)
    requires Good(s) && Reading(s) && Accepted(s.bl) && TightItem(s) && here.bits <= s.bits
    requires EntryOf(CODES, s.bl, Decode(s.bl, s.hold, s.bits), here, here.bits)
    ensures s.bits < here.bits + 8
  {
    hide Low, Accepted, EntryOf, Light;
    var d := Decode(s.bl, s.hold, s.bits);
    EntryUsed(CODES, s.bl, d, here, here.bits);
    hide Decode;
    LowSmall(s.hold, s.bits);
    if Light(s) {
      ItemLight(s);
    } else {
      DecodePrefix(s.bl, s.hold, s.bits, s.bits - 8);
    }
  }

  lemma TightItemPull(s: State, b: byte)
    requires Good(s) && Decode(s.bl, s.hold, s.bits).More?
    ensures TightItem(Pulled(s, b))
  {
    hide Low, Shl, Decode, Light;
    LowPlusShl(s.hold, b, s.bits);
    LowSmall(s.hold, s.bits);
  }

  // What the table says for the bits held.
  lemma ItemLookup(table: seq<Code>, lencode: nat, lenbits: nat, s: State)
    requires ItemTable(table, lencode, lenbits, s.bl)
    ensures lencode + Low(s.hold, lenbits) < |table|
    ensures var here := table[lencode + Low(s.hold, lenbits)];
      if here.bits > s.bits then Decode(s.bl, s.hold, s.bits).More?
      else EntryOf(CODES, s.bl, Decode(s.bl, s.hold, s.bits), here, here.bits)
  {
    hide Decode, Lookup, Low, EntryOf, Accepted;
    DecodesRange(table, lencode, lenbits, CODES, s.bl);
    LookupParts(table, lencode, lenbits, s.hold);
    NoLinks(table, lencode, lenbits, s.bl, s.hold);
    var here := table[lencode + Low(s.hold, lenbits)];
    LookupDecodes(table, lencode, lenbits, CODES, s.bl, s.hold, s.bits);
    if here.bits <= s.bits {
      EntryFound(table, lencode, lenbits, CODES, s.bl, s.hold, s.bits, here, here.bits);
    }
  }

  lemma NoLinks(table: seq<Code>, lencode: nat, lenbits: nat, bl: seq<nat>, hold: nat)
    requires ItemTable(table, lencode, lenbits, bl) && lencode + Low(hold, lenbits) < |table|
    ensures !IsLink(table[lencode + Low(hold, lenbits)])
  {
    hide Accepted, Lookup;
    LowMax(hold, lenbits);
  }

  // The entry that the accumulator leads to.
  method ItemHere(s: Inflate) returns (here: Code)
    requires ItemTable(s.table[..], s.lencode, s.lenbits, s.st.bl) && s.hold == s.st.hold && s.bits == s.st.bits
    ensures if here.bits > s.bits then Decode(s.st.bl, s.hold, s.bits).More?
            else EntryOf(CODES, s.st.bl, Decode(s.st.bl, s.hold, s.bits), here, here.bits)
  {
    hide Decode, EntryOf, Low, ItemTable;
    ItemLookup(s.table[..], s.lencode, s.lenbits, s.st);
    here := s.table[s.lencode + Low(s.hold, s.lenbits)];
  }

  // The decoding loop for an item.
  method FindItem(s: Inflate) returns (leave: bool, here: Code)
    requires Running(s) && Reading(s.st) && Light(s.st) && ItemTable(s.table[..], s.lencode, s.lenbits, s.st.bl)
    modifies s`hold, s`bits, s`next, s`seen, s`st
    ensures Running(s) && SameBut(old(s.st), s.st)
    ensures s.next > old(s.next) || (s.next == old(s.next) && s.st == old(s.st))
    ensures leave ==> Stuck(s.Now()) && Light(s.st)
    ensures !leave ==> here.bits <= s.bits < here.bits + 8
    ensures !leave ==> EntryOf(CODES, s.st.bl, Decode(s.st.bl, s.hold, s.bits), here, here.bits)
  {
    hide Next, Call, Good, Shl, Decode, Low, ItemTable, Light, Stuck, EntryOf, TightItem, Running;
    leave := false;
    RunningParts(s);
    LightIsTight(s.st);
    here := ItemHere(s);
    while here.bits > s.bits
      invariant Running(s) && SameBut(old(s.st), s.st) && TightItem(s.st)
      invariant s.next > old(s.next) || (s.next == old(s.next) && s.st == old(s.st))
      invariant if here.bits > s.bits then Decode(s.st.bl, s.hold, s.bits).More?
                else EntryOf(CODES, s.st.bl, Decode(s.st.bl, s.hold, s.bits), here, here.bits)
      decreases |s.input| - s.next
    {
      RunningParts(s);
      ItemPulls(s.st);
      if s.next == |s.input| {
        PullStuck(s.Now());
        PullLight(s.st);
        return true, here;
      }
      TightItemPull(s.st, s.input[s.next]);
      PullHead(s);
      RunningParts(s);
      here := ItemHere(s);
    }
    RunningParts(s);
    assert Accepted(s.st.bl) by { ItemAccepted(s.table[..], s.lencode, s.lenbits, s.st.bl); }
    TightItemUsed(s.st, here);
  }

  lemma LightIsTight(s: State)
    requires Light(s)
    ensures TightItem(s)
  {
    hide Light;
  }

  lemma ItemAccepted(table: seq<Code>, lencode: nat, lenbits: nat, bl: seq<nat>)
    requires ItemTable(table, lencode, lenbits, bl)
    ensures Accepted(bl) && |bl| == BL_CODES
  {
    hide Accepted, Decodes;
  }

  // The extra bits of a repeat, and the least number of repetitions.
  function RepeatBits(v: nat): nat {
    if v == REP_3_6 then 2 else if v == REPZ_3_10 then 3 else 7
  }

  function RepeatMin(v: nat): nat {
    if v == REPZ_11_138 then 11 else 3
  }

  // The state after a repeat.
  ghost function AfterRepeat(s: State, here: Code): State
    requires here.bits + RepeatBits(here.val) <= s.bits && (here.val == REP_3_6 ==> s.lens != [])
  {
    var t := Drop(s, here.bits + RepeatBits(here.val));
    var copy := RepeatMin(here.val) + Low(Shr(s.hold, here.bits), RepeatBits(here.val));
    if |s.lens| + copy > s.nlen + s.ndist then t.(mode := BAD)
    else t.(lens := s.lens + Repeat(if here.val == REP_3_6 then s.lens[|s.lens| - 1] else 0, copy))
  }

  lemma ItemEntry(s: State, here: Code)
    requires EntryOf(CODES, s.bl, Decode(s.bl, s.hold, s.bits), here, here.bits)
    ensures here.bits >= 1 && here.val <= 18
    ensures here.val >= 16 ==> Decode(s.bl, s.hold, s.bits) == Symbol(here.val) && here.val < |s.bl| && s.bl[here.val] == here.bits
    ensures here.val < 16 ==> match Decode(s.bl, s.hold, s.bits)
      case More => false
      case Invalid => here.bits == 1 && here.val == 0
      case Symbol(y) => y == here.val && y < |s.bl| && s.bl[y] == here.bits
  {
    hide Decode;
  }

  lemma ItemNext(s: State, here: Code)
    requires Reading(s) && here.bits <= s.bits && EntryOf(CODES, s.bl, Decode(s.bl, s.hold, s.bits), here, here.bits)
    ensures here.val < 16 ==> Next(s) == Go(Drop(s, here.bits).(lens := s.lens + [here.val]))
    ensures here.val >= 16 && s.bits < here.bits + RepeatBits(here.val) ==> Next(s).Pull?
    ensures here.val == 16 && s.bits >= here.bits + 2 && s.lens == [] ==> Next(s) == Go(Drop(s, here.bits).(mode := BAD))
    ensures here.val >= 16 && s.bits >= here.bits + RepeatBits(here.val) && (here.val == 16 ==> s.lens != []) ==>
      Next(s) == Go(AfterRepeat(s, here))
  {
    ItemEntry(s, here);
    hide Decode, Low, Shr, Repeat, EntryOf;
  }

  lemma ItemStays(s: State, b: byte, here: Code)
    requires Good(s) && Accepted(s.bl) && here.bits <= s.bits
    requires EntryOf(CODES, s.bl, Decode(s.bl, s.hold, s.bits), here, here.bits)
    ensures var t := Pulled(s, b); EntryOf(CODES, t.bl, Decode(t.bl, t.hold, t.bits), here, here.bits)
  {
    hide Low, Shl, Accepted, EntryOf, Decode;
    var d := Decode(s.bl, s.hold, s.bits);
    EntryUsed(CODES, s.bl, d, here, here.bits);
    LowPlusShl(s.hold, b, s.bits);
    LowSmall(s.hold, s.bits);
    var v := s.hold + Shl(b, s.bits);
    assert v < Pow2(s.bits + 8) by { PulledGood(s, b); }
    LowSmall(v, s.bits + 8);
    DecodePrefix(s.bl, v, s.bits, s.bits + 8);
  }

  lemma PulledGood(s: State, b: byte)
    requires Good(s)
    ensures s.hold + Shl(b, s.bits) < Pow2(s.bits + 8)
  {
    assert b < Pow2(8) by { Pow2Values(); }
    ShlMono(b, Pow2(8), s.bits);
    ShlPow2(8, s.bits);
  }

  // NEEDBITS() for a repeat: its code, already found, and its extra bits.
  method NeedRepeat(s: Inflate, here: Code) returns (leave: bool)
    requires Running(s) && Reading(s.st) && Accepted(s.st.bl) && here.val >= 16 && here.bits <= s.bits < here.bits + 8
    requires EntryOf(CODES, s.st.bl, Decode(s.st.bl, s.hold, s.bits), here, here.bits)
    modifies s`hold, s`bits, s`next, s`seen, s`st
    ensures Running(s) && SameBut(old(s.st), s.st)
    ensures s.next > old(s.next) || (s.next == old(s.next) && s.st == old(s.st))
    ensures leave ==> Stuck(s.Now()) && Light(s.st)
    ensures !leave ==> here.bits + RepeatBits(here.val) <= s.bits < here.bits + RepeatBits(here.val) + 8
    ensures !leave ==> EntryOf(CODES, s.st.bl, Decode(s.st.bl, s.hold, s.bits), here, here.bits)
  {
    hide Next, Call, Good, Shl, Decode, Light, Stuck, EntryOf, Accepted;
    leave := false;
    var n := here.bits + RepeatBits(here.val);
    while s.bits < n
      invariant Running(s) && SameBut(old(s.st), s.st) && here.bits <= s.bits < n + 8
      invariant s.next > old(s.next) || (s.next == old(s.next) && s.st == old(s.st))
      invariant EntryOf(CODES, s.st.bl, Decode(s.st.bl, s.hold, s.bits), here, here.bits)
      decreases |s.input| - s.next
    {
      ItemNext(s.st, here);
      if s.next == |s.input| {
        PullStuck(s.Now());
        PullLight(s.st);
        return true;
      }
      ItemStays(s.st, s.input[s.next], here);
      PullHead(s);
    }
  }

  // The code lengths read so far.
  ghost predicate Partly(s: Inflate)
    reads s, s.table, s.lens, s.dst, s.window, s.window.window
  {
    && Running(s) && s.mode == CODELENS && s.lens.Length == LENS_SIZE
    && CodeLensLoaded(s.st, s.Saved(), s.lens[..], s.table[..])
  }

  lemma PartlyParts(s: Inflate)
    requires Partly(s)
    ensures Running(s) && s.mode == CODELENS == s.st.mode && s.lens.Length == LENS_SIZE
    ensures 257 <= s.st.nlen == s.nlen <= L_CODES && 1 <= s.st.ndist == s.ndist <= D_CODES
    ensures |s.st.lens| == s.have <= s.nlen + s.ndist && s.st.lens == s.lens[..s.have]
    ensures (forall i :: 0 <= i < s.have ==> s.st.lens[i] <= 15) && ItemTable(s.table[..], s.lencode, s.lenbits, s.st.bl)
  {
    hide ItemTable, Good, Call, Next;
  }

  lemma PartlyIs(s: Inflate)
    requires Running(s) && s.mode == CODELENS && s.lens.Length == LENS_SIZE
    requires 257 <= s.st.nlen == s.nlen <= L_CODES && 1 <= s.st.ndist == s.ndist <= D_CODES
    requires |s.st.lens| == s.have <= s.nlen + s.ndist && s.st.lens == s.lens[..s.have]
    requires (forall i :: 0 <= i < s.have ==> s.st.lens[i] <= 15) && ItemTable(s.table[..], s.lencode, s.lenbits, s.st.bl)
    ensures Partly(s)
  {
    hide ItemTable, Good, Call, Next;
  }

  // Put count lengths v behind those read.
  method PutLens(lens: array<nat>, have: nat, v: nat, count: nat) returns (more: nat)
    requires have + count <= lens.Length
    modifies lens
    ensures more == have + count && lens[..more] == old(lens[..have]) + Repeat(v, count)
  {
    var copy: nat := count;
    more := have;
    while copy != 0
      invariant copy <= count && more == have + (count - copy)
      invariant lens[..more] == old(lens[..have]) + Repeat(v, count - copy)
      decreases copy
    {
      copy := copy - 1;
      ghost var before := lens[..more];
      lens[more] := v;
      more := more + 1;
      assert lens[..more] == before + [v];
      RepeatMore(old(lens[..have]), v, count - copy - 1);
    }
  }

  lemma RepeatMore(s: seq<nat>, v: nat, n: nat)
    ensures s + Repeat(v, n) + [v] == s + Repeat(v, n + 1)
  {
  }

  // An item that is a code length.
  method TakeLength(s: Inflate, here: Code)
    requires Partly(s) && Reading(s.st) && here.val < 16 && here.bits <= s.bits
    requires EntryOf(CODES, s.st.bl, Decode(s.st.bl, s.hold, s.bits), here, here.bits)
    modifies s`mode, s`last, s`hold, s`bits, s`st, s`have, s.lens
    ensures Partly(s) && s.bits == old(s.bits) - here.bits < old(s.bits)
  {
    hide Next, Call, Good, Shr, Decode, EntryOf, ItemTable, Partly;
    PartlyParts(s);
    ItemEntry(s.st, here);
    ItemNext(s.st, here);
    ghost var st, lens := s.st, s.lens[..s.have];
    ghost var t := Drop(st, here.bits).(lens := st.lens + [here.val]);
    GoodDrop(st, here.bits);
    GoodBits(Drop(st, here.bits), t);
    s.lens[s.have] := here.val;
    s.have := s.have + 1;
    Become(s, CODELENS, s.last, Shr(s.hold, here.bits), s.bits - here.bits, t);
    assert s.lens[..s.have] == lens + [here.val];
    PartlyIs(s);
  }

  // What a repeat does to the state, part by part.
  lemma RepeatParts(s: State, here: Code)
    requires here.bits + RepeatBits(here.val) <= s.bits && (here.val == REP_3_6 ==> s.lens != [])
    ensures var t, n := AfterRepeat(s, here), RepeatBits(here.val);
      var copy := RepeatMin(here.val) + Low(Shr(s.hold, here.bits), n);
      && t.hold == Shr(Shr(s.hold, here.bits), n) && t.bits == s.bits - here.bits - n && t.out == s.out && t.last == s.last
      && (|s.lens| + copy > s.nlen + s.ndist ==> t.mode == BAD)
      && (|s.lens| + copy <= s.nlen + s.ndist ==>
           t == Drop(s, here.bits + n).(lens := s.lens + Repeat(if here.val == REP_3_6 then s.lens[|s.lens| - 1] else 0, copy)))
  {
    ShrShr(s.hold, here.bits, RepeatBits(here.val));
    hide Low, Shr, Repeat;
  }

  // A repeat of the previous length where there is none.
  method RefuseRepeat(s: Inflate, here: Code)
    requires Running(s) && Reading(s.st) && here.val == REP_3_6 && here.bits + 2 <= s.bits && s.st.lens == []
    requires EntryOf(CODES, s.st.bl, Decode(s.st.bl, s.hold, s.bits), here, here.bits)
    modifies s`mode, s`last, s`hold, s`bits, s`st
    ensures Running(s) && s.bits < old(s.bits) && s.mode == BAD
  {
    hide Next, Call, Good, Shr, Decode, EntryOf;
    ItemEntry(s.st, here);
    ItemNext(s.st, here);
    ghost var t := Drop(s.st, here.bits).(mode := BAD);
    GoodDrop(s.st, here.bits);
    GoodBits(Drop(s.st, here.bits), t);
    Become(s, BAD, s.last, Shr(s.hold, here.bits), s.bits - here.bits, t);
  }

  // A repeat that would give too many code lengths.
  method RefuseMany(s: Inflate, hold: nat, bits: nat, ghost t: State)
    requires Running(s) && Next(s.st) == Go(t) && Good(t) && t.mode == BAD && t.out == s.st.out && t.last == s.st.last
    requires t.hold == hold && t.bits == bits < s.bits
    modifies s`mode, s`last, s`hold, s`bits, s`st
    ensures Running(s) && s.mode == BAD && s.bits == bits
  {
    hide *;
    RunningParts(s);
    Become(s, BAD, s.last, hold, bits, t);
  }

  // An item that is a repeat.
  method TakeRepeat(s: Inflate, here: Code)
    requires Partly(s) && Reading(s.st) && here.val >= 16 && here.bits + RepeatBits(here.val) <= s.bits
    requires here.val == REP_3_6 ==> s.have > 0
    requires EntryOf(CODES, s.st.bl, Decode(s.st.bl, s.hold, s.bits), here, here.bits)
    modifies s`mode, s`last, s`hold, s`bits, s`st, s`have, s.lens
    ensures Running(s) && s.bits < old(s.bits) && (s.mode == CODELENS || s.mode == BAD)
    ensures s.mode == CODELENS ==> Partly(s) && s.bits == old(s.bits) - here.bits - RepeatBits(here.val)
  {
    hide Next, Call, Good, Shr, Low, Decode, EntryOf, ItemTable, Partly, AfterRepeat, Running, RepeatBits, RepeatMin,
      Repeat;
    PartlyParts(s);
    RunningParts(s);
    ItemEntry(s.st, here);
    ItemNext(s.st, here);
    var n := RepeatBits(here.val);
    RepeatParts(s.st, here);
    ghost var t := AfterRepeat(s.st, here);
    GoodDrop(s.st, here.bits + n);
    ShrShr(s.hold, here.bits, n);
    GoodBits(Drop(s.st, here.bits + n), t);
    var copy := RepeatMin(here.val) + Low(Shr(s.hold, here.bits), n);
    if s.have + copy > s.nlen + s.ndist {
      RefuseMany(s, Shr(Shr(s.hold, here.bits), n), s.bits - here.bits - n, t);
    } else {
      PutRepeat(s, if here.val == REP_3_6 then s.lens[s.have - 1] else 0, copy,
        Shr(Shr(s.hold, here.bits), n), s.bits - here.bits - n, t);
    }
  }

  // Put count lengths v in place, and go on behind the repeat.
  method PutRepeat(s: Inflate, v: nat, count: nat, hold: nat, bits: nat, ghost t: State)
    requires Partly(s) && s.have + count <= s.nlen + s.ndist && v <= 15
    requires Next(s.st) == Go(t) && Good(t) && t.hold == hold && t.bits == bits < s.bits
    requires t == s.st.(hold := hold, bits := bits, lens := s.st.lens + Repeat(v, count))
    modifies s`mode, s`last, s`hold, s`bits, s`st, s`have, s.lens
    ensures Partly(s) && s.mode == CODELENS && s.bits == bits && Running(s)
  {
    hide Next, Call, Good, ItemTable, Partly, Running, Repeat;
    PartlyParts(s);
    RunningParts(s);
    ghost var m := s.have;
    s.have := PutLens(s.lens, s.have, v, count);
    Become(s, CODELENS, s.last, hold, bits, t);
    RunningParts(s);
    assert s.st.lens[m..] == Repeat(v, count);
    RepeatSmall(s.st.lens, v, count, m);
    PartlyIs(s);
  }

  lemma RepeatSmall(lens: seq<nat>, v: nat, n: nat, m: nat)
    requires |lens| == m + n && lens[m..] == Repeat(v, n) && v <= 15 && forall i :: 0 <= i < m ==> lens[i] <= 15
    ensures forall i :: 0 <= i < |lens| ==> lens[i] <= 15
  {
    forall i | m <= i < |lens| ensures lens[i] <= 15 {
      assert lens[i] == lens[m..][i - m];
    }
  }

  method TakeItem(s: Inflate, here: Code)
    requires Partly(s) && Reading(s.st) && here.bits <= s.bits < here.bits + 8 + (if here.val < 16 then 0 else RepeatBits(here.val))
    requires EntryOf(CODES, s.st.bl, Decode(s.st.bl, s.hold, s.bits), here, here.bits)
    requires here.val >= 16 ==> here.bits + RepeatBits(here.val) <= s.bits
    modifies s`mode, s`last, s`hold, s`bits, s`st, s`have, s.lens
    ensures Running(s) && s.bits < old(s.bits) && (s.mode == CODELENS || s.mode == BAD)
    ensures s.mode == CODELENS ==> Partly(s) && s.bits < 8
  {
    hide Next, Call, Good, Decode, EntryOf, Partly;
    PartlyParts(s);
    if here.val < 16 {
      TakeLength(s, here);
      PartlyParts(s);
    } else if here.val == REP_3_6 && s.have == 0 {
      RefuseRepeat(s, here);
    } else {
      TakeRepeat(s, here);
    }
  }

  // Find an item, with the extra bits of a repeat.
  method NeedItem(s: Inflate) returns (leave: bool, here: Code)
    requires Partly(s) && Reading(s.st) && Light(s.st)
    modifies s`hold, s`bits, s`next, s`seen, s`st
    ensures Partly(s) && Reading(s.st) && (leave ==> Stuck(s.Now()) && Light(s.st))
    ensures s.next > old(s.next) || (s.next == old(s.next) && s.st == old(s.st))
    ensures !leave ==> here.bits <= s.bits < here.bits + 8 + (if here.val < 16 then 0 else RepeatBits(here.val))
    ensures !leave && here.val >= 16 ==> here.bits + RepeatBits(here.val) <= s.bits
    ensures !leave ==> EntryOf(CODES, s.st.bl, Decode(s.st.bl, s.hold, s.bits), here, here.bits)
  {
    hide Next, Call, Good, Decode, EntryOf, Partly, Light, Stuck, ItemTable, Accepted;
    PartlyParts(s);
    leave, here := FindItem(s);
    if !leave && here.val >= 16 {
      ItemAccepted(s.table[..], s.lencode, s.lenbits, s.st.bl);
      leave := NeedRepeat(s, here);
    }
    PartlyIs(s);
  }

  // Read one item, and do what it says.
  method OneItem(s: Inflate) returns (leave: bool)
    requires Partly(s) && Light(s.st) && s.have < s.nlen + s.ndist
    modifies s`mode, s`last, s`hold, s`bits, s`next, s`seen, s`st, s`have, s.lens
    ensures Running(s) && s.seen <= |s.input| && (leave ==> Stuck(s.Now()) && s.mode != BAD)
    ensures s.mode != BAD ==> Partly(s) && Light(s.st) && s.have <= s.nlen + s.ndist
    ensures s.Now() == old(s.Now()) || Smaller(s.Now(), old(s.Now()))
    ensures !leave ==> Smaller(s.Now(), old(s.Now()))
    ensures !leave ==> s.seen > old(s.seen) || (s.seen == old(s.seen) && s.bits < old(s.bits))
  {
    hide Next, Call, Good, Decode, EntryOf, Partly, Light, Stuck, RepeatBits;
    PartlyParts(s);
    var here;
    leave, here := NeedItem(s);
    PartlyParts(s);
    if leave { return; }
    TakeItem(s, here);
    if s.mode != BAD {
      FewLight(s.st);
      PartlyParts(s);
    }
  }

  // The loop over the items.
  method ReadCodeLens(s: Inflate) returns (leave: bool)
    requires Partly(s) && Light(s.st)
    modifies s`mode, s`last, s`hold, s`bits, s`next, s`seen, s`st, s`have, s.lens
    ensures Running(s) && (s.Now() == old(s.Now()) || Smaller(s.Now(), old(s.Now())))
    ensures if leave then Partly(s) && s.seen <= |s.input| && Stuck(s.Now()) && Light(s.st)
            else s.mode == BAD || (Partly(s) && s.bits < 8 && s.have == s.nlen + s.ndist)
    ensures s.mode == BAD ==> Smaller(s.Now(), old(s.Now()))
  {
    hide *;
    PartlyParts(s);
    RunningParts(s);
    ghost var before := s.Now();
    leave := false;
    while s.have < s.nlen + s.ndist && !leave && s.mode != BAD
      invariant Running(s) && s.seen <= |s.input|
      invariant s.mode != BAD ==> Partly(s) && Light(s.st) && s.have <= s.nlen + s.ndist
      invariant s.Now() == before || Smaller(s.Now(), before)
      invariant if leave then s.mode != BAD && Stuck(s.Now()) else s.mode == BAD ==> Smaller(s.Now(), before)
      decreases if leave then 0 else 1, |s.input| - s.seen, s.bits
    {
      ghost var middle := s.Now();
      leave := OneItem(s);
      NoLarger(s.Now(), middle, before);
      if !leave { SmallerTrans(s.Now(), middle, before); }
    }
    if s.mode != BAD {
      PartlyParts(s);
      RunningParts(s);
      if !leave { AllReadLight(s.st); }
    }
  }

  lemma AllReadLight(s: State)
    requires s.mode == CODELENS && |s.lens| == s.nlen + s.ndist && Light(s)
    ensures s.bits < 8
  {
    hide Low, Shr, Checked;
  }

  // The state behind the code lengths.
  ghost function AfterCodeLens(s: State): State
    requires s.nlen <= |s.lens|
  {
    var ll, dl := s.lens[..s.nlen], s.lens[s.nlen..];
    if |ll| <= END_BLOCK || ll[END_BLOCK] == 0 then s.(mode := BAD)
    else Checked(s, LENS, ll, Checked(s, DISTS, dl, s.(mode := LEN, ll := ll, dl := dl)))
  }

  lemma CodeLensNext(s: State)
    requires s.mode == CODELENS && |s.lens| == s.nlen + s.ndist
    ensures Next(s) == Go(AfterCodeLens(s))
  {
    hide Checked, Decode;
  }

  // What is left to check once all code lengths are in range.
  lemma CodeLensKinds(s: State)
    requires s.mode == CODELENS && |s.lens| == s.nlen + s.ndist && s.nlen >= 257
    requires LengthsInRange(s.lens[..s.nlen]) && LengthsInRange(s.lens[s.nlen..])
    ensures var ll, dl, t := s.lens[..s.nlen], s.lens[s.nlen..], AfterCodeLens(s);
      if ll[END_BLOCK] == 0 || Refused(LENS, ll) || Refused(DISTS, dl) then t == s.(mode := BAD)
      else t == s.(mode := LEN, ll := ll, dl := dl)
  {
    hide Refused, LengthsInRange;
  }

  // Build both tables of a block; ok says that its code lengths are accepted.
  method MakeTables(s: Inflate, ghost ll: seq<nat>, ghost dl: seq<nat>) returns (ok: bool)
    requires Prepared(s.Held()) && 257 <= s.nlen <= L_CODES && 1 <= s.ndist <= D_CODES
    requires ll == s.lens[..s.nlen] && dl == s.lens[s.nlen..s.nlen + s.ndist] && LengthsInRange(ll) && LengthsInRange(dl)
    modifies s`lencode, s`lenbits, s`distcode, s`distbits, s.table, s.work
    ensures Prepared(s.Held()) && (ok <==> !Refused(LENS, ll) && !Refused(DISTS, dl))
    ensures ok ==> TablesFor(s.table[..], s.lencode, s.lenbits, s.distcode, s.distbits, ll, dl)
  {
    hide FixedTables, Refused, Decodes, TablesFor;
    ghost var before := s.table[..];
    var ret, next, bits;
    ret, next, bits := InflateTable.InflateTable(LENS, s.lens[..s.nlen], s.table, s.codes, 9, s.work);
    PreparedKept(s.Held(), before, s.table[..]);
    if ret != 0 { return false; }
    s.lencode, s.lenbits, s.distcode := s.codes, bits, next;
    ghost var middle := s.table[..];
    ret, next, bits := InflateTable.InflateTable(DISTS, s.lens[s.nlen..s.nlen + s.ndist], s.table, s.distcode, 6, s.work);
    PreparedKept(s.Held(), middle, s.table[..]);
    ok := ret == 0;
    s.distbits := bits;
    if ok {
      assert middle[..s.distcode] == s.table[..][..s.distcode];
      TablesBuilt(middle, s.table[..], s.lencode, s.lenbits, s.distcode, s.distbits, next, ll, dl);
    }
  }

  lemma TablesBuilt(before: seq<Code>, table: seq<Code>, lencode: nat, lenbits: nat, distcode: nat, distbits: nat, next: nat,
                    ll: seq<nat>, dl: seq<nat>)
    requires distcode <= |before| == |table| && before[..distcode] == table[..distcode] && next <= |table|
    requires Decodes(before[..distcode], lencode, lenbits, LENS, ll) && Decodes(table[..next], distcode, distbits, DISTS, dl)
    requires LengthsInRange(ll) && !Refused(LENS, ll) && LengthsInRange(dl) && !Refused(DISTS, dl)
    ensures TablesFor(table, lencode, lenbits, distcode, distbits, ll, dl)
  {
    hide Decodes, Refused, Accepted;
    DecodesMore(table[..distcode], table, lencode, lenbits, LENS, ll);
    DecodesMore(table[..next], table, distcode, distbits, DISTS, dl);
    NotRefusedAccepted(LENS, ll);
    NotRefusedAccepted(DISTS, dl);
  }

  // No code for the end of the block.
  method RefuseNoEnd(s: Inflate)
    requires Running(s) && Prepared(s.Held()) && s.mode == CODELENS && s.bits < 8
    requires Next(s.st) == Go(s.st.(mode := BAD))
    modifies s`mode, s`last, s`hold, s`bits, s`st
    ensures Ready(s) && Smaller(s.Now(), old(s.Now())) && s.bits < 8
  {
    hide Next, Call, Good, Light, Prepared, Loaded;
    ghost var t := s.st.(mode := BAD);
    GoodBits(s.st, t);
    FewLight(t);
    Become(s, BAD, s.last, s.hold, s.bits, t);
    EasyLoaded(s.st, s.Saved(), s.lens[..], s.table[..]);
  }

  // The end-of-block code is there: build the tables.
  method FinishCodeLens(s: Inflate, ghost ll: seq<nat>, ghost dl: seq<nat>)
    requires Running(s) && Prepared(s.Held()) && s.mode == CODELENS && s.bits < 8
    requires 257 <= s.nlen <= L_CODES && 1 <= s.ndist <= D_CODES
    requires ll == s.lens[..s.nlen] && dl == s.lens[s.nlen..s.nlen + s.ndist] && LengthsInRange(ll) && LengthsInRange(dl)
    requires Next(s.st) == Go(if Refused(LENS, ll) || Refused(DISTS, dl) then s.st.(mode := BAD) else s.st.(mode := LEN, ll := ll, dl := dl))
    modifies s`mode, s`last, s`hold, s`bits, s`st, s`lencode, s`lenbits, s`distcode, s`distbits, s.table, s.work
    ensures Ready(s) && Smaller(s.Now(), old(s.Now())) && s.bits < 8
  {
    hide *;
    RunningParts(s);
    ghost var st, before := s.st, s.Now();
    var ok := MakeTables(s, ll, dl);
    ghost var t := if ok then st.(mode := LEN, ll := ll, dl := dl) else st.(mode := BAD);
    GoodBits(st, t);
    FewLight(t);
    Become(s, if ok then LEN else BAD, s.last, s.hold, s.bits, t);
    if ok {
      SavedParts(s);
      LenLoaded(s.st, s.Saved(), s.lens[..], s.table[..]);
    } else {
      EasyLoaded(s.st, s.Saved(), s.lens[..], s.table[..]);
    }
    SmallerState(s, before);
    ReadyIs(s);
  }

  // All code lengths are there.
  method BuildBlockTables(s: Inflate)
    requires Partly(s) && Running(s) && Prepared(s.Held()) && s.have == s.nlen + s.ndist && s.bits < 8
    modifies s`mode, s`last, s`hold, s`bits, s`st, s`lencode, s`lenbits, s`distcode, s`distbits, s.table, s.work
    ensures Ready(s) && Smaller(s.Now(), old(s.Now())) && s.bits < 8
  {
    hide Next, Call, Good, Light, Partly, Prepared, Loaded, Refused, ItemTable, AfterCodeLens;
    PartlyParts(s);
    ghost var st := s.st;
    ghost var ll, dl := s.lens[..s.nlen], s.lens[s.nlen..s.nlen + s.ndist];
    assert st.lens[..s.nlen] == ll && st.lens[s.nlen..] == dl;
    LensBelow(s.lens[..], st.lens);
    CodeLensNext(st);
    CodeLensKinds(st);
    // a block whose end has no code is refused
    if s.lens[END_BLOCK] == 0 {
      RefuseNoEnd(s);
    } else {
      FinishCodeLens(s, ll, dl);
    }
  }

  lemma LensBelow(lens: seq<nat>, read: seq<nat>)
    requires |read| <= |lens| && read == lens[..|read|] && forall i :: 0 <= i < |read| ==> read[i] <= 15
    ensures forall i :: 0 <= i < |read| ==> lens[i] <= 15
  {
    forall i | 0 <= i < |read| ensures lens[i] <= 15 {
      assert lens[i] == read[i];
    }
  }

  lemma CodeLensIs(s: Inflate)
    requires Running(s) && s.mode == CODELENS && Prepared(s.Held())
    ensures Partly(s) <==> Loaded(s.st, s.Saved(), s.lens[..], s.table[..])
  {
    hide CodeLensLoaded, FixedTables, Good, Call;
  }

  method DoCodeLens(s: Inflate) returns (leave: bool)
    requires Ready(s) && s.mode == CODELENS
    modifies s`mode, s`last, s`hold, s`bits, s`next, s`seen, s`st, s`have, s`lencode, s`lenbits, s`distcode, s`distbits,
      s.lens, s.table, s.work
    ensures Ready(s) && s.Moved(leave, old(s.Now()))
    ensures !leave && s.mode != BAD ==> s.bits < 8
  {
    hide Next, Call, Good, Light, Stuck, Partly, Loaded, FixedTables;
    ghost var before := s.Now();
    CodeLensIs(s);
    leave := ReadCodeLens(s);
    if leave {
      PartlyParts(s);
      CodeLensIs(s);
    } else if s.mode == BAD {
      EasyLoaded(s.st, s.Saved(), s.lens[..], s.table[..]);
    } else {
      ghost var middle := s.Now();
      BuildBlockTables(s);
      SmallerTrans(s.Now(), middle, before);
    }
  }

  // CHECK: there is nothing to check in a raw stream.
  method DoCheck(s: Inflate)
    requires Ready(s) && s.mode == CHECK
    modifies s`mode, s`last, s`hold, s`bits, s`st
    ensures Ready(s) && Smaller(s.Now(), old(s.Now())) && s.bits < 8
  {
    hide Call, Good, Light, Loaded, Prepared;
    CheckLight(s.st);
    ghost var t := s.st.(mode := DONE);
    GoodBits(s.st, t);
    FewLight(t);
    Become(s, DONE, s.last, s.hold, s.bits, t);
    EasyLoaded(s.st, s.Saved(), s.lens[..], s.table[..]);
  }

  lemma CheckLight(s: State)
    requires (s.mode == CHECK || s.mode == DONE) && Light(s)
    ensures s.bits < 8
  {
  }
}
