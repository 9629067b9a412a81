// inflate.c: the states of inflate() that decode the data of a block, LEN to
// LIT, on their real data: bit accumulator, decoding tables, circular window
// and output buffer. Every method moves them, and with them the machine of
// InflateMachine, so that the machine's final result stays the same.
module Inflate {
  import opened Bits
  import CanonicalCode
  import opened BitWriter
  import opened InflateTable
  import opened InflateMachine
  import opened InflateStream
  import opened InflateBlocks
  import opened InflateAhead
  import opened Window

  // ---- What a table lookup tells about the code ----

  lemma LookupDecodes(table: seq<Code>, start: nat, root: nat, kind: CodeType, lens: seq<nat>, hold: nat, bits: nat)
    requires Decodes(table, start, root, kind, lens)
    ensures var (e, used) := Lookup(table, start, root, hold); var d := Decode(lens, hold, bits);
      && (used > bits <==> d.More?)
      && (d.Symbol? ==> used == lens[d.s] && e == EntryFor(kind, d.s, e.bits))
      && (d.Invalid? ==> used == 1 && e == INVALID)
  {
    hide CanonicalCode.Matches, Lookup, EntryFor;
  }

  predicate LinkedLookup(table: seq<Code>, start: nat, root: nat, hold: nat, here: Code)
    requires InRange(table, start, root)
  {
    && here.bits == root && start + here.val + Low(Shr(hold, here.bits), here.op) < |table|
    && var f := table[start + here.val + Low(Shr(hold, here.bits), here.op)];
       Lookup(table, start, root, hold) == (f, here.bits + f.bits)
  }

  // The parts of a lookup: the root entry, and the entry that it links to.
  lemma LookupParts(table: seq<Code>, start: nat, root: nat, hold: nat)
    requires InRange(table, start, root)
    ensures start + Low(hold, root) < |table|
    ensures var here := table[start + Low(hold, root)];
      && (!IsLink(here) ==> Lookup(table, start, root, hold) == (here, here.bits))
      && (IsLink(here) ==> LinkedLookup(table, start, root, hold, here))
  {
    hide Low, Shr, Pow2;
    RootIndex(hold, root);
    var here := table[start + Low(hold, root)];
    RootIndex(Shr(hold, here.bits), here.op);
  }

  // Another byte in the accumulator leaves the root index as it was, once that
  // is complete.
  lemma RootStays(hold: nat, bits: nat, b: nat, root: nat)
    requires root <= bits
    ensures Low(hold + Shl(b, bits), root) == Low(hold, root)
  {
    LowPlusShl(hold, b, bits);
    LowLow(hold + Shl(b, bits), root, bits);
    LowLow(hold, root, bits);
  }

  // ---- Measuring progress ----

  ghost predicate Smaller(a: Config, b: Config) {
    || |a.input| < |b.input|
    || (|a.input| == |b.input| && (a.room < b.room || (a.room == b.room && (a.s.bits < b.s.bits
        || (a.s.bits == b.s.bits && Rank(a.s.mode) < Rank(b.s.mode))))))
  }

  lemma PullCall(s: State, input: seq<byte>, next: nat, room: nat)
    requires next < |input| && Next(s).Pull? && Good(s)
    ensures Call(Config(Pulled(s, input[next]), input[next + 1..], room)) == Call(Config(s, input[next..], room))
    ensures Good(Pulled(s, input[next]))
  {
    var c := Config(s, input[next..], room);
    PullKeeps(c);
    assert input[next..][1..] == input[next + 1..];
    assert Step(c) == Config(Pulled(s, input[next]), input[next + 1..], room);
    hide Next, Step, Good;
    StepCall(c);
  }

  lemma GoCall(s: State, input: seq<byte>, room: nat)
    requires Next(s).Go?
    ensures Call(Config(Next(s).to, input, room)) == Call(Config(s, input, room))
  {
    hide Next;
    GoStep(Config(s, input, room));
  }

  lemma GoodDrop(s: State, n: nat)
    requires Good(s) && n <= s.bits
    ensures Good(Drop(s, n))
  {
    ShrBound(s.hold, n, s.bits - n);
  }

  predicate InBlock(m: Mode) {
    m == LEN || m == LENEXT || m == DIST || m == DISTEXT || m == MATCH || m == LIT
  }

  // The machine's numbers while it decodes a block.
  ghost predicate ModeOk(s: State) {
    && (InBlock(s.mode) || s.mode == TYPE || s.mode == BAD)
    && (s.mode == LENEXT ==> s.length >= 3 && s.extra <= 5 && s.length + Pow2(s.extra) <= 259)
    && (s.mode == DIST || s.mode == DISTEXT ==> 3 <= s.length <= 258)
    && (s.mode == MATCH ==> 1 <= s.length <= 258)
    && (s.mode == LIT ==> s.length < 256)
    && (s.mode == DISTEXT ==> s.offset >= 1 && s.extra <= 13 && s.offset + Pow2(s.extra) <= 32769)
    && (s.mode == MATCH ==> 1 <= s.offset <= 32768)
  }

  // What is kept from one call to the next: the fields of the state.
  datatype Registers = Registers(mode: Mode, last: bool, hold: nat, bits: nat, length: nat, offset: nat, extra: nat,
                                 nlen: nat, ndist: nat, ncode: nat, have: nat,
                                 lencode: nat, lenbits: nat, distcode: nat, distbits: nat)

  // The arrays of the state: the tables of the fixed codes and, from codes on,
  // the tables that are built; the code lengths read; and work space.
  datatype Memory = Memory(table: array<Code>, lens: array<nat>, work: array<nat>, codes: nat, lenfix: nat, distfix: nat)

  // The decoding tables are good for these code lengths.
  ghost predicate TablesFor(table: seq<Code>, lencode: nat, lenbits: nat, distcode: nat, distbits: nat,
                            ll: seq<nat>, dl: seq<nat>)
  {
    && Decodes(table, lencode, lenbits, LENS, ll) && Decodes(table, distcode, distbits, DISTS, dl)
    && Accepted(ll) && Accepted(dl)
  }

  // The fields of the state agree with the machine's state, as far as they
  // matter when a block is being decoded.
  ghost predicate BlockLoaded(st: State, r: Registers, table: seq<Code>) {
    && ModeOk(st)
    && (st.mode == LENEXT || st.mode == DIST || st.mode == DISTEXT || st.mode == MATCH || st.mode == LIT ==> st.length == r.length)
    && (st.mode == LENEXT || st.mode == DISTEXT ==> st.extra == r.extra)
    && (st.mode == DISTEXT || st.mode == MATCH ==> st.offset == r.offset)
    && (InBlock(st.mode) ==> TablesFor(table, r.lencode, r.lenbits, r.distcode, r.distbits, st.ll, st.dl))
  }

  class Inflate {
    var mode: Mode
    var hold: nat
    var bits: nat
    var length: nat
    var offset: nat
    var extra: nat
    var last: bool
    var nlen: nat
    var ndist: nat
    var ncode: nat
    var have: nat
    // The decoding tables: both in one array, with their starts and index bits.
    const table: array<Code>
    var lencode: nat
    var lenbits: nat
    var distcode: nat
    var distbits: nat
    // The tables of the fixed codes, and the start of those that are built.
    const codes: nat
    const lenfix: nat
    const distfix: nat
    const lens: array<nat>
    const work: array<nat>
    const window: Window

    // The input of this call, and the output buffer with the room left in it.
    const input: seq<byte>
    const dst: array<byte>
    const start: nat
    const room: nat
    var next: nat
    var put: nat
    var left: nat

    // The machine's state and its place in the input; the output of earlier
    // calls; and where the call must end.
    ghost var st: State
    ghost var seen: nat
    ghost const hist: seq<byte>
    ghost const goal: Config

    // A call of inflate() with input data and n bytes of room at the start of out.
    constructor (r: Registers, mem: Memory, win: Window, data: seq<byte>, out: array<byte>, n: nat,
                 ghost state: State, ghost past: seq<byte>)
      requires n <= out.Length && out != win.window && win.window.Length == 32768 && win.Valid(past)
      requires state.mode == r.mode && state.hold == r.hold && state.bits == r.bits && state.last == r.last
      requires state.out == past && Good(state)
      ensures Base() && st == state && input == data && dst == out && hist == past && window == win
      ensures Saved() == r && Held() == mem
      ensures goal == Call(Config(state, data, n)) && left == room == n && next == seen == 0 && put == start == 0
    {
      hide Call, Good;
      mode, last, hold, bits := r.mode, r.last, r.hold, r.bits;
      length, offset, extra := r.length, r.offset, r.extra;
      nlen, ndist, ncode, have := r.nlen, r.ndist, r.ncode, r.have;
      lencode, lenbits, distcode, distbits := r.lencode, r.lenbits, r.distcode, r.distbits;
      table, lens, work, codes, lenfix, distfix := mem.table, mem.lens, mem.work, mem.codes, mem.lenfix, mem.distfix;
      window, input, dst, start, room, next, put, left := win, data, out, 0, n, 0, 0, n;
      st, seen, hist, goal := state, 0, past, Call(Config(state, data, n));
      new;
      assert input[0..] == input && dst[0..0] == [] && hist + [] == hist;
    }

    function Saved(): Registers
      reads this
    {
      Registers(mode, last, hold, bits, length, offset, extra, nlen, ndist, ncode, have, lencode, lenbits, distcode, distbits)
    }

    function Held(): Memory {
      Memory(table, lens, work, codes, lenfix, distfix)
    }

    // What holds between any two steps.
    ghost predicate Base()
      reads this`st, this`seen, this`put, this`left, this`last, dst, window, window.window
    {
      seen <= |input| && Good(st) && Placed() && window.window.Length == 32768 && dst != window.window
    }

    // The tables are good for these code lengths.
    ghost predicate TablesOk(ll: seq<nat>, dl: seq<nat>)
      reads table, this`lencode, this`lenbits, this`distcode, this`distbits
    {
      TablesFor(table[..], lencode, lenbits, distcode, distbits, ll, dl)
    }

    ghost predicate Static()
      reads this`st, table, this`lencode, this`lenbits, this`distcode, this`distbits
    {
      TablesOk(st.ll, st.dl) && window.window.Length == 32768 && dst != window.window
    }

    // The machine's state in the fields.
    ghost predicate Synced()
      reads this
    {
      && st.mode == mode && st.hold == hold && st.bits == bits && next == seen
      && (mode == LENEXT || mode == DIST || mode == DISTEXT || mode == MATCH || mode == LIT ==> st.length == length)
      && (mode == LENEXT || mode == DISTEXT ==> st.extra == extra)
      && (mode == DISTEXT || mode == MATCH ==> st.offset == offset)
    }

    // Where the call has got to.
    ghost predicate Placed()
      reads this`st, this`seen, this`put, this`left, this`last, dst, window, window.window
    {
      && seen <= |input| && st.last == last && start <= put && put + left == start + room <= dst.Length
      && st.out == hist + dst[start..put] && window.Valid(hist)
      && Call(Config(st, input[seen..], left)) == goal
    }

    // What holds inside inflate_fast() too, which has its own registers.
    ghost predicate Core()
      reads this`st, this`seen, this`put, this`left, this`last, dst, window, window.window
      reads table, this`lencode, this`lenbits, this`distcode, this`distbits
    {
      seen <= |input| && Static() && Good(st) && ModeOk(st) && Placed()
    }

    ghost predicate Valid()
      reads this, table, dst, window, window.window
    {
      Core() && Synced()
    }

    // The configuration of the machine.
    ghost function Now(): Config
      requires seen <= |input|
      reads this`st, this`seen, this`left
    {
      Config(st, input[seen..], left)
    }

    // ---- PULLBYTE(), NEEDBITS() ----

    // The machine takes the next byte.
    ghost method PullTo()
      requires Core() && seen < |input| && Next(st).Pull?
      modifies this`seen, this`st
      ensures Core() && seen == old(seen) + 1 && st == Pulled(old(st), input[old(seen)])
    {
      hide Next, Call, Good, Shl, Decodes, Accepted, ModeOk, TablesOk;
      PullCall(st, input, seen, left);
      ModeOkBits(st, st.hold + Shl(input[seen], st.bits), st.bits + 8);
      st, seen := Pulled(st, input[seen]), seen + 1;
    }

    method PullByte()
      requires Valid() && next < |input| && Next(st).Pull?
      modifies this`hold, this`bits, this`next, this`seen, this`st
      ensures Valid() && next == old(next) + 1 && st == Pulled(old(st), input[old(next)])
    {
      hide Next, Call, Good, Shl, Decodes, Accepted, ModeOk, TablesOk, Core;
      PullTo();
      hold := hold + Shl(input[next], bits);
      bits := bits + 8;
      next := next + 1;
    }

    // Take bytes until the accumulator holds n bits, and no more than that needs;
    // or leave, when the input runs out.
    method NeedBits(n: nat) returns (leave: bool)
      requires Valid() && (mode == LENEXT || mode == DISTEXT) && n == extra && Light(st)
      modifies this`hold, this`bits, this`next, this`seen, this`st
      ensures Valid() && SameBut(old(st), st)
      ensures next > old(next) || (next == old(next) && st == old(st))
      ensures leave ==> Stuck(Now()) && Light(st)
      ensures !leave ==> n <= bits < n + 8
    {
      hide Next, Call, Good, Shl, Decodes, TablesOk, Placed, Accepted, ModeOk;
      leave := false;
      LightExtra(st);
      while bits < n
        invariant Valid() && SameBut(old(st), st) && bits < n + 8
        invariant next > old(next) || (next == old(next) && st == old(st))
        decreases |input| - next
      {
        NeedsPulls(st);
        if next == |input| {
          PullStuck(Now());
          return true;
        }
        PullByte();
      }
    }

    // ---- Decoding a symbol ----

    // Which table the mode decodes with.
    ghost predicate DecodesWith(first: nat, root: nat, kind: CodeType)
      reads this
    {
      || (mode == LEN && kind == LENS && first == lencode && root == lenbits)
      || (mode == DIST && kind == DISTS && first == distcode && root == distbits)
    }

    // With a byte less in the accumulator, nothing could be decoded.
    ghost predicate Tight()
      reads this`st
    {
      || st.bits < 8 || Decode(CodeLens(st), st.hold, st.bits).More?
      || Decode(CodeLens(st), Low(st.hold, st.bits - 8), st.bits - 8).More?
    }

    lemma TableFor(first: nat, root: nat, kind: CodeType)
      requires Static() && DecodesWith(first, root, kind) && st.mode == mode
      ensures Decodes(table[..], first, root, kind, CodeLens(st))
    {
      hide Decodes, Accepted;
    }

    // Take the next byte when no symbol can be decoded yet.
    method PullMore()
      requires Valid() && (mode == LEN || mode == DIST) && next < |input| && Decode(CodeLens(st), hold, bits).More?
      modifies this`hold, this`bits, this`next, this`seen, this`st
      ensures Valid() && SameBut(old(st), st) && Tight() && next == old(next) + 1
      ensures hold == old(hold) + Shl(input[old(next)], old(bits)) && bits == old(bits) + 8 && CodeLens(st) == CodeLens(old(st))
    {
      hide Next, Call, Good, Shl, Decodes, Placed, Decode, Low, Accepted, ModeOk, TablesOk;
      DecodePulls(st);
      TightPull(st, input[next]);
      PullByte();
    }

    // The entry of the root table for the bits h.
    method RootEntry(first: nat, root: nat, ghost kind: CodeType, ghost lens: seq<nat>, h: nat, b: nat) returns (here: Code)
      requires Decodes(table[..], first, root, kind, lens)
      ensures InRange(table[..], first, root)
      ensures first + Low(h, root) < table.Length && here == table[first + Low(h, root)]
      ensures here.bits > b ==> Decode(lens, h, b).More?
    {
      hide Decodes, Decode, Lookup, Low, Shr, IsLink, InRange;
      DecodesRange(table[..], first, root, kind, lens);
      LookupParts(table[..], first, root, h);
      LookupDecodes(table[..], first, root, kind, lens, h, b);
      here := table[first + Low(h, root)];
    }

    // The first decoding loop: the entry of the root table, when the bits to
    // drop for it are there.
    method FindRoot(first: nat, root: nat, ghost kind: CodeType) returns (leave: bool, here: Code)
      requires Valid() && DecodesWith(first, root, kind) && Tight()
      modifies this`hold, this`bits, this`next, this`seen, this`st
      ensures Valid() && SameBut(old(st), st) && InRange(table[..], first, root)
      ensures next > old(next) || (next == old(next) && st == old(st))
      ensures Tight() && (leave ==> Stuck(Now()) && Light(st))
      ensures !leave ==> here.bits <= bits && first + Low(hold, root) < table.Length && here == table[first + Low(hold, root)]
    {
      hide Next, Call, Good, Shl, Decodes, Core, Valid, Decode, Lookup, Low, Shr, IsLink, InRange, Accepted, ModeOk,
        TablesOk, Light, Stuck;
      leave := false;
      ghost var lens := CodeLens(st);
      ValidParts();
      TableFor(first, root, kind);
      here := RootEntry(first, root, kind, lens, hold, bits);
      while here.bits > bits
        invariant Valid() && SameBut(old(st), st) && Tight() && CodeLens(st) == lens
        invariant next > old(next) || (next == old(next) && st == old(st))
        invariant first + Low(hold, root) < table.Length && here == table[first + Low(hold, root)]
        invariant here.bits > bits ==> Decode(lens, hold, bits).More?
        decreases |input| - next
      {
        ValidParts();
        if next == |input| {
          DecodePulls(st);
          PullStuck(Now());
          PullLight(st);
          return true, here;
        }
        PullMore();
        ValidParts();
        here := RootEntry(first, root, kind, lens, hold, bits);
      }
    }

    // The entry of the sub-table that link leads to.
    method LinkEntry(first: nat, root: nat, ghost kind: CodeType, ghost lens: seq<nat>, link: Code, h: nat, b: nat)
        returns (here: Code)
      requires Decodes(table[..], first, root, kind, lens) && InRange(table[..], first, root) && IsLink(link)
      requires first + Low(h, root) < table.Length && link == table[first + Low(h, root)]
      ensures Lookup(table[..], first, root, h) == (here, link.bits + here.bits)
      ensures link.bits + here.bits > b ==> Decode(lens, h, b).More?
    {
      hide Decodes, Decode, Lookup, Low, Shr, IsLink, InRange;
      LookupParts(table[..], first, root, h);
      LookupDecodes(table[..], first, root, kind, lens, h, b);
      here := table[first + link.val + Low(Shr(h, link.bits), link.op)];
    }

    // The whole index of the root table is there when its entry is a link.
    lemma RootRead(first: nat, root: nat, link: Code, h: nat, b: nat)
      requires InRange(table[..], first, root) && IsLink(link) && link.bits <= b
      requires first + Low(h, root) < table.Length && link == table[first + Low(h, root)]
      ensures root <= b
    {
      hide Low, Shr, Lookup, IsLink, InRange;
      LookupParts(table[..], first, root, h);
    }

    // The second decoding loop: the entry of the sub-table that link leads to,
    // when the bits to drop for both are there.
    method FindSecond(first: nat, root: nat, ghost kind: CodeType, link: Code) returns (leave: bool, here: Code)
      requires Valid() && DecodesWith(first, root, kind) && Tight() && InRange(table[..], first, root)
      requires first + Low(hold, root) < table.Length && link == table[first + Low(hold, root)]
      requires IsLink(link) && link.bits <= bits
      modifies this`hold, this`bits, this`next, this`seen, this`st
      ensures Valid() && SameBut(old(st), st)
      ensures next > old(next) || (next == old(next) && st == old(st))
      ensures Tight() && (leave ==> Stuck(Now()) && Light(st))
      ensures !leave ==> link.bits + here.bits <= bits && Lookup(table[..], first, root, hold) == (here, link.bits + here.bits)
    {
      hide Next, Call, Good, Shl, Decodes, Core, Valid, Decode, Lookup, Low, Shr, IsLink, InRange, Accepted, ModeOk,
        TablesOk, Light, Stuck;
      leave := false;
      ghost var lens := CodeLens(st);
      ValidParts();
      TableFor(first, root, kind);
      here := LinkEntry(first, root, kind, lens, link, hold, bits);
      while link.bits + here.bits > bits
        invariant Valid() && SameBut(old(st), st) && Tight() && CodeLens(st) == lens
        invariant next > old(next) || (next == old(next) && st == old(st))
        invariant first + Low(hold, root) < table.Length && link == table[first + Low(hold, root)] && link.bits <= bits
        invariant Lookup(table[..], first, root, hold) == (here, link.bits + here.bits)
        invariant link.bits + here.bits > bits ==> Decode(lens, hold, bits).More?
        decreases |input| - next
      {
        ValidParts();
        if next == |input| {
          DecodePulls(st);
          PullStuck(Now());
          PullLight(st);
          return true, here;
        }
        RootRead(first, root, link, hold, bits);
        RootStays(hold, bits, input[next], root);
        PullMore();
        ValidParts();
        here := LinkEntry(first, root, kind, lens, link, hold, bits);
      }
    }

    // The decoding loops: the entry here that the accumulator leads to, and the
    // bits to drop before it.
    method FindEntry(first: nat, root: nat, ghost kind: CodeType) returns (leave: bool, drop: nat, here: Code)
      requires Valid() && DecodesWith(first, root, kind) && Tight()
      modifies this`hold, this`bits, this`next, this`seen, this`st
      ensures Valid() && SameBut(old(st), st)
      ensures next > old(next) || (next == old(next) && st == old(st))
      ensures leave ==> Stuck(Now()) && Light(st)
      ensures !leave ==> drop + here.bits <= bits < drop + here.bits + 8 && InRange(table[..], first, root)
      ensures !leave ==> Lookup(table[..], first, root, hold) == (here, drop + here.bits)
    {
      hide Next, Call, Good, Shl, Decodes, Core, Decode, Lookup, Low, Shr, IsLink, InRange, Accepted, ModeOk,
        TablesOk, Light, Stuck;
      CoreParts();
      TableFor(first, root, kind);
      drop := 0;
      leave, here := FindRoot(first, root, kind);
      if leave { return; }
      LookupParts(table[..], first, root, hold);
      if IsLink(here) {
        drop := here.bits;
        leave, here := FindSecond(first, root, kind, here);
        if leave { return; }
      }
      CoreParts();
      TableFor(first, root, kind);
      CodeTable(mode == LEN);
      TightUsed(table[..], first, root, kind, st, here, drop + here.bits);
    }

    // ---- The states LEN to LIT ----

    // One step of the machine that only changes its numbers.
    ghost method StepTo(t: State)
      requires Core() && Next(st) == Go(t) && ModeOk(t) && Good(t)
      requires t.ll == st.ll && t.dl == st.dl && t.out == st.out && t.last == st.last
      modifies this`st
      ensures Core() && st == t
    {
      hide Next, Call, Good, Decodes, Accepted, ModeOk;
      GoCall(st, input[seen..], left);
      st := t;
    }

    // What a state does: it leaves only when it must, and else gets on.
    ghost predicate Moved(leave: bool, before: Config)
      requires seen <= |input|
      reads this`st, this`seen, this`left
    {
      if leave then Stuck(Now()) else Smaller(Now(), before)
    }

    // Go on behind the code that the entry here was found for.
    method TakeLen(drop: nat, here: Code)
      requires Valid() && mode == LEN && drop + here.bits <= bits && InRange(table[..], lencode, lenbits)
      requires Lookup(table[..], lencode, lenbits, hold) == (here, drop + here.bits)
      modifies this`mode, this`hold, this`bits, this`st, this`length, this`extra
      ensures Valid() && bits == old(bits) - drop - here.bits < old(bits)
    {
      hide Next, Call, Good, Decodes, Decode, Lookup, Low, Shr, InRange, Accepted, ModeOk, Core, TablesOk, AfterLen,
        LenLed;
      CoreParts();
      CodeTable(true);
      LenEntry(table[..], lencode, lenbits, st, here, drop + here.bits);
      AfterLenParts(st, here, drop + here.bits);
      GoodDrop(st, drop + here.bits);
      GoodBits(Drop(st, drop + here.bits), Next(st).to);
      ShrShr(hold, drop, here.bits);
      StepTo(Next(st).to);
      hold, bits := Shr(Shr(hold, drop), here.bits), bits - drop - here.bits;
      SetLen(here);
    }

    // The state that an entry of the length table leads to.
    method SetLen(here: Code)
      requires Core() && st.hold == hold && st.bits == bits && next == seen && LenLed(st, here)
      modifies this`mode, this`length, this`extra
      ensures Valid()
    {
      hide Core;
      length := here.val;
      if here.op == 0 {
        mode := LIT;
      } else if here.op / 32 % 2 == 1 {
        mode := TYPE;
      } else if here.op / 64 % 2 == 1 {
        mode := BAD;
      } else {
        extra := here.op % 16;
        mode := LENEXT;
      }
    }

    lemma ValidParts()
      requires Valid()
      ensures Core() && Static() && next == seen <= |input| && st.mode == mode && st.hold == hold && st.bits == bits
      ensures Now() == Config(st, input[next..], left)
    {
      hide Good, ModeOk, Call, TablesOk;
    }

    lemma CoreParts()
      requires Core()
      ensures seen <= |input| && Static() && Good(st) && ModeOk(st)
    {
      hide Good, ModeOk, Call, TablesOk;
    }

    method DoLen() returns (leave: bool)
      requires Valid() && mode == LEN && Light(st)
      modifies this`mode, this`hold, this`bits, this`next, this`seen, this`st, this`length, this`extra
      ensures Valid() && Moved(leave, old(Now())) && (if leave then Light(st) else bits < 8)
    {
      hide Next, Call, Good, Decodes, Decode, Lookup, Low, Shr, InRange, Accepted, ModeOk, Placed, TablesOk;
      LightTight(st);
      var drop, here;
      leave, drop, here := FindEntry(lencode, lenbits, LENS);
      if !leave { TakeLen(drop, here); }
    }

    method DoLenExt() returns (leave: bool)
      requires Valid() && mode == LENEXT && Light(st)
      modifies this`mode, this`hold, this`bits, this`next, this`seen, this`st, this`length
      ensures Valid() && Moved(leave, old(Now())) && (if leave then Light(st) else bits < 8)
    {
      hide Next, Call, Good, Decodes, Low, Shr, Accepted, ModeOk, Core, TablesOk, Light, Stuck, Extended;
      CoreParts();
      leave := NeedBits(extra);
      if leave { return; }
      CoreParts();
      ExtendedNext(st);
      ExtendedOk(st);
      ExtendedParts(st);
      GoodDrop(st, extra);
      GoodBits(Drop(st, extra), Next(st).to);
      StepTo(Next(st).to);
      length := length + Low(hold, extra);
      hold, bits := Shr(hold, extra), bits - extra;
      mode := DIST;
      CoreParts();
    }

    method TakeDist(drop: nat, here: Code)
      requires Valid() && mode == DIST && drop + here.bits <= bits && InRange(table[..], distcode, distbits)
      requires Lookup(table[..], distcode, distbits, hold) == (here, drop + here.bits)
      modifies this`mode, this`hold, this`bits, this`st, this`offset, this`extra
      ensures Valid() && bits == old(bits) - drop - here.bits < old(bits)
    {
      hide Next, Call, Good, Decodes, Decode, Lookup, Low, Shr, InRange, Accepted, ModeOk, Core, TablesOk, AfterDist,
        DistLed;
      CoreParts();
      CodeTable(false);
      DistEntry(table[..], distcode, distbits, st, here, drop + here.bits);
      AfterDistParts(st, here, drop + here.bits);
      GoodDrop(st, drop + here.bits);
      GoodBits(Drop(st, drop + here.bits), Next(st).to);
      ShrShr(hold, drop, here.bits);
      StepTo(Next(st).to);
      hold, bits := Shr(Shr(hold, drop), here.bits), bits - drop - here.bits;
      SetDist(here);
    }

    // The state that an entry of the distance table leads to.
    method SetDist(here: Code)
      requires Core() && st.hold == hold && st.bits == bits && next == seen && DistLed(st, length, here)
      modifies this`mode, this`offset, this`extra
      ensures Valid()
    {
      hide Core;
      if here.op / 64 % 2 == 1 {
        mode := BAD;
      } else {
        offset := here.val;
        extra := here.op % 16;
        mode := DISTEXT;
      }
    }

    method DoDist() returns (leave: bool)
      requires Valid() && mode == DIST && Light(st)
      modifies this`mode, this`hold, this`bits, this`next, this`seen, this`st, this`offset, this`extra
      ensures Valid() && Moved(leave, old(Now())) && (if leave then Light(st) else bits < 8)
    {
      hide Next, Call, Good, Decodes, Decode, Lookup, Low, Shr, InRange, Accepted, ModeOk, Placed, TablesOk;
      LightTight(st);
      var drop, here;
      leave, drop, here := FindEntry(distcode, distbits, DISTS);
      if !leave { TakeDist(drop, here); }
    }

    method DoDistExt() returns (leave: bool)
      requires Valid() && mode == DISTEXT && Light(st)
      modifies this`mode, this`hold, this`bits, this`next, this`seen, this`st, this`offset
      ensures Valid() && Moved(leave, old(Now())) && (if leave then Light(st) else bits < 8)
    {
      hide Next, Call, Good, Decodes, Low, Shr, Accepted, ModeOk, Core, TablesOk, Light, Stuck, Extended;
      CoreParts();
      leave := NeedBits(extra);
      if leave { return; }
      CoreParts();
      ExtendedNext(st);
      ExtendedOk(st);
      ExtendedParts(st);
      GoodDrop(st, extra);
      GoodBits(Drop(st, extra), Next(st).to);
      StepTo(Next(st).to);
      offset := offset + Low(hold, extra);
      hold, bits := Shr(hold, extra), bits - extra;
      mode := MATCH;
      CoreParts();
    }

    // Put out one byte of a match.
    method EmitMatch(b: byte)
      requires Core() && st.mode == MATCH && left > 0
      requires st.offset <= |st.out| && b == st.out[|st.out| - st.offset]
      modifies this`put, this`left, this`st, dst
      ensures Core() && put == old(put) + 1 && left == old(left) - 1
      ensures st == old(st).(mode := if old(st.length) == 1 then LEN else MATCH, length := old(st.length) - 1,
                             out := old(st.out) + [b])
    {
      hide Next, Call, Good, Decodes, Accepted, ModeOk;
      MatchOk(st, b);
      MatchStep(st);
      EmitCall(st, input[seen..], left);
      st := Next(st).to;
      dst[put] := b;
      assert dst[start..put + 1] == old(dst[start..put]) + [b];
      assert hist + (old(dst[start..put]) + [b]) == old(st.out) + [b];
      put, left := put + 1, left - 1;
    }

    // A match that reaches back before the start of the output.
    ghost method TooFar()
      requires Core() && st.mode == MATCH && st.offset > |st.out| && left > 0
      modifies this`st
      ensures Core() && st == old(st).(mode := BAD)
    {
      hide Next, Call, Good, Decodes, Accepted, ModeOk;
      BadOk(st);
      TooFarCall(st, input[seen..], left);
      st := st.(mode := BAD);
    }

    // Copy as much of a match as lies in one piece in the window, from k bytes
    // before its end on.
    method CopyPart(k: nat) returns (copy: nat)
      requires Core() && st.mode == MATCH && 1 <= length == st.length && left > 0
      requires st.offset == k + (put - start) && 1 <= k <= window.whave
      modifies this`put, this`left, this`st, dst
      ensures Core() && 1 <= copy <= old(left) && left == old(left) - copy && put == old(put) + copy && Copied(old(st), copy)
    {
      hide Next, Call, Good, Decodes, Holds, Accepted, ModeOk, Placed, TablesOk;
      WindowBounds();
      copy := k;
      var from;
      if copy > window.wnext {
        copy := copy - window.wnext;
        from := window.wsize - copy;
      } else {
        from := window.wnext - copy;
      }
      if copy > length { copy := length; }
      if copy > left { copy := left; }
      CopyWindow(from, copy, k);
    }

    // Copy what can be copied in one piece of a match: from the window, or from
    // the output. ok is false when it reaches too far back.
    method MatchPart() returns (ok: bool, copy: nat)
      requires Core() && st.mode == MATCH && st.length == length && st.offset == offset && left > 0
      modifies this`put, this`left, this`st, dst
      ensures Core() && left == old(left) - copy
      ensures if ok then 1 <= copy && Copied(old(st), copy) else copy == 0 && st == old(st).(mode := BAD)
    {
      hide Next, Call, Good, Decodes, Holds, Accepted, ModeOk, Placed, TablesOk;
      MatchOk(st, 0);
      WindowBounds();
      ok := true;
      copy := put - start;
      if offset > copy {
        // from the window
        copy := offset - copy;
        if copy > window.whave {
          TooFar();
          return false, 0;
        }
        copy := CopyPart(copy);
      } else {
        // from the output
        copy := length;
        if copy > left { copy := left; }
        CopyOutput(put - offset, copy);
      }
    }

    method DoMatch() returns (leave: bool)
      requires Valid() && mode == MATCH && bits < 8
      modifies this`mode, this`put, this`left, this`length, this`st, dst
      ensures Valid() && Moved(leave, old(Now())) && (if leave then Light(st) else bits < 8)
    {
      hide Next, Call, Good, Core, Stuck, Light, ModeOk, Static;
      CoreParts();
      FewLight(st);
      leave := false;
      if left == 0 {
        MatchStuck(Now());
        return true;
      }
      var ok, copy := MatchPart();
      CoreParts();
      if !ok {
        mode := BAD;
        return;
      }
      length := length - copy;
      if length == 0 { mode := LEN; }
    }

    lemma WindowBounds()
      requires Core()
      ensures window.whave <= 32768 && window.wnext < 32768
      ensures window.whave == (if |hist| <= 32768 then |hist| else 32768) && (window.whave > 0 ==> window.wsize == 32768)
      ensures start <= put && |st.out| == |hist| + put - start && put + left <= dst.Length
      ensures window.whave < 32768 ==> window.wnext == window.whave
    {
    }

    lemma WindowByte(k: nat)
      requires Core() && 1 <= k <= window.whave
      ensures BackAt(32768, window.wnext, k) < window.window.Length && |hist| >= k
      ensures window.window[BackAt(32768, window.wnext, k)] == hist[|hist| - k]
    {
      assert window.window[..][BackAt(32768, window.wnext, k)] == hist[|hist| - k];
    }

    lemma OutputByte()
      requires Core() && 1 <= st.offset <= put - start
      ensures put - st.offset < dst.Length && st.offset <= |st.out|
      ensures dst[put - st.offset] == st.out[|st.out| - st.offset]
    {
      hide Call, Good, Decodes, Accepted, ModeOk, Holds, TablesOk;
      assert dst[start..put][put - start - st.offset] == dst[put - st.offset];
    }

    // The machine's state after copy bytes of a match.
    ghost predicate Copied(before: State, copy: nat)
      reads this`st
    {
      && copy <= before.length && st.length == before.length - copy
      && st == before.(mode := if before.length == copy then LEN else MATCH, length := st.length, out := st.out)
    }

    // Copy bytes from the window; the first was put out k bytes before this
    // call.
    method CopyWindow(from0: nat, copy0: nat, k: nat)
      requires Core() && st.mode == MATCH && 1 <= copy0 <= st.length && copy0 <= left
      requires st.offset == k + (put - start) && copy0 <= k <= window.whave
      requires from0 == BackAt(32768, window.wnext, k)
      requires k <= window.wnext || copy0 <= k - window.wnext
      modifies this`put, this`left, this`st, dst
      ensures Core() && left == old(left) - copy0 && put == old(put) + copy0 && Copied(old(st), copy0)
    {
      hide Next, Call, Good, Decodes, Holds, Accepted, ModeOk;
      var from: nat, copy: nat := from0, copy0;
      while copy != 0
        invariant Core() && copy <= copy0 && Copied(old(st), copy0 - copy)
        invariant left == old(left) - (copy0 - copy)
        invariant put == old(put) + (copy0 - copy) && from == from0 + (copy0 - copy)
      {
        WindowByte(k - (copy0 - copy));
        WindowBounds();
        EmitMatch(window.window[from]);
        from, copy := from + 1, copy - 1;
      }
    }

    method CopyOutput(from0: nat, copy0: nat)
      requires Core() && st.mode == MATCH && 1 <= copy0 <= st.length && copy0 <= left
      requires 1 <= st.offset <= put - start && from0 == put - st.offset
      modifies this`put, this`left, this`st, dst
      ensures Core() && left == old(left) - copy0 && put == old(put) + copy0 && Copied(old(st), copy0)
    {
      hide Next, Call, Good, Decodes, Holds, Accepted, ModeOk;
      var from: nat, copy: nat := from0, copy0;
      while copy != 0
        invariant Core() && copy <= copy0 && Copied(old(st), copy0 - copy)
        invariant left == old(left) - (copy0 - copy)
        invariant put == old(put) + (copy0 - copy) && from == from0 + (copy0 - copy)
      {
        OutputByte();
        EmitMatch(dst[from]);
        from, copy := from + 1, copy - 1;
      }
    }

    method DoLit() returns (leave: bool)
      requires Valid() && mode == LIT && bits < 8
      modifies this`mode, this`put, this`left, this`st, dst
      ensures Valid() && Moved(leave, old(Now())) && (if leave then Light(st) else bits < 8)
    {
      hide Next, Call, Good, Decodes, Accepted, ModeOk, Placed;
      LitOk(st);
      if left == 0 {
        LitStuck(Now());
        return true;
      }
      leave := false;
      EmitLit(length);
      mode := LEN;
    }

    // ---- inflate_fast() ----

    // The fast loop's own accumulator and place in the input: the machine is
    // where inflate() would be.
    ghost predicate AheadOf(h: nat, b: nat, i: nat)
      reads this`st, this`seen, this`left
    {
      && i <= |input| && seen <= |input|
      && Behind(Config(st, input[seen..], left), Config(st.(hold := h, bits := b), input[i..], left))
    }

    // Take a byte without asking whether there is one.
    method FastPull(h: nat, b: nat, i: nat) returns (h2: nat, b2: nat, i2: nat)
      requires AheadOf(h, b, i) && i < |input|
      ensures AheadOf(h2, b2, i2) && i2 == i + 1 && b2 == b + 8
    {
      hide Behind;
      PullAhead(Config(st, input[seen..], left), Config(st.(hold := h, bits := b), input[i..], left));
      assert input[i..][1..] == input[i + 1..];
      h2, b2, i2 := h + Shl(input[i], b), b + 8, i + 1;
    }

    // The entry that the accumulator leads to, and the accumulator after its
    // code: with 15 bits there are always enough.
    method FastEntry(first: nat, root: nat, ghost kind: CodeType, ghost lens: seq<nat>, h: nat, b: nat)
        returns (here: Code, h2: nat, b2: nat)
      requires b >= 15 && Decodes(table[..], first, root, kind, lens) && Accepted(lens)
      ensures b2 <= b && h2 == Shr(h, b - b2) && b - b2 <= 15
      ensures EntryOf(kind, lens, Decode(lens, h, b), here, b - b2)
    {
      hide Decodes, Decode, Lookup, Low, Shr, IsLink, InRange, EntryOf, Accepted;
      DecodesRange(table[..], first, root, kind, lens);
      LookupParts(table[..], first, root, h);
      UsedFits(table[..], first, root, kind, lens, h, b);
      here := table[first + Low(h, root)];
      if IsLink(here) {
        var link := here;
        here := table[first + link.val + Low(Shr(h, link.bits), link.op)];
        ShrShr(h, link.bits, here.bits);
        h2, b2 := Shr(Shr(h, link.bits), here.bits), b - link.bits - here.bits;
      } else {
        h2, b2 := Shr(h, here.bits), b - here.bits;
      }
    }

    // The machine decodes the symbol that the fast loop has decoded.
    ghost method FastSymbol(h: nat, b: nat, i: nat, d: Decoded)
      requires Core() && AheadOf(h, b, i) && (st.mode == LEN || st.mode == DIST)
      requires Decode(CodeLens(st), h, b) == d && !d.More? && Used(CodeLens(st), d) <= b
      requires ModeOk(AfterDecode(st.(hold := h, bits := b), d))
      modifies this`st, this`seen
      ensures Core() && AheadOf(Shr(h, Used(CodeLens(old(st)), d)), b - Used(CodeLens(old(st)), d), i)
      ensures st.bits < 8 && seen >= old(seen)
      ensures SameBut(st, AfterDecode(old(st).(hold := h, bits := b), d))
    {
      hide Decode, Decodes, Accepted, Good, Call, ModeOk, Shr, Behind, Tail, TablesOk, Core, AfterDecode, Stream;
      CoreParts();
      var c, f := Config(st, input[seen..], left), Config(st.(hold := h, bits := b), input[i..], left);
      var t := AfterDecode(f.s, d);
      AfterKeeps(f.s, d);
      CodeTable(st.mode == LEN);
      var c2 := SymbolAhead(c, f, d);
      SliceTails(input, seen, i, c2.input);
      MoveTo(c, f.(s := t), c2);
    }

    // The extra bits of a length or a distance.
    ghost method FastExtra(h: nat, b: nat, i: nat)
      requires Core() && AheadOf(h, b, i) && (st.mode == LENEXT || st.mode == DISTEXT) && st.extra <= b
      modifies this`st, this`seen
      ensures Core() && AheadOf(Shr(h, old(st).extra), b - old(st).extra, i) && st.bits < 8 && seen >= old(seen)
      ensures SameBut(st, Extended(old(st).(hold := h, bits := b)))
    {
      hide Decodes, Accepted, Good, Call, Shr, Low, ModeOk, Behind, Tail;
      var c, f := Config(st, input[seen..], left), Config(st.(hold := h, bits := b), input[i..], left);
      var t := Extended(f.s);
      ModeOkBits(st, h, b);
      ExtendedOk(f.s);
      var c2 := ExtraAhead(c, f);
      SliceTails(input, seen, i, c2.input);
      MoveTo(c, f.(s := t), c2);
    }

    // Let the machine go to c2, which is as far as f2.
    ghost method MoveTo(c: Config, f2: Config, c2: Config)
      requires Core() && c == Config(st, input[seen..], left) && Call(c2) == Call(c)
      requires Behind(c2, f2) && Tail(input, f2.input) && Tail(input, c2.input) && f2.room == left
      requires |c2.input| <= |c.input|
      requires ModeOk(f2.s) && f2.s.ll == st.ll && f2.s.dl == st.dl && f2.s.out == st.out && f2.s.last == st.last
      modifies this`st, this`seen
      ensures Core() && st == c2.s && SameBut(st, f2.s) && AheadOf(f2.s.hold, f2.s.bits, |input| - |f2.input|)
      ensures seen >= old(seen)
    {
      hide Decodes, Accepted, Call;
      st, seen := c2.s, |input| - |c2.input|;
      assert input[seen..] == c2.input && input[|input| - |f2.input|..] == f2.input;
      assert st.(hold := f2.s.hold, bits := f2.s.bits) == f2.s;
    }

    // Output does not touch the accumulators.
    ghost predicate OnlyOutput(before: State, room: nat, place: nat)
      reads this`st, this`seen, this`left
    {
      && seen == place && left <= room && st == before.(mode := st.mode, length := st.length, out := st.out)
    }

    lemma StillAhead(before: State, room: nat, h: nat, b: nat, i: nat)
      requires i <= |input| && seen <= |input| && OnlyOutput(before, room, seen) && before.bits < 8
      requires Behind(Config(before, input[seen..], room), Config(before.(hold := h, bits := b), input[i..], room))
      ensures AheadOf(h, b, i)
    {
      hide Stream, Good, Light;
      BehindSame(Config(before, input[seen..], room), Config(before.(hold := h, bits := b), input[i..], room),
        Config(st, input[seen..], left), Config(st.(hold := h, bits := b), input[i..], left));
    }

    // *out++ = a literal.
    method FastLiteral(val: nat, h: nat, b: nat, i: nat)
      requires Core() && st.mode == LIT && left > 0 && val == st.length && AheadOf(h, b, i) && st.bits < 8
      modifies this`put, this`left, this`st, dst
      ensures Core() && st.mode == LEN && left == old(left) - 1 && AheadOf(h, b, i) && st.bits < 8
    {
      hide Next, Call, Good, Decodes, Accepted, ModeOk, Behind;
      ghost var before, room := st, left;
      EmitLit(val);
      StillAhead(before, room, h, b, i);
    }

    method EmitLit(val: nat)
      requires Core() && st.mode == LIT && left > 0 && val == st.length
      modifies this`put, this`left, this`st, dst
      ensures Core() && left == old(left) - 1 && put == old(put) + 1
      ensures st == old(st).(mode := LEN, out := old(st.out) + [val])
    {
      hide Next, Call, Good, Decodes, Accepted, ModeOk;
      LitOk(st);
      LitEmits(st);
      EmitCall(st, input[seen..], left);
      st := Next(st).to;
      dst[put] := val;
      assert dst[start..put + 1] == old(dst[start..put]) + [val];
      assert hist + (old(dst[start..put]) + [val]) == old(st.out) + [val];
      put, left := put + 1, left - 1;
    }

    // The copy of a match of len bytes from dist bytes back; ok is false when
    // that is too far back.
    method FastMatch(len0: nat, dist: nat, h: nat, b: nat, i: nat) returns (ok: bool)
      requires Core() && st.mode == MATCH && st.length == len0 && st.offset == dist && len0 <= left
      requires AheadOf(h, b, i) && st.bits < 8
      modifies this`put, this`left, this`st, dst
      ensures Core() && AheadOf(h, b, i) && st.bits < 8 && st.mode == (if ok then LEN else BAD)
      ensures left == if ok then old(left) - len0 else old(left)
    {
      hide Next, Call, Good, Decodes, Accepted, ModeOk, Behind, Holds, Placed;
      ghost var before, room := st, left;
      MatchOk(st, 0);
      WindowBounds();
      ok := true;
      var op := put - start;
      if dist > op {
        op := dist - op;
        if op > window.whave {
          TooFar();
          StillAhead(before, room, h, b, i);
          return false;
        }
        FastFromWindow(len0, dist, op);
      } else {
        CopyOutput(put - dist, len0);
      }
      StillAhead(before, room, h, b, i);
    }

    // The copy from the window, op bytes before its end, and the rest of it
    // from the output.
    method FastFromWindow(len0: nat, dist: nat, op0: nat)
      requires Core() && st.mode == MATCH && st.length == len0 <= left && st.offset == dist
      requires dist == op0 + (put - start) && 1 <= op0 <= window.whave
      modifies this`put, this`left, this`st, dst
      ensures Core() && left == old(left) - len0 && Copied(old(st), len0)
    {
      hide Next, Call, Good, Decodes, Accepted, ModeOk, Holds, Placed;
      MatchOk(st, 0);
      WindowBounds();
      var len, op := len0, op0;
      var wnext, wsize := window.wnext, window.wsize;
      if wnext == 0 {
        // the window ends with its newest byte
        if op < len {
          len := len - op;
          CopyWindow(wsize - op, op, op0);
          CopyOutput(put - dist, len);
        } else {
          CopyWindow(wsize - op, len, op0);
        }
      } else if wnext < op {
        // it begins behind wnext, and may go on at the window's start
        op := op - wnext;
        if op < len {
          len := len - op;
          CopyWindow(wsize - op, op, op0);
          if wnext < len {
            len := len - wnext;
            CopyWindow(0, wnext, wnext);
            CopyOutput(put - dist, len);
          } else {
            CopyWindow(0, len, wnext);
          }
        } else {
          CopyWindow(wsize - op, len, op0);
        }
      } else {
        // all of it lies before wnext
        if op < len {
          len := len - op;
          CopyWindow(wnext - op, op, op0);
          CopyOutput(put - dist, len);
        } else {
          CopyWindow(wnext - op, len, op0);
        }
      }
    }

    // A length or distance code, with at least 15 bits at hand.
    method FastCode(len: bool, h0: nat, b0: nat, i0: nat) returns (here: Code, h: nat, b: nat, i: nat)
      requires Core() && st.mode == (if len then LEN else DIST) && AheadOf(h0, b0, i0) && i0 + 2 <= |input|
      modifies this`st, this`seen
      ensures b0 <= 30 ==> b <= 30
      ensures if b0 < 15 then i == i0 + 2 else i == i0
      ensures b + 1 <= b0 + 8 * (i - i0) <= b + 15
      ensures Core() && AheadOf(h, b, i) && st.bits < 8 && seen >= old(seen)
      ensures len ==> SameBut(st, AfterLenBits(old(st), here))
      ensures !len ==> SameBut(st, AfterDistBits(old(st), here))
    {
      hide Decode, Decodes, Accepted, Good, Call, ModeOk, Behind, Placed, EntryOf, Used, AfterDecode, Shr, TablesOk,
        AfterLenBits, AfterDistBits, AfterLen, AfterDist;
      CodeTable(len);
      h, b, i := h0, b0, i0;
      if b < 15 {
        h, b, i := FastPull(h, b, i);
        h, b, i := FastPull(h, b, i);
      }
      ghost var lens := CodeLens(st);
      ghost var kind := if len then LENS else DISTS;
      ghost var h1, b1 := h, b;
      here, h, b := FastEntry(if len then lencode else distcode, if len then lenbits else distbits, kind, lens, h, b);
      ghost var d := Decode(lens, h1, b1);
      EntryUsed(kind, lens, d, here, b1 - b);
      ModeOkBits(st, h1, b1);
      if len {
        LenAgrees(st.(hold := h1, bits := b1), d, here, b1 - b);
      } else {
        DistAgrees(st.(hold := h1, bits := b1), d, here, b1 - b);
      }
      FastSymbol(h1, b1, i, d);
      AfterBits(old(st), h1, b1, here, b1 - b);
    }

    lemma CodeTable(len: bool)
      requires Static() && st.mode == (if len then LEN else DIST)
      ensures Accepted(CodeLens(st))
      ensures Decodes(table[..], if len then lencode else distcode, if len then lenbits else distbits,
        if len then LENS else DISTS, CodeLens(st))
    {
      hide Decodes, Accepted;
    }

    // The extra bits of a length or distance, read when they are not at hand.
    method FastExtraBits(op: nat, h0: nat, b0: nat, i0: nat) returns (v: nat, h: nat, b: nat, i: nat)
      requires Core() && (st.mode == LENEXT || st.mode == DISTEXT) && op == st.extra && AheadOf(h0, b0, i0)
      requires op <= 13 && b0 <= 30 && (b0 < op ==> i0 < |input|) && (b0 + 8 < op ==> i0 + 1 < |input|)
      modifies this`st, this`seen
      ensures Core() && AheadOf(h, b, i) && st.bits < 8 && b <= 30 && b + op == b0 + 8 * (i - i0) && seen >= old(seen)
      ensures i == if b0 + 8 < op then i0 + 2 else if b0 < op then i0 + 1 else i0
      ensures SameBut(st, if old(st.mode) == LENEXT then old(st).(mode := DIST, length := old(st.length) + v)
                          else old(st).(mode := MATCH, offset := old(st.offset) + v))
    {
      hide Decodes, Accepted, Good, Call, Shr, Low, ModeOk, Behind, Placed;
      h, b, i := h0, b0, i0;
      if b < op {
        h, b, i := FastPull(h, b, i);
        if b < op {
          h, b, i := FastPull(h, b, i);
        }
      }
      v := Low(h, op);
      FastExtra(h, b, i);
      h, b := Shr(h, op), b - op;
    }

    // One round of the fast loop: a literal, a whole match, or the end of the
    // block or an error. It takes no more than six bytes of input.
    method FastRound(h0: nat, b0: nat, i0: nat) returns (m: Mode, h: nat, b: nat, i: nat)
      requires Core() && st.mode == LEN && AheadOf(h0, b0, i0) && b0 <= 30
      requires |input| - i0 >= 6 && left >= 258
      modifies this`st, this`seen, this`put, this`left, dst
      ensures Core() && AheadOf(h, b, i) && b <= 30 && m == st.mode && (m == LEN || m == TYPE || m == BAD)
      ensures i0 <= i <= i0 + 6 && b < b0 + 8 * (i - i0) && left <= old(left) && st.bits < 8 && seen >= old(seen)
    {
      hide Decodes, Accepted, Good, Call, Behind, Placed, ModeOk, TablesOk, AfterLenBits, AfterDistBits;
      var here;
      m := LEN;
      ghost var s0 := st;
      here, h, b, i := FastCode(true, h0, b0, i0);
      LenModes(s0, here);
      if here.op == 0 {
        // literal
        FastLiteral(here.val, h, b, i);
      } else if here.op / 32 % 2 == 1 {
        // end-of-block
        m := TYPE;
      } else if here.op / 64 % 2 == 1 {
        m := BAD;
      } else {
        // length base
        ExtraSmall(st);
        m, h, b, i := FastPair(here.val, here.op % 16, h, b, i, i0);
      }
    }

    // The rest of a match, behind the code of its length, in a round that began
    // at j.
    method FastPair(base: nat, op: nat, h0: nat, b0: nat, i0: nat, ghost j: nat) returns (m: Mode, h: nat, b: nat, i: nat)
      requires Core() && st.mode == LENEXT && st.length == base && st.extra == op <= 5 && AheadOf(h0, b0, i0) && b0 <= 30
      requires j <= i0 <= j + 2 && 8 * (i0 - j) <= b0 + 15 && |input| - j >= 6 && left >= 258 && st.bits < 8
      modifies this`st, this`seen, this`put, this`left, dst
      ensures Core() && AheadOf(h, b, i) && b <= 30 && m == st.mode && (m == LEN || m == BAD)
      ensures i0 <= i && b < b0 + 8 * (i - i0) && left <= old(left) && st.bits < 8 && seen >= old(seen)
      ensures i <= j + 6
    {
      hide Decodes, Accepted, Good, Call, Behind, Placed, ModeOk, TablesOk, AfterLenBits, AfterDistBits;
      m := LEN;
      var v, here;
      v, h, b, i := FastExtraBits(op, h0, b0, i0);
      var len := base + v;
      ghost var s1 := st;
      here, h, b, i := FastCode(false, h, b, i);
      DistModes(s1, here);
      if here.op / 64 % 2 == 1 {
        m := BAD;
        return;
      }
      // distance base
      var dist := here.val;
      ExtraSmall(st);
      v, h, b, i := FastExtraBits(here.op % 16, h, b, i);
      dist := dist + v;
      MatchOk(st, 0);
      var ok := FastMatch(len, dist, h, b, i);
      if !ok { m := BAD; }
    }

    // Decode literals and matches until the end of the block, an error, or too
    // little input or room. On return no whole byte that was not needed is held;
    // on entry one may be, which heavy tells.
    method InflateFast() returns (ghost heavy: bool)
      requires Valid() && mode == LEN && Light(st) && bits <= 30 && |input| - next >= 6 && left >= 258
      modifies this`mode, this`hold, this`bits, this`next, this`st, this`seen, this`put, this`left, dst
      ensures Valid() && (mode == LEN || mode == TYPE || mode == BAD) && bits < 8
      ensures Smaller(Now(), old(Now())) && (heavy <==> old(bits) >= 8)
    {
      hide Decodes, Accepted, Good, Call, Behind, Placed, ModeOk, Light, TablesOk;
      heavy := bits >= 8;
      var h: nat, b: nat, i: nat := hold, bits, next;
      BehindSelf(Now());
      var m;
      m, h, b, i := FastRound(h, b, i);
      while m == LEN && |input| - i > 5 && left > 257
        invariant Core() && AheadOf(h, b, i) && b <= 30 && m == st.mode && (m == LEN || m == TYPE || m == BAD)
        invariant st.bits < 8 && seen >= old(seen) && i <= |input|
        invariant 8 * (|input| - i) + b < old(8 * (|input| - next) + bits) && left <= old(left)
        decreases 8 * (|input| - i) + b
      {
        m, h, b, i := FastRound(h, b, i);
      }
      FastReturn(m, h, b, i);
    }

    // Return unused bytes, and the registers.
    method FastReturn(m: Mode, h: nat, b: nat, i: nat)
      requires Core() && AheadOf(h, b, i) && st.bits < 8 && m == st.mode && (m == LEN || m == TYPE || m == BAD)
      modifies this`mode, this`hold, this`bits, this`next
      ensures Valid() && 8 * (|input| - seen) + st.bits == 8 * (|input| - i) + b
    {
      hide Decodes, Accepted, Good, Call, Behind, Placed, ModeOk, Light, Low, TablesOk;
      GiveBack(Now(), Config(st.(hold := h, bits := b), input[i..], left));
      FewerBits(|input| - seen, st.bits, |input| - i, b);
      var len := b / 8;
      mode, next, hold, bits := m, i - len, Low(h, b - 8 * len), b - 8 * len;
    }

    // ---- The main loop, while it decodes a block, and leaving it ----

    // The next step enters inflate_fast() with a whole byte held.
    predicate Heavy()
      reads this`mode, this`bits, this`next, this`left
    {
      mode == LEN && bits >= 8 && |input| >= next + 6 && left >= 258
    }

    // Decode the data of a block: on return the block has ended, or the machine
    // is where the whole call ends. inflate_fast() is used whenever there is
    // enough input and room, and makes no difference. It is entered with a whole
    // byte held, as heavy tells, at the start of all this or not at all.
    method DecodeBlock() returns (leave: bool, ghost heavy: bool)
      requires Valid() && InBlock(mode) && Light(st)
      modifies this`mode, this`hold, this`bits, this`next, this`seen, this`st, this`length, this`offset, this`extra,
        this`put, this`left, dst
      ensures Valid() && Light(st) && (heavy <==> old(Heavy()))
      ensures if leave then Now() == goal else mode == TYPE && bits < 8 && Smaller(Now(), old(Now()))
    {
      hide Next, Call, Good, Decodes, TablesOk, Placed, Accepted, ModeOk, Light, Smaller;
      leave, heavy := false, false;
      ghost var first := true;
      while InBlock(mode) && !leave
        invariant Valid() && Light(st) && (leave ==> Stuck(Now())) && (leave || InBlock(mode) || bits < 8)
        invariant InBlock(mode) || mode == TYPE || mode == BAD
        invariant leave || (InBlock(mode) && Now() == old(Now())) || Smaller(Now(), old(Now()))
        invariant if first then Heavy() == old(Heavy()) && !leave && InBlock(mode) else leave || bits < 8
        invariant heavy <==> !first && old(Heavy())
        decreases if leave then 0 else 1, |input| - next, left, bits, Rank(mode)
      {
        ghost var before := Now();
        ghost var fast;
        leave, fast := BlockStep();
        heavy, first := heavy || fast, false;
        if !leave {
          SmallerTrans(Now(), before, old(Now()));
          SmallerParts(Now(), before);
        }
        ModeOkModes(st);
      }
      if mode == BAD || leave {
        AtEnd();
        leave := true;
      }
    }

    // One state of the loop.
    method BlockStep() returns (leave: bool, ghost heavy: bool)
      requires Valid() && InBlock(mode) && Light(st)
      modifies this`mode, this`hold, this`bits, this`next, this`seen, this`st, this`length, this`offset, this`extra,
        this`put, this`left, dst
      ensures Valid() && Moved(leave, old(Now())) && Light(st) && (leave || bits < 8) && (heavy <==> old(Heavy()))
    {
      hide Next, Call, Good, Decodes, TablesOk, Placed, Accepted, ModeOk, Light;
      leave, heavy := false, false;
      if mode == MATCH || mode == LIT { LightBits(st); }
      match mode {
        case LEN =>
          WaitingBits();
          if |input| - next >= 6 && left >= 258 {
            heavy := InflateFast();
          } else {
            leave := DoLen();
          }
        case LENEXT => leave := DoLenExt();
        case DIST => leave := DoDist();
        case DISTEXT => leave := DoDistExt();
        case MATCH => leave := DoMatch();
        case LIT => leave := DoLit();
      }
      if !leave { FewLight(st); }
    }

    lemma WaitingBits()
      requires Valid() && mode == LEN && Light(st)
      ensures bits <= 30
    {
      LightTight(st);
      if bits >= 15 { LongMatch(st.ll, st.hold, st.bits); }
    }

    // When the machine is stuck, or has found an error, the call is at its end.
    lemma AtEnd()
      requires Core() && (Stuck(Now()) || st.mode == BAD)
      ensures Now() == goal
    {
    }

    // inf_leave: keep the output of this call in the window, unless it will not
    // be needed.
    method Leave(finish: bool)
      requires Base()
      modifies window, window.window
      ensures mode != BAD && mode != DONE && mode != CHECK ==> window.Valid(st.out)
    {
      hide Call, Good, Holds;
      if window.wsize != 0 || (put != start && mode != BAD && ((mode != CHECK && mode != DONE) || !finish)) {
        window.UpdateWindow(dst[start..put], hist);
      } else if put == start {
        assert dst[start..put] == [] && hist + [] == hist;
      }
    }
  }

  lemma PullLight(s: State)
    requires Next(s).Pull?
    ensures Light(s)
  {
    hide Next;
  }

  lemma SmallerTrans(a: Config, b: Config, c: Config)
    requires Smaller(a, b) && (b == c || Smaller(b, c))
    ensures Smaller(a, c)
  {
  }

  lemma SmallerParts(a: Config, b: Config)
    requires Smaller(a, b)
    ensures |a.input| < |b.input| || (|a.input| == |b.input| && (a.room < b.room || (a.room == b.room && (a.s.bits < b.s.bits
        || (a.s.bits == b.s.bits && Rank(a.s.mode) < Rank(b.s.mode))))))
  {
  }

  lemma PullStuck(c: Config)
    requires Next(c.s).Pull? && c.input == []
    ensures Stuck(c)
  {
    hide Next;
  }

  lemma DecodesRange(table: seq<Code>, start: nat, root: nat, kind: CodeType, lens: seq<nat>)
    requires Decodes(table, start, root, kind, lens)
    ensures InRange(table, start, root)
  {
  }

  lemma DecodePulls(s: State)
    requires (s.mode == LEN || s.mode == DIST) && Decode(CodeLens(s), s.hold, s.bits).More?
    ensures Next(s).Pull?
  {
    hide Decode;
  }

  // The state that an entry of the length table leads to.
  ghost function AfterLen(s: State, here: Code, used: nat): State
    requires used <= s.bits
  {
    var t := Drop(s, used);
    if here.op == 0 then t.(mode := LIT, length := here.val)
    else if here.op / 32 % 2 == 1 then t.(mode := TYPE)
    else if here.op / 64 % 2 == 1 then t.(mode := BAD)
    else t.(mode := LENEXT, length := here.val, extra := here.op % 16)
  }

  // The table entry says what the symbol means.
  ghost predicate EntryOf(kind: CodeType, lens: seq<nat>, d: Decoded, here: Code, used: nat) {
    && !d.More? && used == Used(lens, d)
    && (d.Symbol? ==> d.s < |lens| && d.s < MaxSymbols(kind) && here == EntryFor(kind, d.s, here.bits) && lens[d.s] >= 1)
    && (d.Invalid? ==> here == INVALID)
  }

  lemma EntryFound(table: seq<Code>, start: nat, root: nat, kind: CodeType, lens: seq<nat>, hold: nat, bits: nat,
                   here: Code, used: nat)
    requires Decodes(table, start, root, kind, lens) && InRange(table, start, root)
    requires Lookup(table, start, root, hold) == (here, used) && used <= bits
    ensures EntryOf(kind, lens, Decode(lens, hold, bits), here, used)
  {
    LookupDecodes(table, start, root, kind, lens, hold, bits);
    hide Lookup, InRange, CanonicalCode.Matches, EntryFor;
  }

  lemma LenEntry(table: seq<Code>, start: nat, root: nat, s: State, here: Code, used: nat)
    requires s.mode == LEN && Decodes(table, start, root, LENS, s.ll) && ModeOk(s)
    requires InRange(table, start, root) && Lookup(table, start, root, s.hold) == (here, used) && used <= s.bits
    ensures Next(s) == Go(AfterLen(s, here, used)) && ModeOk(AfterLen(s, here, used)) && used >= 1
  {
    hide Next, Lookup, Decode, Decodes, InRange, EntryOf, Used, AfterDecode, AfterLen, ModeOk;
    var d := Decode(s.ll, s.hold, s.bits);
    EntryFound(table, start, root, LENS, s.ll, s.hold, s.bits, here, used);
    EntryUsed(LENS, s.ll, d, here, used);
    DecodedNext(s, d);
    LenAgrees(s, d, here, used);
  }

  lemma EntryUsed(kind: CodeType, lens: seq<nat>, d: Decoded, here: Code, used: nat)
    requires EntryOf(kind, lens, d, here, used)
    ensures !d.More? && used == Used(lens, d) >= 1
    ensures Accepted(lens) ==> used <= 15
  {
  }

  lemma LenAgrees(s: State, d: Decoded, here: Code, used: nat)
    requires s.mode == LEN && EntryOf(LENS, s.ll, d, here, used) && used <= s.bits
    ensures AfterDecode(s, d) == AfterLen(s, here, used) && ModeOk(AfterLen(s, here, used))
  {
    hide Shr, Pow2, EntryFor;
    if d.Symbol? { LenSymbol(d.s, here); }
  }

  lemma LenSymbol(y: nat, here: Code)
    requires y < 288 && here == EntryFor(LENS, y, here.bits)
    ensures if y < 256 then here.op == 0 && here.val == y
      else if y == 256 then here.op != 0 && here.op / 32 % 2 == 1
      else if y < 286 then here.op != 0 && here.op / 32 % 2 == 0 && here.op / 64 % 2 == 0
        && here.val == LBASE[y - 257] && here.op % 16 == LEXT[y - 257] - 16
        && here.val >= 3 && here.op % 16 <= 5 && here.val + Pow2(here.op % 16) <= 259
      else here.op != 0 && here.op / 32 % 2 == 0 && here.op / 64 % 2 == 1
  {
    hide Pow2;
    if y >= 257 { LengthBases(y - 257); }
  }

  // The base and the extra bits of a length symbol: 29 of them are used.
  predicate LengthBase(i: nat)
    requires i < 31
  {
    if i < 29 then 16 <= LEXT[i] <= 21 && LBASE[i] >= 3 && LBASE[i] + Pow2(LEXT[i] - 16) <= 259
    else LEXT[i] / 32 % 2 == 0 && LEXT[i] / 64 % 2 == 1
  }

  lemma LengthBases(i: nat)
    requires i < 31
    ensures LengthBase(i)
  {
    Pow2Values();
  }

  ghost function AfterDist(s: State, here: Code, used: nat): State
    requires used <= s.bits
  {
    var t := Drop(s, used);
    if here.op / 64 % 2 == 1 then t.(mode := BAD)
    else t.(mode := DISTEXT, offset := here.val, extra := here.op % 16)
  }

  lemma AfterLenParts(s: State, here: Code, used: nat)
    requires used <= s.bits
    ensures var t := AfterLen(s, here, used);
      && t.hold == Shr(s.hold, used) && t.bits == s.bits - used && t.ll == s.ll && t.dl == s.dl && t.out == s.out && t.last == s.last
      && LenLed(t, here)
  {
    hide Shr;
  }

  // What an entry of the length table says of the state after it.
  ghost predicate LenLed(t: State, here: Code) {
    && (here.op == 0 ==> t.mode == LIT && t.length == here.val)
    && (here.op != 0 && here.op / 32 % 2 == 1 ==> t.mode == TYPE)
    && (here.op != 0 && here.op / 32 % 2 == 0 && here.op / 64 % 2 == 1 ==> t.mode == BAD)
    && (here.op != 0 && here.op / 32 % 2 == 0 && here.op / 64 % 2 == 0 ==>
         t.mode == LENEXT && t.length == here.val && t.extra == here.op % 16)
  }

  lemma AfterDistParts(s: State, here: Code, used: nat)
    requires used <= s.bits
    ensures var t := AfterDist(s, here, used);
      && t.hold == Shr(s.hold, used) && t.bits == s.bits - used && t.ll == s.ll && t.dl == s.dl && t.out == s.out && t.last == s.last
      && DistLed(t, s.length, here)
  {
    hide Shr;
  }

  // What an entry of the distance table says of the state after it.
  ghost predicate DistLed(t: State, length: nat, here: Code) {
    && t.length == length && (here.op / 64 % 2 == 1 ==> t.mode == BAD)
    && (here.op / 64 % 2 == 0 ==> t.mode == DISTEXT && t.offset == here.val && t.extra == here.op % 16)
  }

  lemma ExtendedParts(s: State)
    requires (s.mode == LENEXT || s.mode == DISTEXT) && s.extra <= s.bits
    ensures var t := Extended(s);
      && t.hold == Shr(s.hold, s.extra) && t.bits == s.bits - s.extra && t.ll == s.ll && t.dl == s.dl && t.out == s.out && t.last == s.last
      && (s.mode == LENEXT ==> t.mode == DIST && t.length == s.length + Low(s.hold, s.extra))
      && (s.mode == DISTEXT ==> t.mode == MATCH && t.length == s.length && t.offset == s.offset + Low(s.hold, s.extra))
  {
    hide Shr, Low;
  }

  lemma DistEntry(table: seq<Code>, start: nat, root: nat, s: State, here: Code, used: nat)
    requires s.mode == DIST && Decodes(table, start, root, DISTS, s.dl) && ModeOk(s)
    requires InRange(table, start, root) && Lookup(table, start, root, s.hold) == (here, used) && used <= s.bits
    ensures Next(s) == Go(AfterDist(s, here, used)) && ModeOk(AfterDist(s, here, used)) && used >= 1
  {
    hide Next, Lookup, Decode, Decodes, InRange, EntryOf, Used, AfterDecode, AfterDist;
    var d := Decode(s.dl, s.hold, s.bits);
    EntryFound(table, start, root, DISTS, s.dl, s.hold, s.bits, here, used);
    EntryUsed(DISTS, s.dl, d, here, used);
    DecodedNext(s, d);
    DistAgrees(s, d, here, used);
  }

  lemma DistAgrees(s: State, d: Decoded, here: Code, used: nat)
    requires s.mode == DIST && ModeOk(s) && EntryOf(DISTS, s.dl, d, here, used) && used <= s.bits
    ensures AfterDecode(s, d) == AfterDist(s, here, used) && ModeOk(AfterDist(s, here, used))
  {
    hide Shr, EntryFor;
    if d.Symbol? { DistSymbol(d.s, here); }
  }

  lemma DistSymbol(y: nat, here: Code)
    requires y < 32 && here == EntryFor(DISTS, y, here.bits)
    ensures if y < 30 then here.op / 64 % 2 == 0 && here.val == DBASE[y] && here.op % 16 == DEXT[y] - 16
        && here.val >= 1 && here.op % 16 <= 13 && here.val + Pow2(here.op % 16) <= 32769
      else here.op / 64 % 2 == 1
  {
    hide Pow2;
    DistBases();
  }

  lemma DistBases()
    ensures forall i :: 0 <= i < 30 ==>
      16 <= DEXT[i] <= 29 && DBASE[i] >= 1 && DBASE[i] + Pow2(DEXT[i] - 16) <= 32769
    ensures DEXT[30] == 64 && DEXT[31] == 64
  {
    Pow2Values();
    hide Pow2;
  }

  lemma EmitCall(s: State, input: seq<byte>, room: nat)
    requires Next(s).Emit? && room > 0
    ensures Call(Config(Next(s).to, input, room - 1)) == Call(Config(s, input, room))
  {
    hide Next;
    EmitStep(Config(s, input, room));
  }

  lemma MatchStuck(c: Config)
    requires c.s.mode == MATCH && c.room == 0
    ensures Stuck(c)
  {
  }

  lemma LitStuck(c: Config)
    requires c.s.mode == LIT && c.s.length < 256 && c.room == 0
    ensures Stuck(c)
  {
  }

  lemma TooFarCall(s: State, input: seq<byte>, room: nat)
    requires s.mode == MATCH && s.offset > |s.out| && room > 0
    ensures Call(Config(s.(mode := BAD), input, room)) == Call(Config(s, input, room))
  {
    var c := Config(s, input, room);
    assert Next(s) == Look(s.(mode := BAD));
    assert Step(c) == c.(s := s.(mode := BAD));
    hide Next, Step;
    StepCall(c);
  }

  lemma UsedFits(table: seq<Code>, start: nat, root: nat, kind: CodeType, lens: seq<nat>, h: nat, b: nat)
    requires b >= 15 && Decodes(table, start, root, kind, lens) && Accepted(lens) && InRange(table, start, root)
    ensures var (here, used) := Lookup(table, start, root, h);
      used <= 15 && EntryOf(kind, lens, Decode(lens, h, b), here, used)
  {
    hide Lookup, InRange, Decode;
    LookupDecodes(table, start, root, kind, lens, h, b);
    if Decode(lens, h, b).More? {
      LongMatch(lens, h, b);
    } else {
      var (here, used) := Lookup(table, start, root, h);
      EntryFound(table, start, root, kind, lens, h, b, here, used);
      EntryUsed(kind, lens, Decode(lens, h, b), here, used);
    }
  }

  // No code is longer than 15 bits.
  lemma LongMatch(lens: seq<nat>, h: nat, b: nat)
    requires Accepted(lens) && b >= 15
    ensures !Decode(lens, h, b).More?
  {
    hide CanonicalCode.Matches;
  }

  lemma ModeOkBits(s: State, h: nat, b: nat)
    requires ModeOk(s)
    ensures ModeOk(s.(hold := h, bits := b))
  {
    hide Pow2;
  }

  lemma MatchOk(s: State, b: byte)
    requires s.mode == MATCH && ModeOk(s) && Good(s)
    ensures 1 <= s.length <= 258 && 1 <= s.offset <= 32768
    ensures var t := s.(mode := if s.length == 1 then LEN else MATCH, length := s.length - 1, out := s.out + [b]);
      ModeOk(t) && Good(t)
  {
    hide Pow2;
  }

  lemma LitOk(s: State)
    requires s.mode == LIT && ModeOk(s) && Good(s)
    ensures s.length < 256 && var t := s.(mode := LEN, out := s.out + [s.length]); ModeOk(t) && Good(t)
  {
    hide Pow2;
  }

  lemma BadOk(s: State)
    requires Good(s)
    ensures ModeOk(s.(mode := BAD)) && Good(s.(mode := BAD))
  {
    hide Pow2;
  }

  lemma GoodBits(s: State, t: State)
    requires Good(s) && SameBits(s, t)
    ensures Good(t)
  {
  }

  lemma FewerBits(n: nat, a: nat, m: nat, b: nat)
    requires n == m + b / 8 && a == b % 8
    ensures 8 * n + a == 8 * m + b
  {
  }

  lemma SliceTails(input: seq<byte>, n: nat, i: nat, t: seq<byte>)
    requires n <= |input| && i <= |input| && Tail(input[n..], t)
    ensures Tail(input, input[i..]) && Tail(input, t) && |t| <= |input| - n
  {
    TailOfTail(input, input[n..], t);
  }

  lemma AfterKeeps(s: State, d: Decoded)
    requires (s.mode == LEN || s.mode == DIST) && Used(CodeLens(s), d) <= s.bits
    ensures var t := AfterDecode(s, d);
      && t.ll == s.ll && t.dl == s.dl && t.out == s.out && t.last == s.last
      && t.hold == Shr(s.hold, Used(CodeLens(s), d)) && t.bits == s.bits - Used(CodeLens(s), d)
  {
    hide Shr;
  }

  lemma ExtendedOk(s: State)
    requires (s.mode == LENEXT || s.mode == DISTEXT) && s.extra <= s.bits && ModeOk(s)
    ensures ModeOk(Extended(s))
  {
    RootIndex(s.hold, s.extra);
  }

  // The state after an entry, whatever is in the accumulator.
  ghost function AfterLenBits(s: State, here: Code): State {
    if here.op == 0 then s.(mode := LIT, length := here.val)
    else if here.op / 32 % 2 == 1 then s.(mode := TYPE)
    else if here.op / 64 % 2 == 1 then s.(mode := BAD)
    else s.(mode := LENEXT, length := here.val, extra := here.op % 16)
  }

  ghost function AfterDistBits(s: State, here: Code): State {
    if here.op / 64 % 2 == 1 then s.(mode := BAD)
    else s.(mode := DISTEXT, offset := here.val, extra := here.op % 16)
  }

  lemma AfterBits(s: State, h: nat, b: nat, here: Code, used: nat)
    requires used <= b
    ensures forall t: State :: SameBut(t, AfterLen(s.(hold := h, bits := b), here, used)) ==> SameBut(t, AfterLenBits(s, here))
    ensures forall t: State :: SameBut(t, AfterDist(s.(hold := h, bits := b), here, used)) ==> SameBut(t, AfterDistBits(s, here))
  {
    hide Shr;
  }

  lemma LenModes(s: State, here: Code)
    ensures var t := AfterLenBits(s, here);
      && t.out == s.out
      && (here.op == 0 ==> t.mode == LIT && t.length == here.val)
      && (here.op != 0 && here.op / 32 % 2 == 1 ==> t.mode == TYPE)
      && (here.op != 0 && here.op / 32 % 2 == 0 && here.op / 64 % 2 == 1 ==> t.mode == BAD)
      && (here.op != 0 && here.op / 32 % 2 == 0 && here.op / 64 % 2 == 0 ==>
           t.mode == LENEXT && t.length == here.val && t.extra == here.op % 16)
  {
  }

  lemma DistModes(s: State, here: Code)
    ensures var t := AfterDistBits(s, here);
      && t.out == s.out && t.length == s.length
      && (here.op / 64 % 2 == 1 ==> t.mode == BAD)
      && (here.op / 64 % 2 == 0 ==> t.mode == DISTEXT && t.offset == here.val && t.extra == here.op % 16)
  {
  }

  // Lengths have no more than 5 extra bits, distances no more than 13.
  lemma ExtraSmall(s: State)
    requires ModeOk(s)
    ensures s.mode == LENEXT ==> s.extra <= 5
    ensures s.mode == DISTEXT ==> s.extra <= 13
  {
    hide Pow2;
  }

  lemma LightTight(s: State)
    requires Light(s) && (s.mode == LEN || s.mode == DIST)
    ensures s.bits < 8 || Decode(CodeLens(s), s.hold, s.bits).More?
  {
    var d := Decode(CodeLens(s), s.hold, s.bits);
    if !d.More? {
      DecodedNext(s, d);
    }
  }

  lemma TightPull(s: State, b: byte)
    requires Good(s) && Decode(CodeLens(s), s.hold, s.bits).More?
    ensures var t := Pulled(s, b); CodeLens(t) == CodeLens(s) && Decode(CodeLens(t), Low(t.hold, t.bits - 8), t.bits - 8).More?
  {
    LowPlusShl(s.hold, b, s.bits);
    LowSmall(s.hold, s.bits);
    hide Decode, Low, Shl;
  }

  lemma TightUsed(table: seq<Code>, first: nat, root: nat, kind: CodeType, s: State, here: Code, used: nat)
    requires Good(s) && Accepted(CodeLens(s)) && Decodes(table, first, root, kind, CodeLens(s)) && InRange(table, first, root)
    requires Lookup(table, first, root, s.hold) == (here, used) && used <= s.bits
    requires s.bits < 8 || Decode(CodeLens(s), s.hold, s.bits).More?
      || Decode(CodeLens(s), Low(s.hold, s.bits - 8), s.bits - 8).More?
    ensures s.bits < used + 8
  {
    hide Decode, Low, Lookup, InRange, EntryOf, Decodes, Accepted;
    var lens := CodeLens(s);
    EntryFound(table, first, root, kind, lens, s.hold, s.bits, here, used);
    EntryUsed(kind, lens, Decode(lens, s.hold, s.bits), here, used);
    LowSmall(s.hold, s.bits);
    if s.bits >= 8 {
      DecodePrefix(lens, s.hold, s.bits, s.bits - 8);
    }
  }

  lemma LightBits(s: State)
    requires Light(s) && (s.mode == MATCH || s.mode == LIT)
    ensures s.bits < 8
  {
  }

  lemma FewLight(s: State)
    requires s.bits < 8
    ensures Light(s)
  {
  }

  lemma ModeOkModes(s: State)
    requires ModeOk(s)
    ensures InBlock(s.mode) || s.mode == TYPE || s.mode == BAD
  {
    hide Pow2;
  }
}
