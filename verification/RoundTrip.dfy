// deflate() and inflate() together: what was compressed is what comes out.
module RoundTrip {
  import opened Bits
  import opened BitWriter
  import opened Format
  import opened BlockFormat
  import Trees
  import TreeMerge
  import BlockCost
  import CompressBlock
  import opened FlushBlock
  import opened InflateMachine
  import opened InflateBlocks
  import opened Replay
  import InflateCall
  import Choices
  import Deflate

  ghost predicate AllOk(blocks: seq<Block>) {
    forall i :: 0 <= i < |blocks| ==> BlockOk(blocks[i])
  }

  // The bits of blocks, written one behind the other; the last of total blocks
  // is marked.
  ghost function BitsSoFar(blocks: seq<Block>, total: nat): seq<bool>
    requires AllOk(blocks) && |blocks| <= total
    decreases |blocks|
  {
    if blocks == [] then []
    else
      var n := |blocks| - 1;
      var before := BitsSoFar(blocks[..n], total);
      before + BlockBits(blocks[n], n == total - 1, |before|)
  }

  // They are the bits of the stream.
  lemma {:induction false} StreamBits(blocks: seq<Block>, k: nat, now: seq<byte>)
    requires k <= |blocks| && AllOk(blocks) && BlocksOk(now, blocks[k..])
    ensures BitsSoFar(blocks, |blocks|)
         == BitsSoFar(blocks[..k], |blocks|) + BlocksBits(now, blocks[k..], |BitsSoFar(blocks[..k], |blocks|)|)
    decreases |blocks| - k
  {
    hide BlockBits, BlockData, BlockOk, BlockExpands;
    if k == |blocks| {
      assert blocks[..k] == blocks;
    } else {
      var b, more := blocks[k], blocks[k..];
      assert more[0] == b && more[1..] == blocks[k + 1..];
      assert blocks[..k + 1][..k] == blocks[..k];
      StreamBits(blocks, k + 1, BlockData(now, b));
      var before := BitsSoFar(blocks[..k], |blocks|);
      var bits := BlockBits(b, k == |blocks| - 1, |before|);
      assert BitsSoFar(blocks[..k + 1], |blocks|) == before + bits;
      var rest := BlocksBits(BlockData(now, b), blocks[k + 1..], |before + bits|);
      assert before + bits + rest == before + (bits + rest);
    }
  }

  // Only the alignment of a block matters to its bits.
  lemma SameAlignment(b: Block, last: bool, p: nat, q: nat)
    requires BlockOk(b) && p % 8 == q % 8
    ensures BlockBits(b, last, p) == BlockBits(b, last, q)
  {
    hide BytesBits, BitsOf, HeaderBits, BodyBits, BlockOk, Padding;
    SamePadding(p, q, 3);
  }

  lemma SamePadding(p: nat, q: nat, n: nat)
    requires p % 8 == q % 8
    ensures Padding(p + n) == Padding(q + n)
  {
  }

  // flush_pending(), with room for all that is pending.
  method FlushPending(w: BitWriter) returns (out: seq<byte>)
    requires w.Valid() && w.Sent() <= 8 * w.buf.Length
    modifies w, w.buf
    ensures w.Valid() && w.pending == 0 && w.bi_valid <= 7 && BytesBits(out) + w.Written() == old(w.Written())
    ensures old(w.bi_valid) == 0 ==> w.bi_valid == 0
  {
    hide BytesBits, BitsOf, Pow2;
    w.BiFlush();
    out := w.buf[..w.pending];
    w.pending := 0;
    assert BytesBits(w.buf[..0]) == [] by { EmptyBytes(w.buf[..0]); }
    assert [] + BitsOf(w.bi_buf, w.bi_valid) == BitsOf(w.bi_buf, w.bi_valid);
  }

  // What _tr_flush_block() can be given.
  ghost predicate Writable(f: Flush, lit_bufsize: nat) {
    TokensOk(f.tokens) && |f.tokens| <= lit_bufsize - 1 && (f.have_buf ==> |f.data| <= 65535)
  }

  // Between blocks all output has been passed on, but for some bits.
  ghost predicate Drained(t: TreeState)
    reads t, t.w, t.w.buf, t.ltree, t.dtree, t.bl_tree, t.static_ltree, t.static_dtree
  {
    t.Valid() && t.tokens == [] && t.w.pending == 0 && t.w.bi_valid <= 7
  }

  method TallyAll(t: TreeState, ts: seq<Token>)
    requires Drained(t) && TokensOk(ts) && |ts| <= t.lit_bufsize - 1
    modifies t, t.w.buf, t.ltree, t.dtree
    ensures t.Valid() && t.tokens == ts && t.w.Written() == old(t.w.Written())
  {
    hide CompressBlock.Tables, Trees.HasCodes, CompressBlock.SymBuf, BytesBits, BitsOf, BlockCost.LitHist,
      BlockCost.DistHist;
    var i := 0;
    while i < |ts|
      invariant 0 <= i <= |ts| && t.Valid() && t.tokens == ts[..i] && t.w.Written() == old(t.w.Written())
    {
      assert TokenOk(ts[i]);
      match ts[i] {
        case Literal(c) => var full := t.Tally(0, c);
        case Match(len, dist) => var full := t.Tally(dist, len - MIN_MATCH);
      }
      i := i + 1;
    }
  }

  lemma SoFarStep(blocks: seq<Block>, b: Block, total: nat)
    requires AllOk(blocks) && BlockOk(b) && |blocks| < total
    ensures AllOk(blocks + [b])
    ensures var before := BitsSoFar(blocks, total);
      BitsSoFar(blocks + [b], total) == before + BlockBits(b, |blocks| == total - 1, |before|)
  {
    hide BlockOk, BlockBits;
    assert (blocks + [b])[..|blocks|] == blocks;
  }

  lemma Joined(out: seq<bool>, start: seq<bool>, bits: seq<bool>, pad: seq<bool>, bytes: seq<bool>, held: seq<bool>)
    requires bytes + held == start + (bits + pad)
    ensures out + bytes + held == out + start + bits + pad
  {
    assert out + bytes + held == out + (bytes + held);
    assert out + (start + (bits + pad)) == out + start + bits + pad;
  }

  // The output and the bits still held are those of blocks, of total in all,
  // and padding.
  ghost predicate Output(out: seq<byte>, held: seq<bool>, blocks: seq<Block>, total: nat, pad: nat) {
    && AllOk(blocks) && |blocks| <= total
    && BytesBits(out) + held == BitsSoFar(blocks, total) + BitsOf(0, pad)
  }

  // What a block adds to the bits held before it.
  ghost function Added(b: Block, last: bool, pos: nat): seq<bool>
    requires BlockOk(b)
  {
    BlockBits(b, last, pos) + BitsOf(0, if last then Padding(pos + |BlockBits(b, last, pos)|) else 0)
  }

  lemma AddedIs(b: Block, last: bool, pos: nat)
    requires BlockOk(b)
    ensures Added(b, last, pos)
         == BlockBits(b, last, pos) + BitsOf(0, if last then Padding(pos + |BlockBits(b, last, pos)|) else 0)
  {
    hide BlockBits, BlockOk, BitsOf, Padding;
  }

  lemma AddedSame(b: Block, last: bool, p: nat, q: nat)
    requires BlockOk(b) && p % 8 == q % 8
    ensures Added(b, last, p) == Added(b, last, q)
  {
    hide BitsOf, BlockBits, BlockOk, Padding;
    SameAlignment(b, last, p, q);
    SamePadding(p, q, |BlockBits(b, last, p)|);
  }

  lemma OutputBits(out: seq<byte>, held: seq<bool>, blocks: seq<Block>, total: nat)
    requires Output(out, held, blocks, total, 0)
    ensures AllOk(blocks) && |blocks| <= total && BytesBits(out) + held == BitsSoFar(blocks, total)
    ensures |BitsSoFar(blocks, total)| == 8 * |out| + |held|
  {
    NoBits(0);
    BytesSize(out);
  }

  // One more block has been put out.
  lemma OutputMore(out: seq<byte>, held0: seq<bool>, held1: seq<bool>, bytes: seq<byte>, held: seq<bool>, blocks: seq<Block>,
                   b: Block, total: nat, pos: nat, last: bool)
    requires Output(out, held0, blocks, total, 0) && |blocks| < total && BlockOk(b) && (last <==> |blocks| == total - 1)
    requires (8 * |out| + |held0|) % 8 == pos % 8 && held1 == held0 + Added(b, last, pos) && BytesBits(bytes) + held == held1
    ensures AllOk(blocks + [b])
    ensures Output(out + bytes, held, blocks + [b], total,
      if last then Padding(|BitsSoFar(blocks + [b], total)|) else 0)
  {
    hide BytesBits, BitsOf, BlockBits, BlockOk, Padding, Output, Added, BitsSoFar;
    OutputBits(out, held0, blocks, total);
    AddedSame(b, last, pos, |BitsSoFar(blocks, total)|);
    BytesBitsConcat(out, bytes);
    SoFarStep(blocks, b, total);
    OutputJoined(out + bytes, BytesBits(out), held0, held1, BytesBits(bytes), held, blocks, b, total, last);
  }

  lemma OutputJoined(more: seq<byte>, out: seq<bool>, held0: seq<bool>, held1: seq<bool>, bytes: seq<bool>, held: seq<bool>,
                     blocks: seq<Block>, b: Block, total: nat, last: bool)
    requires AllOk(blocks) && AllOk(blocks + [b]) && BlockOk(b) && |blocks| < total
    requires out + held0 == BitsSoFar(blocks, total) && BytesBits(more) == out + bytes && bytes + held == held1
    requires held1 == held0 + Added(b, last, |BitsSoFar(blocks, total)|)
    requires BitsSoFar(blocks + [b], total) == BitsSoFar(blocks, total) + BlockBits(b, last, |BitsSoFar(blocks, total)|)
    ensures Output(more, held, blocks + [b], total, if last then Padding(|BitsSoFar(blocks + [b], total)|) else 0)
  {
    hide BytesBits, BitsOf, BlockBits, BlockOk, Padding, BitsSoFar;
    var before := BitsSoFar(blocks, total);
    var bits := BlockBits(b, last, |before|);
    Joined(out, held0, bits, BitsOf(0, if last then Padding(|before| + |bits|) else 0), bytes, held);
  }

  lemma Held(w: BitWriter)
    requires w.Valid() && w.pending == 0
    ensures |w.Written()| == w.Sent()
    ensures w.bi_valid == 0 ==> w.Written() == []
  {
    BytesSize(w.buf[..w.pending]);
    BitsOfLength(w.bi_buf, w.bi_valid);
  }

  lemma StillDrained(t: TreeState)
    requires t.w.Valid() && t.w.pending == 0 && t.w.bi_valid <= 7 && t.tokens == []
    ensures CompressBlock.SymBuf(t.w.buf[..], t.lit_bufsize, t.tokens, 0)
  {
  }

  lemma AddedParts(a: seq<bool>, b: seq<bool>, c: seq<bool>)
    ensures a + b + c == a + (b + c)
  {
  }

  // The symbols of a block tallied, the block written and passed on.
  method WriteBlock(t: TreeState, out: seq<byte>, f: Flush, level: nat, fixed: bool, ghost blocks: seq<Block>, ghost total: nat)
      returns (bytes: seq<byte>, ghost b: Block)
    requires Drained(t) && Writable(f, t.lit_bufsize) && level > 0 && |blocks| < total
    requires (f.last <==> |blocks| == total - 1) && Output(out, t.w.Written(), blocks, total, 0)
    modifies t, t.w, t.w.buf, t.ltree, t.dtree, t.bl_tree, t.heap, t.depth, t.bl_count
    ensures Drained(t) && WrittenAs(f, b) && AllOk(blocks + [b])
    ensures Output(out + bytes, t.w.Written(), blocks + [b], total,
      if f.last then Padding(|BitsSoFar(blocks + [b], total)|) else 0)
    ensures f.last ==> t.w.Written() == []
  {
    hide CompressBlock.Tables, Trees.HasCodes, CompressBlock.SymBuf, BytesBits, BitsOf, BlockCost.LitHist,
      BlockCost.DistHist, BlockBits, BlockOk, HeaderBits, BodyBits, HeaderOk, Coded, Padding, Chosen, Output,
      TreeMerge.Freqs, Priced, Added, BitsSoFar, TokensOk, AllOk, Pow2;
    Held(t.w);
    ghost var pos, held0 := t.w.Sent(), t.w.Written();
    TallyAll(t, f.tokens);
    ghost var h, opt, static_bits;
    b, h, opt, static_bits := t.FlushBlock(f.data, f.have_buf, level, fixed, f.last);
    ghost var held1 := t.w.Written();
    assert held1 == held0 + Added(b, f.last, pos) by {
      AddedIs(b, f.last, pos);
      AddedParts(held0, BlockBits(b, f.last, pos), BitsOf(0, if f.last then Padding(pos + |BlockBits(b, f.last, pos)|) else 0));
    }
    bytes := FlushPending(t.w);
    StillDrained(t);
    OutputMore(out, held0, held1, bytes, t.w.Written(), blocks, b, total, pos, f.last);
    Held(t.w);
  }

  // All blocks of a stream, one after another: what comes out is the stream of
  // some encodings of these blocks, and the padding at its end.
  method WriteBlocks(t: TreeState, fs: seq<Flush>, level: nat, fixed: bool) returns (out: seq<byte>, ghost blocks: seq<Block>)
    requires Drained(t) && t.w.Written() == [] && level > 0 && fs != []
    requires forall i :: 0 <= i < |fs| ==> Writable(fs[i], t.lit_bufsize) && (fs[i].last <==> i == |fs| - 1)
    modifies t, t.w, t.w.buf, t.ltree, t.dtree, t.bl_tree, t.heap, t.depth, t.bl_count
    ensures AllWritten(fs, blocks) && AllOk(blocks)
    ensures var bits := BitsSoFar(blocks, |blocks|); BytesBits(out) == bits + BitsOf(0, Padding(|bits|))
  {
    hide BytesBits, BitsOf, BlockBits, BlockOk, Padding, BitsSoFar, Output, Writable, CompressBlock.Tables,
      Trees.HasCodes, CompressBlock.SymBuf, BlockCost.LitHist, BlockCost.DistHist, TreeMerge.Freqs;
    out, blocks := [], [];
    OutputStarts(|fs|);
    var i := 0;
    while i < |fs|
      invariant 0 <= i == |blocks| <= |fs| && Drained(t) && t.w.Valid()
      invariant forall k :: 0 <= k < i ==> WrittenAs(fs[k], blocks[k])
      invariant AllOk(blocks)
      invariant i < |fs| ==> Output(out, t.w.Written(), blocks, |fs|, 0)
      invariant i == |fs| ==> t.w.Written() == [] && Output(out, [], blocks, |fs|, Padding(|BitsSoFar(blocks, |fs|)|))
    {
      var bytes;
      ghost var b;
      bytes, b := WriteBlock(t, out, fs[i], level, fixed, blocks, |fs|);
      out, blocks := out + bytes, blocks + [b];
      i := i + 1;
    }
    OutputEnds(out, blocks, |fs|);
  }

  lemma OutputStarts(total: nat)
    ensures Output([], [], [], total, 0)
  {
    assert BytesBits([]) == [];
  }

  lemma OutputEnds(out: seq<byte>, blocks: seq<Block>, total: nat)
    requires AllOk(blocks) && |blocks| == total && Output(out, [], blocks, total, Padding(|BitsSoFar(blocks, total)|))
    ensures var bits := BitsSoFar(blocks, |blocks|); BytesBits(out) == bits + BitsOf(0, Padding(|bits|))
  {
    assert BytesBits(out) + [] == BytesBits(out);
  }

  // Whatever deflate() was given, in whatever pieces, and whichever encodings
  // its blocks were written in: inflate(), reading the output in whatever
  // pieces, finds its end and gives all the input back.
  lemma DeflateInflate(fs: seq<Flush>, blocks: seq<Block>, data: seq<byte>, output: seq<byte>, pieces: seq<Piece>)
    requires fs != [] && Replays([], fs, data) && AllWritten(fs, blocks) && AllOk(blocks)
    requires var bits := BitsSoFar(blocks, |blocks|); BytesBits(output) == bits + BitsOf(0, Padding(|bits|))
    requires pieces != [] && AllInput(pieces) == output && |data| <= AllRoom(pieces)
    ensures var c := Calls(Config(Initial(), [], 0), pieces); c.s.mode == DONE && c.s.out == data
  {
    hide BytesBits, BitsOf, BlockBits, BlockOk, Padding, BitsSoFar, BlocksBits, BlocksOk, BlocksData, Calls, Initial,
      AllWritten, Replays;
    BlocksReplay([], fs, blocks, data);
    WholeStream(blocks);
    assert blocks != [] by { SameNumber(fs, blocks); }
    PiecesRoundTrip(blocks, pieces, BitsOf(0, Padding(|BitsSoFar(blocks, |blocks|)|)));
  }

  lemma SameNumber(fs: seq<Flush>, blocks: seq<Block>)
    requires AllWritten(fs, blocks)
    ensures |fs| == |blocks|
  {
  }

  lemma WholeStream(blocks: seq<Block>)
    requires AllOk(blocks) && BlocksOk([], blocks)
    ensures BitsSoFar(blocks, |blocks|) == BlocksBits([], blocks, 0)
  {
    hide BlockBits, BlockOk, BlocksBits, BlocksOk;
    assert blocks[0..] == blocks;
    StreamBits(blocks, 0, []);
  }

  // ---- Compressing and decompressing ----

  // deflate() called for each piece of input with room for some blocks, or none,
  // and then with the flush value Z_FINISH and some more room in each call, and
  // in the end with room for blocks until all is done: what it flushes.
  method CompressAll(level: nat, strategy: Choices.Strategy, window_bits: nat, mem_level: nat, calls: seq<Piece>,
                     rooms: seq<nat>, room: nat)
      returns (fs: seq<Flush>)
    requires 1 <= level <= 9 && 9 <= window_bits <= 15 && 1 <= mem_level <= 9 && room > 0
    ensures fs != [] && Replays([], fs, AllInput(calls))
    ensures forall i :: 0 <= i < |fs| ==>
      Deflate.FlushOk(fs[i], Deflate.WindowDist(window_bits), Pow2(mem_level + 6)) && (fs[i].last <==> i == |fs| - 1)
  {
    hide *;
    var d := new Deflate.Deflate(level, strategy, window_bits, mem_level);
    var r := Deflate.NeedMore;
    var i := 0;
    AllInputNone(calls);
    while i < |calls|
      invariant 0 <= i <= |calls| && d.Open() && d.Given() == AllInput(calls[..i])
      invariant fresh(d) && fresh(d.window) && fresh(d.head) && fresh(d.prev)
    {
      AllInputMore(calls, i);
      r := d.Compress(calls[i].input, false, calls[i].room);
      i := i + 1;
    }
    assert calls[..i] == calls;
    FinishAll(d, rooms, room, window_bits);
    fs := d.fs;
  }

  lemma AllInputNone(calls: seq<Piece>)
    ensures AllInput(calls[..0]) == []
  {
  }

  lemma {:induction false} AllInputMore(calls: seq<Piece>, k: nat)
    requires k < |calls|
    ensures AllInput(calls[..k + 1]) == AllInput(calls[..k]) + calls[k].input
    decreases k
  {
    if k == 0 {
      assert calls[..1] == [calls[0]] && calls[0].input + [] == calls[0].input;
      assert AllInput([calls[0]]) == calls[0].input + AllInput([]);
    } else {
      AllInputMore(calls[1..], k - 1);
      assert calls[..k + 1][1..] == calls[1..][..k] && calls[..k][1..] == calls[1..][..k - 1];
    }
  }

  method FinishAll(d: Deflate.Deflate, rooms: seq<nat>, room: nat, ghost window_bits: nat)
    requires d.Open() && room > 0 && d.w_size == Pow2(window_bits)
    modifies d, d.window, d.head, d.prev
    ensures d.fs != [] && Replays([], d.fs, old(d.Given()))
    ensures forall i :: 0 <= i < |d.fs| ==>
      Deflate.FlushOk(d.fs[i], Deflate.WindowDist(window_bits), d.lit_bufsize) && (d.fs[i].last <==> i == |d.fs| - 1)
  {
    hide Deflate.Filled, Deflate.FlushOk, Replays, Pow2;
    var r := Deflate.NeedMore;
    var i := 0;
    while r.NeedMore?
      invariant 0 <= i <= |rooms| && d.Sizes() && d.Given() == old(d.Given())
      invariant if r.NeedMore? then d.Open() else d.Complete() && d.data == d.Given()
      decreases r.NeedMore?, |rooms| - i, |d.Given()| - (d.base + d.strstart)
    {
      assert d.Given() + [] == d.Given();
      if i < |rooms| {
        r := d.Compress([], true, rooms[i]);
        i := i + 1;
      } else {
        r := d.Compress([], true, room);
      }
    }
  }

  // What deflate() flushes can be written.
  lemma FlushIsWritable(f: Flush, max_dist: nat, lit_bufsize: nat)
    requires Deflate.FlushOk(f, max_dist, lit_bufsize) && max_dist <= 32768
    ensures Writable(f, lit_bufsize)
  {
    forall i | 0 <= i < |f.tokens| ensures TokenOk(f.tokens[i]) {
    }
  }

  // Fed to inflate() in any pieces, the output gives the data.
  ghost predicate GivesBack(output: seq<byte>, data: seq<byte>) {
    forall pieces: seq<Piece> :: pieces != [] && AllInput(pieces) == output && |data| <= AllRoom(pieces) ==>
      Decompressed(pieces, data)
  }

  ghost predicate Decompressed(pieces: seq<Piece>, data: seq<byte>) {
    var c := Calls(Config(Initial(), [], 0), pieces); c.s.mode == DONE && c.s.out == data
  }

  // The whole of a stream, compressed.
  method Compressed(level: nat, strategy: Choices.Strategy, window_bits: nat, mem_level: nat, calls: seq<Piece>,
                    rooms: seq<nat>, room: nat)
      returns (output: seq<byte>)
    requires 1 <= level <= 9 && 9 <= window_bits <= 15 && 1 <= mem_level <= 9 && room > 0
    ensures GivesBack(output, AllInput(calls))
  {
    hide Replays, Deflate.FlushOk, Pow2, Writable, Padding, BytesBits, BitsOf, BitsSoFar, BlockOk,
      CompressBlock.Tables, Trees.HasCodes, CompressBlock.SymBuf, BlockCost.LitHist, BlockCost.DistHist,
      TreeMerge.Freqs, AllWritten, Calls, Initial;
    var fs := CompressAll(level, strategy, window_bits, mem_level, calls, rooms, room);
    Deflate.WindowDistBound(window_bits);
    forall i | 0 <= i < |fs| ensures Writable(fs[i], Pow2(mem_level + 6)) {
      FlushIsWritable(fs[i], Deflate.WindowDist(window_bits), Pow2(mem_level + 6));
    }
    var t := new TreeState(mem_level);
    StartsDrained(t);
    ghost var blocks;
    output, blocks := WriteBlocks(t, fs, level, strategy.FixedCodes?);
    forall pieces: seq<Piece> | pieces != [] && AllInput(pieces) == output && |AllInput(calls)| <= AllRoom(pieces)
      ensures Decompressed(pieces, AllInput(calls))
    {
      DeflateInflate(fs, blocks, AllInput(calls), output, pieces);
    }
  }

  lemma StartsDrained(t: TreeState)
    requires t.Valid() && t.tokens == [] && t.w.Sent() == 0
    ensures Drained(t)
  {
  }

  // The round trip: data compressed in any pieces, with any settings, and the
  // output decompressed in any pieces, is the data.
  method RoundTrip(level: nat, strategy: Choices.Strategy, window_bits: nat, mem_level: nat, calls: seq<Piece>,
                   rooms: seq<nat>, room: nat, cuts: seq<Piece>, finish: seq<bool>)
      returns (output: seq<byte>, back: seq<byte>, mode: Mode)
    requires 1 <= level <= 9 && 9 <= window_bits <= 15 && 1 <= mem_level <= 9 && room > 0
    requires cuts != [] && |finish| == |cuts| && |AllInput(calls)| <= AllRoom(cuts)
    ensures mode == DONE && back == AllInput(calls)
  {
    hide Calls, Initial, AllInput, AllRoom;
    output := Compressed(level, strategy, window_bits, mem_level, calls, rooms, room);
    var pieces := Cut(output, cuts);
    assert Decompressed(pieces, AllInput(calls));
    var rest, left;
    back, mode, rest, left := InflateCall.InflateAll(pieces, finish);
  }

  // Give the data in pieces as long as those of cuts, and all that is left
  // over in the last one.
  method Cut(data: seq<byte>, cuts: seq<Piece>) returns (pieces: seq<Piece>)
    requires cuts != []
    ensures |pieces| == |cuts| && AllInput(pieces) == data && AllRoom(pieces) == AllRoom(cuts)
  {
    pieces := [];
    var rest := data;
    var i := 0;
    assert cuts[0..] == cuts;
    while i < |cuts|
      invariant 0 <= i == |pieces| <= |cuts| && AllInput(pieces) + rest == data && (i == |cuts| ==> rest == [])
      invariant AllRoom(pieces) + AllRoom(cuts[i..]) == AllRoom(cuts)
    {
      var n := |cuts[i].input|;
      if n > |rest| || i == |cuts| - 1 { n := |rest|; }
      ghost var before := pieces;
      pieces := pieces + [Piece(rest[..n], cuts[i].room)];
      PieceMore(before, Piece(rest[..n], cuts[i].room));
      assert rest[..n] + rest[n..] == rest;
      assert AllInput(before) + rest == AllInput(before) + rest[..n] + rest[n..];
      rest := rest[n..];
      i := i + 1;
    }
    assert AllInput(pieces) + [] == AllInput(pieces);
  }

  lemma {:induction false} PieceMore(pieces: seq<Piece>, p: Piece)
    ensures AllInput(pieces + [p]) == AllInput(pieces) + p.input && AllRoom(pieces + [p]) == AllRoom(pieces) + p.room
    decreases |pieces|
  {
    if pieces == [] {
      assert [p][1..] == [] && p.input + [] == p.input;
    } else {
      PieceMore(pieces[1..], p);
      assert (pieces + [p])[1..] == pieces[1..] + [p];
    }
  }
}
