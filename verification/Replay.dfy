// What the symbols that the compressor tallies stand for: expanded block by
// block, they give the input back.
module Replay {
  import opened BitWriter
  import opened Format
  import opened BlockFormat
  import InflateBlocks

  // The len bytes at place a of the data are those at place m before it.
  ghost predicate MatchAt(data: seq<byte>, a: int, m: int, len: nat) {
    0 <= m < a && a + len <= |data| && data[m..m + len] == data[a..a + len]
  }

  // The symbols ts add data[start..covered] to the data before.
  ghost predicate Adds(data: seq<byte>, start: nat, ts: seq<Token>, covered: nat) {
    && start <= covered <= |data|
    && AllExpandable(data[..start], ts) && Expand(data[..start], ts) == data[..covered]
  }

  lemma {:induction false} ExpandSnoc(out: seq<byte>, ts: seq<Token>, t: Token)
    requires AllExpandable(out, ts) && Expandable(Expand(out, ts), t)
    ensures AllExpandable(out, ts + [t]) && Expand(out, ts + [t]) == ExpandOne(Expand(out, ts), t)
    decreases |ts|
  {
    if ts == [] {
      assert [t][1..] == [];
    } else {
      ExpandSnoc(ExpandOne(out, ts[0]), ts[1..], t);
      assert (ts + [t])[1..] == ts[1..] + [t];
    }
  }

  // Copying a match byte by byte gives the bytes that were matched, even when
  // it overlaps itself.
  lemma {:induction false} CopyIs(data: seq<byte>, a: nat, len: nat, dist: nat)
    requires 1 <= dist && MatchAt(data, a, a - dist, len)
    ensures CopyBack(data[..a], len, dist) == data[..a + len]
    decreases len
  {
    if len > 0 {
      var m := a - dist;
      assert data[m..m + len][0] == data[a..a + len][0];
      assert data[m..m + len][1..] == data[m + 1..m + len] && data[a..a + len][1..] == data[a + 1..a + len];
      assert data[..a] + [data[m]] == data[..a + 1];
      CopyIs(data, a + 1, len - 1, dist);
    }
  }

  // One more literal, one more match.
  lemma AddsLiteral(data: seq<byte>, start: nat, ts: seq<Token>, covered: nat)
    requires Adds(data, start, ts, covered) && covered < |data|
    ensures Adds(data, start, ts + [Literal(data[covered])], covered + 1)
  {
    ExpandSnoc(data[..start], ts, Literal(data[covered]));
  }

  lemma AddsMatch(data: seq<byte>, start: nat, ts: seq<Token>, covered: nat, len: nat, dist: nat)
    requires Adds(data, start, ts, covered) && 1 <= dist && MatchAt(data, covered, covered - dist, len)
    ensures Adds(data, start, ts + [Match(len, dist)], covered + len)
  {
    ExpandSnoc(data[..start], ts, Match(len, dist));
    CopyIs(data, covered, len, dist);
  }

  lemma AddsNothing(data: seq<byte>, start: nat)
    requires start <= |data|
    ensures Adds(data, start, [], start)
  {
  }

  lemma AddsKept(data: seq<byte>, more: seq<byte>, start: nat, ts: seq<Token>, covered: nat)
    requires Adds(data, start, ts, covered)
    ensures Adds(data + more, start, ts, covered)
  {
    assert (data + more)[..start] == data[..start] && (data + more)[..covered] == data[..covered];
  }

  // ---- Blocks handed to _tr_flush_block() ----

  // The symbols of a block, and the bytes that they stand for when those are
  // still in the window.
  datatype Flush = Flush(tokens: seq<Token>, have_buf: bool, data: seq<byte>, last: bool)

  ghost predicate Replays(out: seq<byte>, fs: seq<Flush>, data: seq<byte>)
    decreases |fs|
  {
    if fs == [] then out == data
    else
      && AllExpandable(out, fs[0].tokens)
      && (fs[0].have_buf ==> out + fs[0].data == Expand(out, fs[0].tokens))
      && Replays(Expand(out, fs[0].tokens), fs[1..], data)
  }

  lemma {:induction false} ReplaysSnoc(out: seq<byte>, fs: seq<Flush>, data: seq<byte>, f: Flush)
    requires Replays(out, fs, data) && AllExpandable(data, f.tokens)
    requires f.have_buf ==> data + f.data == Expand(data, f.tokens)
    ensures Replays(out, fs + [f], Expand(data, f.tokens))
    decreases |fs|
  {
    if fs == [] {
      assert [f][1..] == [];
    } else {
      ReplaysSnoc(Expand(out, fs[0].tokens), fs[1..], data, f);
      assert (fs + [f])[1..] == fs[1..] + [f];
    }
  }

  // The blocks that are written for what was flushed: each in an encoding of
  // its symbols, or of its bytes where these are at hand. Only the last block
  // is marked as the last.
  ghost predicate WrittenAs(f: Flush, b: Block) {
    BlockOk(b) && if b.Stored? then f.have_buf && b.data == f.data else b.tokens == f.tokens
  }

  ghost predicate AllWritten(fs: seq<Flush>, blocks: seq<Block>) {
    |fs| == |blocks| && forall i :: 0 <= i < |fs| ==> WrittenAs(fs[i], blocks[i])
  }

  // Whatever encodings were chosen, the blocks stand for the data.
  lemma {:induction false} BlocksReplay(out: seq<byte>, fs: seq<Flush>, blocks: seq<Block>, data: seq<byte>)
    requires Replays(out, fs, data) && AllWritten(fs, blocks)
    ensures InflateBlocks.BlocksOk(out, blocks) && InflateBlocks.BlocksData(out, blocks) == data
    decreases |fs|
  {
    if fs != [] {
      assert WrittenAs(fs[0], blocks[0]);
      var next := Expand(out, fs[0].tokens);
      assert BlockExpands(out, blocks[0]) && BlockData(out, blocks[0]) == next;
      forall i | 0 <= i < |fs| - 1 ensures WrittenAs(fs[1..][i], blocks[1..][i]) {
        assert WrittenAs(fs[i + 1], blocks[i + 1]);
      }
      BlocksReplay(next, fs[1..], blocks[1..], data);
    }
  }
}
