// deflate.c: finding matches in the sliding window, and the compression
// functions that decide which symbols to tally.
module Deflate {
  import opened Bits
  import opened BitWriter
  import opened Format
  import opened Hash
  import opened HashChain
  import opened Replay
  import opened Choices

  const MIN_LOOKAHEAD: nat := 262
  const TOO_FAR: nat := 4096

  datatype BlockState = NeedMore | FinishStarted | FinishDone

  // The window begins with the data from place base on.
  ghost predicate Filled(window: seq<byte>, data: seq<byte>, base: nat) {
    base <= |data| <= base + |window| && window[..|data| - base] == data[base..]
  }

  lemma WindowByte(window: seq<byte>, data: seq<byte>, base: nat, i: nat)
    requires Filled(window, data, base) && base + i < |data|
    ensures i < |window| && window[i] == data[base + i]
  {
    assert window[..|data| - base][i] == data[base..][i];
  }

  lemma WindowSlice(window: seq<byte>, data: seq<byte>, base: nat, i: nat, j: nat)
    requires Filled(window, data, base) && i <= j && base + j <= |data|
    ensures j <= |window| && window[i..j] == data[base + i..base + j]
  {
    assert window[..|data| - base][i..j] == window[i..j] && data[base..][i..j] == data[base + i..base + j];
  }

  // Symbols with the lengths and distances that deflate() may use.
  ghost predicate Sound(ts: seq<Token>, max_dist: nat) {
    forall i :: 0 <= i < |ts| && ts[i].Match? ==> MIN_MATCH <= ts[i].len <= MAX_MATCH && 1 <= ts[i].dist <= max_dist
  }

  ghost predicate FlushOk(f: Flush, max_dist: nat, lit_bufsize: nat) {
    && Sound(f.tokens, max_dist) && |f.tokens| <= lit_bufsize - 1
    && (f.have_buf ==> |f.data| <= 65535)
  }

  // Everything flushed so far, and nothing marked as the last block.
  ghost predicate Flushed(fs: seq<Flush>, data: seq<byte>, start: nat, max_dist: nat, lit_bufsize: nat) {
    && start <= |data| && Replays([], fs, data[..start])
    && forall i :: 0 <= i < |fs| ==> FlushOk(fs[i], max_dist, lit_bufsize) && !fs[i].last
  }

  lemma FlushedKept(fs: seq<Flush>, data: seq<byte>, more: seq<byte>, start: nat, max_dist: nat, lit_bufsize: nat)
    requires Flushed(fs, data, start, max_dist, lit_bufsize)
    ensures Flushed(fs, data + more, start, max_dist, lit_bufsize)
  {
    assert (data + more)[..start] == data[..start];
  }

  lemma MatchKept(data: seq<byte>, more: seq<byte>, a: int, m: int, len: nat)
    requires MatchAt(data, a, m, len)
    ensures MatchAt(data + more, a, m, len)
  {
    assert (data + more)[m..m + len] == data[m..m + len] && (data + more)[a..a + len] == data[a..a + len];
  }

  // The hash that takes in the next byte, and rolls on.
  lemma HashNext(ins_h: nat, data: seq<byte>, a: nat, hash_bits: nat)
    requires Rolling(ins_h, data, a, hash_bits) && a + 3 <= |data|
    ensures UpdateHash(ins_h, data[a + 2], hash_bits) == HashAt(data, a, hash_bits) < Pow2(hash_bits)
    ensures Rolling(HashAt(data, a, hash_bits), data, a + 1, hash_bits)
  {
    var g := Hash2(data[a], data[a + 1], hash_bits);
    UpdateByRest(ins_h, g, data[a + 2], hash_bits);
    HashBound(g, data[a + 2], hash_bits);
    Roll(data[a], data[a + 1], data[a + 2], hash_bits);
  }

  lemma HashStarts(data: seq<byte>, a: nat, hash_bits: nat)
    ensures a + 2 <= |data| ==> Rolling(UpdateHash(data[a], data[a + 1], hash_bits), data, a, hash_bits)
  {
  }

  // The compressor's state, with what it reads and how much it may write.
  class Deflate {
    const w_size: nat
    const hash_bits: nat
    const lit_bufsize: nat
    const max_lazy_match: nat
    const good_match: nat
    const nice_match: nat
    const max_chain_length: nat
    const level: nat
    const strategy: Strategy
    const window: array<byte>
    const head: array<nat>
    const prev: array<nat>
    var ins_h: nat
    var strstart: nat
    var lookahead: nat
    var match_length: nat
    var prev_length: nat
    var match_start: int
    var match_available: bool
    var block_start: int
    // The number of symbols in the buffer.
    var sym_count: nat
    // The input that is left, and the number of blocks that can be written
    // before the space for output runs out.
    var next_in: seq<byte>
    var avail_out: nat
    // All the data read, and the place where the window starts.
    ghost var data: seq<byte>
    ghost var base: nat
    // The places inserted in the hash chains, all before top.
    ghost var ins: set<nat>
    ghost var top: nat
    // The blocks flushed, which end at place start; the symbols of the current
    // block, which end at place covered.
    var fs: seq<Flush>
    ghost var start: nat
    var ts: seq<Token>
    ghost var covered: nat
    // What was found at every place before base + strstart.
    ghost var spots: seq<Spot>

    function MaxDist(): nat
      requires w_size >= MIN_LOOKAHEAD
    {
      w_size - MIN_LOOKAHEAD
    }

    ghost predicate Sizes() {
      && 512 <= w_size <= 32768 && 8 <= hash_bits <= 16 && 128 <= lit_bufsize <= 32768
      && Tuning(good_match, max_lazy_match, nice_match, max_chain_length) == Configuration(level)
      && window.Length == 2 * w_size && head.Length == Pow2(hash_bits) && prev.Length == w_size && head != prev
    }

    // The window and the hash chains.
    ghost predicate Core()
      reads this`data, this`base, this`ins, this`top, window, head, prev
    {
      && Sizes() && Slot(base, w_size) == 0 && Filled(window[..], data, base)
      && Chained(head[..], prev[..], data, base, ins, top, w_size, hash_bits)
    }

    // Only these strategies use the hash chains.
    predicate Hashing() {
      strategy != HuffmanOnly && strategy != Rle
    }

    // How matches are looked for.
    ghost function Way(): Rules
      requires w_size >= MIN_LOOKAHEAD
    {
      Rules(strategy, level > 3 && Hashing(), Tuning(good_match, max_lazy_match, nice_match, max_chain_length), MaxDist(),
        hash_bits)
    }

    lemma CoreIs()
      requires Core()
      ensures Sizes()
    {
    }

    lemma ByteAt(i: nat)
      requires Core() && base + i < |data|
      ensures Sizes() && i < window.Length && window[i] == data[base + i]
    {
      hide Chained;
      WindowByte(window[..], data, base, i);
    }

    // The string at place a can be inserted next.
    ghost predicate Ready(a: nat)
      reads this`data, this`top, this`ins_h
    {
      top <= a && (Hashing() ==> Rolling(ins_h, data, a, hash_bits))
    }

    // INSERT_STRING()
    method InsertString(str: nat) returns (match_head: nat)
      requires Core() && Hashing() && Ready(base + str) && base + str + 3 <= |data|
      modifies this`ins_h, this`ins, this`top, head, prev
      ensures Core() && Ready(base + str + 1) && ins == old(ins) + {base + str} && top == base + str + 1
      ensures Latest(match_head, HashAt(data, base + str, hash_bits), base + str, data, base, ins, hash_bits)
    {
      hide Pow2, Hash3, Hash2, UpdateHash, Chained, Latest, Slot, Rest, Filled;
      HashNext(ins_h, data, base + str, hash_bits);
      WindowByte(window[..], data, base, str + 2);
      assert str <= 65535;  // fits in a Pos
      SlotMoved(base, str, w_size);
      ChainsInsert(head[..], prev[..], data, base, ins, top, w_size, hash_bits, str);
      ChainLengths(head[..], prev[..], data, base, ins, top, w_size, hash_bits);
      ins_h := UpdateHash(ins_h, window[str + 2], hash_bits);
      match_head := head[ins_h];
      prev[Slot(str, w_size)] := match_head;
      head[ins_h] := str;
      ins, top := ins + {base + str}, base + str + 1;
    }

    // slide_hash()
    method SlideHash()
      requires Sizes()
      modifies head, prev
      ensures AllSlid(old(head[..]), head[..], w_size) && AllSlid(old(prev[..]), prev[..], w_size)
    {
      hide Pow2;
      var n := head.Length;
      while n > 0
        invariant 0 <= n <= head.Length
        invariant forall i :: 0 <= i < n ==> head[i] == old(head[i])
        invariant forall i :: n <= i < head.Length ==> head[i] == Slid(old(head[i]), w_size)
        invariant prev[..] == old(prev[..])
      {
        n := n - 1;
        var m := head[n];
        head[n] := if m >= w_size then m - w_size else 0;
      }
      n := w_size;
      while n > 0
        invariant 0 <= n <= prev.Length
        invariant forall i :: 0 <= i < n ==> prev[i] == old(prev[i])
        invariant forall i :: n <= i < prev.Length ==> prev[i] == Slid(old(prev[i]), w_size)
        invariant AllSlid(old(head[..]), head[..], w_size)
      {
        n := n - 1;
        var m := prev[n];
        prev[n] := if m >= w_size then m - w_size else 0;
      }
    }

    // ---- longest_match() ----

    // Compare the string at cur with the one at strstart, after a quick look
    // at the bytes that would make a match longer than best_len. The third
    // bytes are not compared: the hashes are equal. Returns zero when the quick
    // look fails, else the length of the match, in the bytes of the window.
    method Compare(cur: nat, best_len: nat) returns (len: nat)
      requires Core() && 1 <= best_len <= MAX_MATCH && cur < strstart <= 2 * w_size - MIN_LOOKAHEAD
      requires base + strstart + 3 <= |data|
      requires HashAt(data, base + cur, hash_bits) == HashAt(data, base + strstart, hash_bits)
      ensures len <= MAX_MATCH && Alike(window[..], cur, strstart, len)
      ensures NoLonger(data, base + strstart, base + cur, if len > best_len then len else best_len)
    {
      hide Pow2, Hash3, Chained, Slot, Filled, NoLonger, Alike;
      ghost var win := window[..];
      NotAlike(win, cur, strstart);
      DiffersAt(win, data, base, strstart, cur, best_len, best_len);
      DiffersAt(win, data, base, strstart, cur, best_len, best_len - 1);
      DiffersAt(win, data, base, strstart, cur, best_len, 0);
      DiffersAt(win, data, base, strstart, cur, best_len, 1);
      if window[cur + best_len] != window[strstart + best_len] || window[cur + best_len - 1] != window[strstart + best_len - 1]
        || window[cur] != window[strstart] || window[cur + 1] != window[strstart + 1]
      {
        return 0;
      }
      ThirdToo(win, data, base, strstart, cur, hash_bits);
      len := Scan(cur);
      NoLongerMax(data, base + strstart, base + cur, len, best_len);
    }

    // Compare from the fourth byte on.
    method Scan(cur: nat) returns (len: nat)
      requires Core() && cur < strstart <= 2 * w_size - MIN_LOOKAHEAD && Alike(window[..], cur, strstart, 3)
      ensures 3 <= len <= MAX_MATCH && Alike(window[..], cur, strstart, len)
      ensures NoLonger(data, base + strstart, base + cur, len)
    {
      hide Pow2, Chained, Slot, Filled, NoLonger, Alike;
      ghost var win := window[..];
      len := 3;
      while len < MAX_MATCH && window[strstart + len] == window[cur + len]
        invariant 3 <= len <= MAX_MATCH && Alike(win, cur, strstart, len)
      {
        AlikeMore(win, cur, strstart, len);
        len := len + 1;
      }
      if len < MAX_MATCH {
        DiffersAt(win, data, base, strstart, cur, len, len);
      } else {
        NoLongerThanMax(data, base + strstart, base + cur, len);
      }
    }

    // The number of strings that may be compared.
    ghost function Tries(): (n: nat)
      requires Sizes()
      reads this`prev_length
      ensures n >= 1
    {
      TriesFor(Way().tuning, prev_length)
    }

    // A match is being looked for at strstart.
    ghost predicate Searching()
      reads this`data, this`base, this`ins, this`top, this`strstart, this`prev_length, window, head, prev
    {
      && Core() && base + strstart + 3 <= |data| && strstart <= 2 * w_size - MIN_LOOKAHEAD
      && top == base + strstart + 1 && 1 <= prev_length <= MAX_MATCH
    }

    // Compare the strings on the chain from cur on that come after limit.
    method Search(hash_head: nat, limit: nat, tries: nat, nice: nat) returns (best_len: nat, ghost from: nat, ghost seen: set<nat>)
      requires Searching() && tries >= 1 && limit == (if strstart > MaxDist() then strstart - MaxDist() else 0)
      requires Latest(hash_head, HashAt(data, base + strstart, hash_bits), base + strstart, data, base, ins, hash_bits)
      requires hash_head > 0 && strstart - hash_head <= MaxDist()
      modifies this`match_start
      ensures prev_length <= best_len <= MAX_MATCH
      ensures best_len > prev_length ==>
        0 <= match_start && strstart - match_start <= MaxDist() && Alike(window[..], match_start, strstart, best_len)
      ensures Looked(data, base + strstart, HashAt(data, base + strstart, hash_bits), base, ins, hash_bits, from, seen, best_len)
      ensures |seen| <= tries
      ensures from <= base + limit + 1 || best_len >= nice || |seen| == tries
    {
      hide Pow2, Hash3, Chained, Slot, Filled, Latest, Looked, Alike, MatchAt;
      var cur, chain_length := hash_head, tries;
      best_len := prev_length;
      ghost var a, h, win := base + strstart, HashAt(data, base + strstart, hash_bits), window[..];
      from, seen := base + cur + 1, {};
      LookedStart(data, a, h, base, ins, hash_bits, cur, best_len);
      ChainLengths(head[..], prev[..], data, base, ins, top, w_size, hash_bits);
      while true
        invariant 0 < cur < strstart && strstart - cur <= MaxDist()
        invariant base + cur in ins && HashAt(data, base + cur, hash_bits) == h
        invariant prev_length <= best_len <= MAX_MATCH
        invariant best_len > prev_length ==>
          0 <= match_start && strstart - match_start <= MaxDist() && Alike(win, match_start, strstart, best_len)
        invariant from == base + cur + 1 && Looked(data, a, h, base, ins, hash_bits, from, seen, best_len)
        invariant chain_length >= 1 && |seen| + chain_length == tries
        decreases cur
      {
        var len := Compare(cur, best_len);
        LookedAt(data, a, h, base, ins, hash_bits, cur, seen, best_len, if len > best_len then len else best_len);
        from, seen := base + cur, seen + {base + cur};
        if len > best_len {
          match_start := cur;
          best_len := len;
          if len >= nice { break; }
        }
        NextOnChain(head[..], prev[..], data, base, ins, top, w_size, hash_bits, cur);
        LookedNext(data, a, h, base, ins, hash_bits, cur, prev[Slot(cur, w_size)], seen, best_len);
        cur := prev[Slot(cur, w_size)];
        from := base + cur + 1;
        if cur <= limit { break; }
        chain_length := chain_length - 1;
        if chain_length == 0 { break; }
      }
    }

    // Find a match longer than prev_length. The strings with the same hash are
    // compared from the latest back to place from; these are the places seen.
    method LongestMatch(hash_head: nat) returns (r: nat, ghost from: nat, ghost seen: set<nat>)
      requires Searching() && base + strstart + lookahead == |data|
      requires Latest(hash_head, HashAt(data, base + strstart, hash_bits), base + strstart, data, base, ins, hash_bits)
      requires hash_head > 0 && strstart - hash_head <= MaxDist()
      modifies this`match_start
      ensures r <= lookahead
      ensures r > prev_length ==>
        r <= MAX_MATCH && strstart - match_start <= MaxDist() && MatchAt(data, base + strstart, base + match_start, r)
      ensures r <= prev_length ==> r == Minimum(prev_length, lookahead)
      ensures Looked(data, base + strstart, HashAt(data, base + strstart, hash_bits), base, ins, hash_bits, from, seen,
        if r > prev_length then r else prev_length)
      ensures |seen| <= Tries()
      ensures from <= base + 1 || from + MaxDist() <= base + strstart + 1 || r >= Minimum(nice_match, lookahead) || |seen| == Tries()
    {
      hide Pow2, Hash3, Chained, Slot, Filled, Latest, Looked, Alike, MatchAt, NoLonger;
      var chain_length := max_chain_length;
      var limit := if strstart > MaxDist() then strstart - MaxDist() else 0;
      if prev_length >= good_match { chain_length := chain_length / 4; }
      var nice := nice_match;
      if nice > lookahead { nice := lookahead; }
      var best_len;
      best_len, from, seen := Search(hash_head, limit, chain_length, nice);
      r := if best_len <= lookahead then best_len else lookahead;
      if best_len > prev_length { AlikeMatch(window[..], data, base, match_start, strstart, best_len, r); }
      LookedCut(data, base + strstart, HashAt(data, base + strstart, hash_bits), base, ins, hash_bits, from, seen, best_len,
        lookahead, if r > prev_length then r else prev_length);
    }

    // ---- The input read and the symbols tallied ----

    // What was flushed and tallied stands for the data before place covered.
    ghost predicate Story()
      requires Sizes()
      reads this`data, this`base, this`start, this`ts, this`covered, this`fs, this`sym_count, this`block_start
    {
      && Adds(data, start, ts, covered) && Sound(ts, MaxDist()) && Flushed(fs, data, start, MaxDist(), lit_bufsize)
      && start == base + block_start && sym_count == |ts| <= lit_bufsize - 1
    }

    // Lazy evaluation: there was a match for the string before.
    ghost predicate Pending()
      requires Sizes()
      reads this`data, this`base, this`strstart, this`match_length, this`match_start, this`match_available
    {
      match_length >= MIN_MATCH ==>
        && match_available && match_length <= MAX_MATCH && strstart - 1 - match_start <= MaxDist()
        && MatchAt(data, base + strstart - 1, base + match_start, match_length)
    }

    // The record of all places explains all symbols.
    ghost predicate Explained()
      requires Sizes()
      reads this`data, this`base, this`strstart, this`covered, this`fs, this`ts, this`ins, this`spots
    {
      Told(Way(), data, spots, AllTokens(fs) + ts, covered, base + strstart, ins)
    }

    // It has the match that lazy evaluation keeps.
    ghost predicate Logged()
      requires Sizes()
      reads this`data, this`base, this`strstart, this`covered, this`fs, this`ts, this`ins, this`spots
      reads this`match_available, this`match_length, this`match_start
    {
      && Explained() && Near()
      && (Way().lazy ==> Waiting(spots, match_available, match_length, strstart - 1 - match_start))
    }

    // The window has not moved further than matches reach back.
    ghost predicate Near()
      requires Sizes()
      reads this`base, this`strstart
    {
      base == 0 || strstart >= MaxDist()
    }

    // A search at strstart has left s; was are the places inserted before it.
    ghost predicate Found(s: Spot, was: set<nat>)
      requires Sizes()
      reads this`data, this`base, this`strstart, this`covered, this`fs, this`ts, this`ins, this`spots
    {
      && Told(Way(), data, spots, AllTokens(fs) + ts, covered, base + strstart, was)
      && SpotOk(Way(), data, spots, s) && s.Searched? && s.end == |data| && Near()
      && (Hashing() ==> ins == was + Here(Way(), s, base + strstart))
    }

    // Between the steps of a compression function, but for the symbol buffer
    // that may be full.
    ghost predicate Between()
      reads this, window, head, prev
    {
      && Core() && Ready(base + strstart) && Story() && base + strstart + lookahead == |data|
      && covered + (if match_available then 1 else 0) == base + strstart && (match_available ==> strstart > 0)
      && Pending() && Logged()
    }

    ghost predicate Valid()
      reads this, window, head, prev
    {
      Between() && sym_count < lit_bufsize - 1
    }

    // Move the upper half of the window down, and all positions with it.
    method SlideWindow()
      requires Core() && base + strstart + lookahead == |data| && strstart >= w_size + MaxDist()
      modifies this`strstart, this`match_start, this`block_start, this`base, window, head, prev
      ensures Core() && base == old(base) + w_size && strstart == old(strstart) - w_size
      ensures match_start == old(match_start) - w_size && block_start == old(block_start) - w_size
    {
      hide Pow2, Chained, Slot, Filled;
      ghost var win, hd, pv := window[..], head[..], prev[..];
      FilledSize(win, data, base);
      var more := 2 * w_size - lookahead - strstart;
      forall i | 0 <= i < w_size - more { window[i] := window[w_size + i]; }
      FilledSlides(win, window[..], data, base, w_size, w_size - more);
      match_start := match_start - w_size;
      strstart := strstart - w_size;
      block_start := block_start - w_size;
      SlideHash();
      SlotMoved(base, 0, w_size);
      ChainsSlide(hd, pv, head[..], prev[..], data, base, ins, top, w_size, hash_bits);
      base := base + w_size;
    }

    // read_buf()
    method ReadBuf(at: nat, size: nat) returns (n: nat)
      requires Core() && base + at == |data| && at + size <= 2 * w_size
      modifies this`data, this`next_in, window
      ensures Core() && n == Minimum(|old(next_in)|, size)
      ensures data == old(data) + old(next_in)[..n] && next_in == old(next_in)[n..]
    {
      hide Pow2, Chained, Slot, Filled;
      ghost var win, hd, pv := window[..], head[..], prev[..];
      n := |next_in|;
      if n > size { n := size; }
      forall i | 0 <= i < n { window[at + i] := next_in[i]; }
      FilledMore(win, window[..], data, base, next_in[..n], at);
      ChainsKept(hd, pv, data, next_in[..n], base, ins, top, w_size, hash_bits);
      assert head[..] == hd && prev[..] == pv;
      data := data + next_in[..n];
      next_in := next_in[n..];
    }

    // fill_window(): the positions move, but they stand for the same places.
    method FillWindow()
      requires Valid() && lookahead < MIN_LOOKAHEAD
      modifies this`strstart, this`match_start, this`block_start, this`lookahead, this`ins_h, this`base, this`data, this`next_in
      modifies window, head, prev
      ensures Valid() && strstart <= 2 * w_size - MIN_LOOKAHEAD && (lookahead >= MIN_LOOKAHEAD || next_in == [])
      ensures base + strstart == old(base + strstart) && data + next_in == old(data + next_in)
    {
      hide Pow2, Chained, Slot, Filled, Adds, Sound, Flushed, Rolling, MatchAt, Told, Waiting;
      while true
        invariant Valid() && lookahead < MIN_LOOKAHEAD
        invariant base + strstart == old(base + strstart) && data + next_in == old(data + next_in)
        decreases |next_in|
      {
        FilledSize(window[..], data, base);
        var more := 2 * w_size - lookahead - strstart;
        if strstart >= w_size + MaxDist() {
          SlideWindow();
          more := more + w_size;
        }
        if next_in == [] { return; }
        FillOnce(more);
        if !(lookahead < MIN_LOOKAHEAD && next_in != []) { break; }
      }
      FilledSize(window[..], data, base);
    }

    // Read as much as fits, and start the hash again.
    method FillOnce(more: nat)
      requires Valid() && more == 2 * w_size - lookahead - strstart
      modifies this`lookahead, this`ins_h, this`data, this`next_in, window
      ensures Valid() && data + next_in == old(data + next_in)
      ensures |next_in| == |old(next_in)| - Minimum(|old(next_in)|, more) && lookahead == old(lookahead) + Minimum(|old(next_in)|, more)
    {
      hide Pow2, Chained, Slot, Filled, Adds, Sound, Flushed, Rolling, MatchAt, UpdateHash, Told, Waiting;
      ghost var before, new_data := data, next_in[..Minimum(|next_in|, more)];
      StoryKept(new_data);
      ToldKept(Way(), data, new_data, spots, AllTokens(fs) + ts, covered, base + strstart, ins);
      ReadMore(before, next_in, |new_data|);
      var n := ReadBuf(strstart + lookahead, more);
      lookahead := lookahead + n;
      HashAgain();
    }

    // Start the hash with the bytes at strstart.
    method HashAgain()
      requires Core() && base + strstart + lookahead == |data|
      modifies this`ins_h
      ensures Rolling(ins_h, data, base + strstart, hash_bits)
    {
      hide Pow2, Chained, Slot, Filled, Rolling, UpdateHash;
      if lookahead >= MIN_MATCH {
        HashStarts(data, base + strstart, hash_bits);
        WindowByte(window[..], data, base, strstart);
        WindowByte(window[..], data, base, strstart + 1);
        ins_h := window[strstart];
        ins_h := UpdateHash(ins_h, window[strstart + 1], hash_bits);
      } else {
        NoRolling(ins_h, data, base + strstart, hash_bits);
      }
    }

    // What is known of the data stays known when there is more.
    lemma StoryKept(more: seq<byte>)
      requires Sizes() && Story() && Pending()
      ensures Adds(data + more, start, ts, covered) && Flushed(fs, data + more, start, MaxDist(), lit_bufsize)
      ensures MatchAt(data, base + strstart - 1, base + match_start, match_length) ==>
        MatchAt(data + more, base + strstart - 1, base + match_start, match_length)
    {
      hide Pow2, Adds, Sound, Flushed, MatchAt;
      AddsKept(data, more, start, ts, covered);
      FlushedKept(fs, data, more, start, MaxDist(), lit_bufsize);
      if MatchAt(data, base + strstart - 1, base + match_start, match_length) {
        MatchKept(data, more, base + strstart - 1, base + match_start, match_length);
      }
    }

    // Put a symbol into the buffer: a literal when dist is zero, else a match of
    // length lc + MIN_MATCH.
    method Tally(dist: nat, lc: byte) returns (full: bool)
      requires Sizes() && Story() && sym_count < lit_bufsize - 1
      requires if dist == 0 then covered < |data| && data[covered] == lc
        else dist <= MaxDist() && lc + MIN_MATCH <= MAX_MATCH && MatchAt(data, covered, covered - dist, lc + MIN_MATCH)
      modifies this`ts, this`sym_count, this`covered
      ensures Story() && covered == old(covered) + (if dist == 0 then 1 else lc + MIN_MATCH)
      ensures ts == old(ts) + [if dist == 0 then Literal(lc) else Match(lc + MIN_MATCH, dist)]
      ensures sym_count == old(sym_count) + 1 <= lit_bufsize - 1 && (full <==> sym_count == lit_bufsize - 1)
    {
      hide Adds, Flushed, MatchAt;
      if dist == 0 {
        AddsLiteral(data, start, ts, covered);
        ts := ts + [Literal(lc)];
        covered := covered + 1;
      } else {
        AddsMatch(data, start, ts, covered, lc + MIN_MATCH, dist);
        ts := ts + [Match(lc + MIN_MATCH, dist)];
        covered := covered + lc + MIN_MATCH;
      }
      sym_count := sym_count + 1;
      full := sym_count == lit_bufsize - 1;
    }

    // The bytes of the block can be sent in a stored block, if they are still in
    // the window.
    predicate Short()
      reads this`strstart, this`block_start
    {
      block_start >= 0 ==> strstart - block_start <= 65535
    }

    // FLUSH_BLOCK_ONLY(): hand the block to _tr_flush_block(), with its bytes if
    // they are still in the window.
    method FlushBlockOnly(last: bool)
      requires Core() && Story() && covered == base + strstart && Short() && avail_out > 0
      modifies this`fs, this`start, this`ts, this`sym_count, this`block_start, this`avail_out
      ensures ts == [] && start == covered && sym_count == 0 && block_start == strstart && avail_out == old(avail_out) - 1
      ensures var f := Flush(old(ts), old(block_start) >= 0, if old(block_start) >= 0 then data[old(start)..start] else [], last);
        fs == old(fs) + [f] && FlushOk(f, MaxDist(), lit_bufsize)
      ensures AllTokens(fs) + ts == old(AllTokens(fs) + ts)
      ensures Replays([], fs, data[..start]) && (!last ==> Story())
    {
      hide Pow2, Chained, Slot, Filled, Replays, AllExpandable, Expand, AllTokens;
      var f := Flush(ts, block_start >= 0, [], last);
      if block_start >= 0 {
        WindowSlice(window[..], data, base, block_start, strstart);
        f := f.(data := window[block_start..strstart]);
        FlushData(data, start, ts, covered);
      }
      ReplaysSnoc([], fs, data[..start], f);
      AddsNothing(data, covered);
      AllTokensMore(fs, f);
      fs, ts, sym_count := fs + [f], [], 0;
      start := covered;
      block_start := strstart;
      avail_out := avail_out - 1;
    }

    // FLUSH_BLOCK(s, 0)
    method FlushBlock()
      requires Between() && !match_available && Short() && avail_out > 0
      modifies this`fs, this`start, this`ts, this`sym_count, this`block_start, this`avail_out
      ensures Valid() && old(fs) <= fs && avail_out == old(avail_out) - 1 && sym_count == 0 && start == covered
    {
      hide Pow2, Chained, Slot, Filled, Rolling, MatchAt, Adds, Sound, Flushed, FlushOk, Replays, Told, Waiting,
        AllTokens;
      FlushBlockOnly(false);
    }

    // What is so when all input has been compressed: the flushed blocks, of
    // which only the last is marked, stand for all the data.
    ghost predicate Complete()
      requires Sizes()
      reads this`fs, this`data
    {
      && fs != [] && Replays([], fs, data)
      && forall i :: 0 <= i < |fs| ==> FlushOk(fs[i], MaxDist(), lit_bufsize) && (fs[i].last <==> i == |fs| - 1)
    }

    // FLUSH_BLOCK(s, 1) at the end of the input.
    method FlushLast() returns (r: BlockState)
      requires Core() && Story() && covered == base + strstart == |data| && Explained() && Short() && avail_out > 0
      modifies this`fs, this`start, this`ts, this`sym_count, this`block_start, this`avail_out
      ensures Sizes() && Complete() && old(fs) <= fs && r == (if avail_out == 0 then FinishStarted else FinishDone)
      ensures Explained() && covered == |data|
    {
      hide Pow2, Chained, Slot, Filled, Replays, AllExpandable, Expand, Adds, Rolling, MatchAt, FlushOk, Told, Waiting,
        AllTokens;
      assert data[..|data|] == data;
      FlushBlockOnly(true);
      r := if avail_out == 0 then FinishStarted else FinishDone;
    }

    // The place reached: beyond the place before, if blocks were flushed until
    // the output space ran out.
    ghost predicate Further(before: int)
      reads this`base, this`strstart, this`avail_out
    {
      base + strstart >= before && (avail_out == 0 ==> base + strstart > before)
    }

    lemma Bounds()
      requires Valid()
      ensures Sizes() && base + strstart + lookahead == |data| <= base + 2 * w_size && |spots| == base + strstart
      ensures Explained() && lookahead <= |data|
    {
      ToldIns(Way(), data, spots, AllTokens(fs) + ts, covered, base + strstart, ins);
      hide Pow2, Chained, Filled, Slot, Story, Pending, Ready, Told, InsertedBy, AllTokens;
      WindowRoom(window[..], data, base);
    }

    // Make sure that there is enough lookahead, unless the input ends; stop says
    // that more input is needed first.
    method Refill(least: nat, finish: bool) returns (stop: bool)
      requires Valid() && least <= MIN_LOOKAHEAD
      modifies this`strstart, this`match_start, this`block_start, this`lookahead, this`ins_h, this`base, this`data, this`next_in
      modifies window, head, prev
      ensures Valid() && strstart <= 2 * w_size - least && base + strstart + lookahead == |data| && |spots| == base + strstart
      ensures base + strstart == old(base + strstart) && data + next_in == old(data + next_in)
      ensures stop ==> next_in == [] && !finish && Explained()
      ensures !stop ==> lookahead >= least || (finish && next_in == [])
    {
      hide Valid, Between, Explained;
      stop := false;
      if lookahead < least {
        FillWindow();
        if lookahead < least && !finish { stop := true; }
      }
      Bounds();
    }

    lemma RoomLeft()
      requires Between() && sym_count != lit_bufsize - 1
      ensures Valid()
    {
      hide Core, Pending, Logged, Ready;
    }

    // At the end of the input, with nothing that waits.
    lemma Ending()
      requires Valid() && !match_available && lookahead == 0
      ensures Core() && Story() && covered == base + strstart == |data| && Explained()
    {
    }

    // ---- deflate_fast() ----

    // No match waits for a better one.
    ghost predicate Eager()
      reads this`match_available, this`match_length, this`prev_length
    {
      Hashing() && level <= 3 && !match_available && match_length < MIN_MATCH && prev_length == MIN_MATCH - 1
    }

    // Insert the strings inside a match.
    method FastInsert()
      requires Core() && Hashing() && Ready(base + strstart + 1) && match_length >= 1
      requires base + strstart + match_length + 1 + MIN_MATCH <= |data|
      modifies this`ins_h, this`ins, this`top, this`match_length, this`strstart, head, prev
      ensures Core() && Ready(base + strstart + 1) && strstart == old(strstart + match_length) && match_length == 0
      ensures ins == old(ins) + Places(base + old(strstart) + 1, old(match_length))
    {
      hide Pow2, Chained, Slot, Filled, Rolling, Latest, Places;
      PlacesMore(base + strstart + 1, 0);
      while true
        invariant Core() && Ready(base + strstart + 1) && match_length >= 1
        invariant strstart + match_length == old(strstart + match_length) && old(strstart) <= strstart
        invariant ins == old(ins) + Places(base + old(strstart) + 1, strstart - old(strstart))
        decreases match_length
      {
        strstart := strstart + 1;
        var hash_head := InsertString(strstart);
        PlacesMore(base + old(strstart) + 1, strstart - old(strstart) - 1);
        match_length := match_length - 1;
        if match_length == 0 { break; }
      }
    }

    // Go on behind a match.
    method FastSkip()
      requires Core() && Hashing() && Ready(base + strstart + 1) && base + strstart + match_length + lookahead == |data|
      requires match_length >= MIN_MATCH && strstart + match_length <= 2 * w_size - 4 && !Way().lazy
      modifies this`ins_h, this`ins, this`top, this`match_length, this`strstart, head, prev
      ensures Core() && Ready(base + strstart) && strstart == old(strstart + match_length) && match_length == 0
      ensures var a, len := base + old(strstart), old(match_length);
        ins == old(ins) + Inside(Way(), a + 1, len - 1, a, len, |data|)
    {
      hide Pow2, Chained, Slot, Filled, Rolling, Latest, UpdateHash, Inside, Places;
      InsideEager(Way(), base + strstart, match_length, |data|);
      if match_length <= max_lazy_match && lookahead >= MIN_MATCH {
        match_length := match_length - 1;
        FastInsert();
        strstart := strstart + 1;
      } else {
        HashStarts(data, base + strstart + match_length, hash_bits);
        if lookahead >= 2 {
          WindowByte(window[..], data, base, strstart + match_length);
          WindowByte(window[..], data, base, strstart + match_length + 1);
        }
        strstart := strstart + match_length;
        match_length := 0;
        ins_h := window[strstart];
        ins_h := UpdateHash(ins_h, window[strstart + 1], hash_bits);
        if lookahead < 2 { NoRolling(ins_h, data, base + strstart, hash_bits); }
      }
    }

    // Insert the string at strstart, if there are enough bytes for one.
    method InsertNext() returns (hash_head: nat)
      requires Core() && Hashing() && Ready(base + strstart) && base + strstart + lookahead == |data|
      modifies this`ins_h, this`ins, this`top, head, prev
      ensures Core() && Ready(base + strstart + 1) && (lookahead < MIN_MATCH ==> hash_head == 0)
      ensures ins == old(ins) + if lookahead >= MIN_MATCH then {base + strstart} else {}
      ensures lookahead >= MIN_MATCH ==>
        && top == base + strstart + 1
        && Latest(hash_head, HashAt(data, base + strstart, hash_bits), base + strstart, data, base, ins, hash_bits)
    {
      hide Pow2, Chained, Slot, Filled, Rolling, Latest;
      hash_head := 0;
      if lookahead >= MIN_MATCH {
        hash_head := InsertString(strstart);
      } else {
        NoRolling(ins_h, data, base + strstart + 1, hash_bits);
      }
    }

    // The record of a search at strstart that was not due, or of one that was,
    // with what longest_match() returned.
    ghost function Unsearched(): Spot
      reads this`data, this`base, this`prev_length
    {
      Searched(|data|, base, prev_length, 0, 0, 0, 0, {})
    }

    ghost function SearchedFor(r: nat, from: nat, seen: set<nat>): Spot
      requires w_size >= MIN_LOOKAHEAD
      reads this`data, this`base, this`prev_length, this`strstart, this`match_start
    {
      var dist := if strstart >= match_start then strstart - match_start else 0;
      Searched(|data|, base, prev_length, r, if r > prev_length && !Dropped(Way(), r, dist) then r else 0, dist, from, seen)
    }

    // What is known when the string at strstart has been inserted: the record up to
    // there, the length to beat, and the head of the chain.
    ghost predicate Inserting(hash_head: nat)
      requires Sizes()
      reads this`data, this`base, this`strstart, this`lookahead, this`ins, this`spots, this`prev_length
    {
      && Hashing() && base + strstart + lookahead == |data| && lookahead > 0 && |spots| == base + strstart && Near()
      && prev_length == ToBeat(Way(), spots)
      && ins == InsertedBy(Way(), spots) + (if lookahead >= MIN_MATCH then {base + strstart} else {})
      && (lookahead >= MIN_MATCH ==>
            Latest(hash_head, HashAt(data, base + strstart, hash_bits), base + strstart, data, base, ins, hash_bits))
    }

    lemma NotDue(hash_head: nat)
      requires Sizes() && Inserting(hash_head)
      requires lookahead < MIN_MATCH || hash_head == 0 || strstart - hash_head > MaxDist() || prev_length >= max_lazy_match
      ensures SpotOk(Way(), data, spots, Unsearched())
    {
      hide InsertedBy, Latest, Hash3, ToBeat, Configuration, Pow2;
      SpotFound(Way(), data, spots, Unsearched(), hash_head);
    }

    lemma WasDue(hash_head: nat, r: nat, from: nat, seen: set<nat>)
      requires Sizes() && Inserting(hash_head) && lookahead >= MIN_MATCH
      requires hash_head > 0 && strstart - hash_head <= MaxDist() && prev_length < max_lazy_match
      requires r <= lookahead && (r <= prev_length ==> r == Minimum(prev_length, lookahead))
      requires r > prev_length ==>
        r <= MAX_MATCH && strstart - match_start <= MaxDist() && MatchAt(data, base + strstart, base + match_start, r)
      requires Looked(data, base + strstart, HashAt(data, base + strstart, hash_bits), base, ins, hash_bits, from, seen,
        if r > prev_length then r else prev_length)
      requires |seen| <= Tries()
      requires from <= base + 1 || from + MaxDist() <= base + strstart + 1 || r >= Minimum(nice_match, lookahead) || |seen| == Tries()
      ensures SpotOk(Way(), data, spots, SearchedFor(r, from, seen))
    {
      hide InsertedBy, Latest, Hash3, ToBeat, Configuration, Pow2, Looked, MatchAt;
      MatchBounds(data, base + strstart, base + match_start, r);
      SpotFound(Way(), data, spots, SearchedFor(r, from, seen), hash_head);
    }

    // Look for a match at strstart.
    method FastFind() returns (ghost s: Spot)
      requires Core() && Ready(base + strstart) && base + strstart + lookahead == |data| && lookahead > 0
      requires Eager() && strstart <= 2 * w_size - MIN_LOOKAHEAD && Logged()
      modifies this`ins_h, this`ins, this`top, this`match_length, this`match_start, head, prev
      ensures Core() && Ready(base + strstart + 1) && match_length <= MAX_MATCH
      ensures match_length >= MIN_MATCH ==>
        strstart - match_start <= MaxDist() && MatchAt(data, base + strstart, base + match_start, match_length)
      ensures Found(s, old(ins))
      ensures if match_length >= MIN_MATCH then s.len == match_length && s.dist == strstart - match_start else s.len == 0
    {
      hide Core, Story, Pow2, Chained, Slot, Filled, Configuration, Rolling, Latest, MatchAt, Told, InsertedBy,
        SpotOk, Here, ToBeat;
      EagerBeats(Way(), spots);
      CoreIs();
      ToldIns(Way(), data, spots, AllTokens(fs) + ts, covered, base + strstart, ins);
      var hash_head := InsertNext();
      s := FastSearch(hash_head);
      HereIs(Way(), s, base + strstart);
    }

    // Look for a match, if one is due.
    method FastSearch(hash_head: nat) returns (ghost s: Spot)
      requires Core() && Eager() && Inserting(hash_head) && strstart <= 2 * w_size - MIN_LOOKAHEAD
      requires lookahead >= MIN_MATCH ==> top == base + strstart + 1
      requires lookahead < MIN_MATCH ==> hash_head == 0
      modifies this`match_length, this`match_start
      ensures match_length <= MAX_MATCH
      ensures match_length >= MIN_MATCH ==>
        strstart - match_start <= MaxDist() && MatchAt(data, base + strstart, base + match_start, match_length)
      ensures SpotOk(Way(), data, spots, s) && s.Searched? && s.end == |data|
      ensures if match_length >= MIN_MATCH then s.len == match_length && s.dist == strstart - match_start else s.len == 0
    {
      hide Pow2, Chained, Slot, Filled, Latest, Looked, MatchAt, InsertedBy, SpotOk, Configuration, ToBeat;
      TuningIs();
      if hash_head != 0 && strstart - hash_head <= MaxDist() {
        ghost var from, seen;
        match_length, from, seen := LongestMatch(hash_head);
        WasDue(hash_head, match_length, from, seen);
        MatchBounds(data, base + strstart, base + match_start, match_length);
        s := SearchedFor(match_length, from, seen);
      } else {
        NotDue(hash_head);
        s := Unsearched();
      }
    }

    lemma TuningIs()
      requires Sizes()
      ensures max_lazy_match >= MIN_MATCH && max_chain_length >= 4
    {
    }

    // Tally a match or a literal.
    method FastStep() returns (bflush: bool)
      requires Valid() && Eager() && lookahead > 0 && strstart <= 2 * w_size - MIN_LOOKAHEAD
      modifies this`ins_h, this`ins, this`top, this`match_length, this`match_start, this`lookahead, this`strstart
      modifies this`ts, this`sym_count, this`covered, this`spots, head, prev
      ensures Between() && Eager() && strstart <= 2 * w_size - 4 && strstart > old(strstart)
      ensures bflush <==> sym_count == lit_bufsize - 1
      ensures OneSearch(old(spots), spots, |data|)
    {
      hide Core, Story, Pow2, Chained, Slot, Filled, Configuration, Rolling, MatchAt, Adds, Sound, Flushed, Told,
        SpotOk, Here, AllTokens, OneSearch;
      CoreIs();
      ghost var s := FastFind();
      if match_length >= MIN_MATCH {
        bflush := FastMatch(s, old(ins));
      } else {
        bflush := FastLiteral(s, old(ins));
      }
    }

    method FastMatch(ghost s: Spot, ghost was: set<nat>) returns (bflush: bool)
      requires Core() && Hashing() && level <= 3 && Ready(base + strstart + 1) && Story() && !match_available
      requires base + strstart + lookahead == |data| && covered == base + strstart && sym_count < lit_bufsize - 1
      requires prev_length == MIN_MATCH - 1 && strstart <= 2 * w_size - MIN_LOOKAHEAD
      requires MIN_MATCH <= match_length <= MAX_MATCH && strstart - match_start <= MaxDist()
      requires MatchAt(data, base + strstart, base + match_start, match_length)
      requires Found(s, was) && s.len == match_length && s.dist == strstart - match_start
      modifies this`ins_h, this`ins, this`top, this`match_length, this`lookahead, this`strstart
      modifies this`ts, this`sym_count, this`covered, this`spots, head, prev
      ensures Between() && Eager() && strstart <= 2 * w_size - 4 && strstart > old(strstart)
      ensures bflush <==> sym_count == lit_bufsize - 1
      ensures OneSearch(old(spots), spots, |data|)
    {
      hide Core, Story, Pow2, Chained, Slot, Filled, Configuration, Rolling, MatchAt, Adds, Sound, Flushed, Told,
        SpotOk, Here, Inside, AllTokens, Skips, OneSearch, TokenAt, InsertedBy;
      CoreIs();
      MatchBefore(data, base + strstart, base + match_start, match_length);
      ToldIns(Way(), data, spots, AllTokens(fs) + ts, covered, covered, was);
      EagerToken(Way(), spots, s, covered);
      EagerMatch(Way(), data, spots, AllTokens(fs), ts, was, s, covered);
      spots := spots + [s] + Skips(|data|, covered, s.len, s.len - 1);
      bflush := Tally(strstart - match_start, match_length - MIN_MATCH);
      lookahead := lookahead - match_length;
      FastSkip();
    }

    method FastLiteral(ghost s: Spot, ghost was: set<nat>) returns (bflush: bool)
      requires Core() && Hashing() && level <= 3 && Ready(base + strstart + 1) && Story() && Eager() && lookahead > 0
      requires base + strstart + lookahead == |data| && covered == base + strstart && sym_count < lit_bufsize - 1
      requires strstart <= 2 * w_size - MIN_LOOKAHEAD && Found(s, was) && s.len == 0
      modifies this`lookahead, this`strstart, this`ts, this`sym_count, this`covered, this`spots
      ensures Between() && Eager() && strstart == old(strstart) + 1
      ensures bflush <==> sym_count == lit_bufsize - 1
      ensures OneSearch(old(spots), spots, |data|)
    {
      hide Core, Story, Pow2, Chained, Slot, Filled, Configuration, Rolling, MatchAt, Adds, Sound, Flushed, Told,
        SpotOk, Here, AllTokens, OneSearch;
      CoreIs();
      ByteAt(strstart);
      EagerLiteral(Way(), data, spots, AllTokens(fs), ts, was, s, window[strstart], covered);
      spots := spots + [s];
      bflush := Tally(0, window[strstart]);
      lookahead := lookahead - 1;
      strstart := strstart + 1;
    }

    method DeflateFast(finish: bool) returns (r: BlockState)
      requires Valid() && Eager() && avail_out > 0
      modifies this, window, head, prev
      ensures Sizes() && data + next_in == old(data + next_in) && old(fs) <= fs
      ensures r == NeedMore ==> Valid() && Eager() && (avail_out == 0 || (next_in == [] && !finish))
      ensures r == NeedMore ==> Further(old(base + strstart))
      ensures old(spots) <= spots && Explained()
      ensures Informed(spots, old(|spots|), MIN_LOOKAHEAD, finish, |data + next_in|)
      ensures r != NeedMore ==> finish && next_in == [] && Complete() && (r == FinishStarted <==> avail_out == 0)
    {
      hide Pow2, Chained, Slot, Filled, Rolling, MatchAt, Adds, Sound, Flushed, FlushOk, Replays, Complete, Core,
        Valid, Between, Story, Explained, OneSearch, Informed;
      Bounds();
      NoneSearched(spots);
      ghost var all := data + next_in;
      while true
        invariant Valid() && Eager() && avail_out > 0 && data + next_in == all && old(fs) <= fs && base + strstart >= old(base + strstart)
        invariant old(spots) <= spots && Informed(spots, old(|spots|), MIN_LOOKAHEAD, finish, |all|)
        decreases |all| - (base + strstart)
      {
        var stop := Refill(MIN_LOOKAHEAD, finish);
        if stop { return NeedMore; }
        if lookahead == 0 { break; }
        ghost var before := spots;
        assert |before| + MIN_LOOKAHEAD <= |data| || (finish && |data| == |all|);
        var bflush := FastStep();
        InformedMore(before, spots, |data|, old(|spots|), MIN_LOOKAHEAD, finish, |all|);
        if bflush {
          FlushBlock();
          if avail_out == 0 { Bounds(); return NeedMore; }
        } else {
          RoomLeft();
        }
      }
      Ending();
      r := FlushLast();
    }

    // ---- deflate_slow() ----

    ghost predicate Lazy()
      reads this`match_length
    {
      Hashing() && level > 3 && MIN_MATCH - 1 <= match_length <= MAX_MATCH
    }

    // A match was found at strstart, at match_start, of length len.
    ghost predicate MatchHere(len: nat)
      requires Sizes()
      reads this`data, this`base, this`strstart, this`match_start
    {
      strstart - match_start <= MaxDist() && MatchAt(data, base + strstart, base + match_start, len)
    }

    // Look for a better match at strstart than the one before.
    method LazyFind() returns (prev_match: int, ghost s: Spot)
      requires Core() && Ready(base + strstart) && base + strstart + lookahead == |data| && lookahead > 0
      requires Lazy() && strstart <= 2 * w_size - MIN_LOOKAHEAD && Logged()
      modifies this`ins_h, this`ins, this`top, this`match_length, this`prev_length, this`match_start, head, prev
      ensures Core() && Ready(base + strstart + 1) && Lazy()
      ensures prev_length == old(match_length) && prev_match == old(match_start)
      ensures match_length >= MIN_MATCH && match_length > prev_length ==> MatchHere(match_length)
      ensures Found(s, old(ins)) && Waiting(spots, match_available, prev_length, strstart - 1 - prev_match)
      ensures if match_length > prev_length then s.len == match_length && s.dist == strstart - match_start else s.len == 0
    {
      hide Pow2, Chained, Slot, Filled, Rolling, Latest, Looked, MatchAt, Told, InsertedBy, SpotOk, Here, Configuration,
        ToBeat, Waiting;
      ToldIns(Way(), data, spots, AllTokens(fs) + ts, covered, base + strstart, ins);
      ToBeatIs(Way(), spots, match_available, match_length, strstart - 1 - match_start);
      TuningIs();
      var hash_head := InsertNext();
      prev_length, prev_match := match_length, match_start;
      s := LazySearch(hash_head);
      HereIs(Way(), s, base + strstart);
    }

    // Look for a match that beats prev_length, if one is due.
    method LazySearch(hash_head: nat) returns (ghost s: Spot)
      requires Core() && Hashing() && level > 3 && Inserting(hash_head) && strstart <= 2 * w_size - MIN_LOOKAHEAD
      requires MIN_MATCH - 1 <= prev_length <= MAX_MATCH && (lookahead >= MIN_MATCH ==> top == base + strstart + 1)
      requires lookahead < MIN_MATCH ==> hash_head == 0
      modifies this`match_length, this`match_start
      ensures Lazy() && (match_length >= MIN_MATCH && match_length > prev_length ==> MatchHere(match_length))
      ensures SpotOk(Way(), data, spots, s) && s.Searched? && s.end == |data|
      ensures if match_length > prev_length then s.len == match_length && s.dist == strstart - match_start else s.len == 0
    {
      hide Pow2, Chained, Slot, Filled, Latest, Looked, MatchAt, InsertedBy, SpotOk, Configuration, ToBeat;
      match_length := MIN_MATCH - 1;
      if hash_head != 0 && prev_length < max_lazy_match && strstart - hash_head <= MaxDist() {
        ghost var from, seen;
        match_length, from, seen := LongestMatch(hash_head);
        WasDue(hash_head, match_length, from, seen);
        MatchBounds(data, base + strstart, base + match_start, match_length);
        s := SearchedFor(match_length, from, seen);
        if match_length <= 5 && (strategy == Filtered || (match_length == MIN_MATCH && strstart - match_start > TOO_FAR)) {
          match_length := MIN_MATCH - 1;
        }
      } else {
        NotDue(hash_head);
        s := Unsearched();
      }
    }

    // Insert the strings inside the match before, up to max_insert.
    method LazyInsert(max_insert: nat)
      requires Core() && Hashing() && Ready(base + strstart + 1) && base + max_insert + MIN_MATCH == |data| && prev_length >= 1
      modifies this`ins_h, this`ins, this`top, this`prev_length, this`strstart, head, prev
      ensures Core() && Ready(base + strstart + 1) && strstart == old(strstart + prev_length)
      ensures ins == old(ins) + Known(base + old(strstart) + 1, old(prev_length), |data|)
    {
      hide Pow2, Chained, Slot, Filled, Rolling, Latest;
      while true
        invariant Core() && Ready(base + strstart + 1) && prev_length >= 1
        invariant strstart + prev_length == old(strstart + prev_length) && old(strstart) <= strstart
        invariant ins == old(ins) + Known(base + old(strstart) + 1, strstart - old(strstart), |data|)
        decreases prev_length
      {
        strstart := strstart + 1;
        if strstart <= max_insert {
          var hash_head := InsertString(strstart);
        } else {
          NoRolling(ins_h, data, base + strstart + 1, hash_bits);
        }
        prev_length := prev_length - 1;
        if prev_length == 0 { break; }
      }
    }

    // Go on behind the match before.
    method LazySkip()
      requires Core() && Hashing() && Ready(base + strstart + 1) && base + strstart + lookahead == |data| && strstart > 0
      requires MIN_MATCH <= prev_length <= lookahead + 1
      modifies this`ins_h, this`ins, this`top, this`match_length, this`prev_length, this`lookahead, this`strstart
      modifies this`match_available, head, prev
      ensures Core() && Ready(base + strstart) && base + strstart + lookahead == |data|
      ensures strstart == old(strstart + prev_length) - 1 && !match_available && match_length == MIN_MATCH - 1
      ensures ins == old(ins) + Known(base + old(strstart) + 1, old(prev_length) - 2, |data|)
    {
      hide Pow2, Chained, Slot, Filled, Rolling;
      var max_insert := strstart + lookahead - MIN_MATCH;
      lookahead := lookahead - (prev_length - 1);
      prev_length := prev_length - 2;
      LazyInsert(max_insert);
      match_available := false;
      match_length := MIN_MATCH - 1;
      strstart := strstart + 1;
    }

    // The match before is not worse: tally it, and go on behind it.
    method LazyMatch(prev_match: int, ghost s: Spot, ghost was: set<nat>) returns (bflush: bool)
      requires Core() && Hashing() && Ready(base + strstart + 1) && Story() && base + strstart + lookahead == |data|
      requires match_available && strstart > 0 && covered + 1 == base + strstart && sym_count < lit_bufsize - 1
      requires MIN_MATCH <= prev_length <= MAX_MATCH && strstart - 1 - prev_match <= MaxDist()
      requires MatchAt(data, base + strstart - 1, base + prev_match, prev_length) && strstart <= 2 * w_size - MIN_LOOKAHEAD
      requires level > 3 && Found(s, was) && s.len == 0 && Waiting(spots, true, prev_length, strstart - 1 - prev_match)
      modifies this`ins_h, this`ins, this`top, this`match_length, this`prev_length, this`lookahead, this`strstart
      modifies this`match_available, this`ts, this`sym_count, this`covered, this`spots, head, prev
      ensures Between() && !match_available && Lazy() && strstart <= 2 * w_size - 4 && strstart > old(strstart)
      ensures bflush <==> sym_count == lit_bufsize - 1
      ensures OneSearch(old(spots), spots, |data|)
    {
      hide Core, Story, Pow2, Chained, Slot, Filled, Configuration, Rolling, MatchAt, Adds, Sound, Flushed, Told,
        SpotOk, Here, Inside, AllTokens, Skips, OneSearch, TokenAt, InsertedBy, Waiting, Known;
      CoreIs();
      MatchBefore(data, base + strstart - 1, base + prev_match, prev_length);
      ghost var dist := strstart - 1 - prev_match;
      ToldIns(Way(), data, spots, AllTokens(fs) + ts, covered, base + strstart, was);
      WaitingIs(spots, prev_length, dist);
      LazyToken(Way(), spots, s, covered, spots[covered]);
      LazyMatches(Way(), data, spots, AllTokens(fs), ts, was, s, covered, prev_length, dist);
      InsideLazy(Way(), covered + 2, prev_length - 2, covered, prev_length, |data|);
      spots := spots + [s] + Skips(|data|, covered, prev_length, prev_length - 2);
      NothingWaits(spots);
      bflush := Tally(strstart - 1 - prev_match, prev_length - MIN_MATCH);
      LazySkip();
    }

    // No match before, or a worse one: tally its first byte as a literal.
    method LazyLiteral(ghost s: Spot, ghost was: set<nat>)
      requires Core() && Ready(base + strstart + 1) && Story() && base + strstart + lookahead == |data| && lookahead > 0
      requires match_available && strstart > 0 && covered + 1 == base + strstart && sym_count < lit_bufsize - 1
      requires Lazy() && (match_length >= MIN_MATCH ==> MatchHere(match_length))
      requires strstart <= 2 * w_size - MIN_LOOKAHEAD && avail_out > 0
      requires Found(s, was) && covered < |spots| && spots[covered].Searched? && (spots[covered].len > 0 ==> s.len > 0)
      requires if match_length >= MIN_MATCH then s.len == match_length && s.dist == strstart - match_start else s.len == 0
      modifies this`lookahead, this`strstart, this`ts, this`sym_count, this`covered, this`spots
      modifies this`fs, this`start, this`block_start, this`avail_out
      ensures Valid() && Lazy() && strstart > old(strstart) && old(fs) <= fs
      ensures OneSearch(old(spots), spots, |data|)
    {
      hide Core, Story, Pow2, Chained, Slot, Filled, Configuration, Rolling, MatchAt, Adds, Sound, Flushed, FlushOk,
        Replays, Told, SpotOk, Here, AllTokens, OneSearch;
      CoreIs();
      var bflush := TallyBefore(s, was);
      if bflush { FlushBlockOnly(false); }
      NextByte(s);
    }

    // Go on to the next byte; what was found for this one waits.
    method NextByte(ghost s: Spot)
      requires Core() && Ready(base + strstart + 1) && Story() && base + strstart + lookahead == |data| && lookahead > 0
      requires match_available && covered == base + strstart && sym_count < lit_bufsize - 1
      requires Lazy() && (match_length >= MIN_MATCH ==> MatchHere(match_length)) && Near()
      requires Told(Way(), data, spots, AllTokens(fs) + ts, covered, base + strstart + 1, ins)
      requires spots != [] && spots[|spots| - 1] == s && s.Searched?
      requires if match_length >= MIN_MATCH then s.len == match_length && s.dist == strstart - match_start else s.len == 0
      modifies this`lookahead, this`strstart
      ensures Valid() && Lazy() && strstart == old(strstart) + 1
    {
      hide Core, Story, Pow2, Chained, Slot, Filled, Configuration, Rolling, MatchAt, Adds, Sound, Flushed, Told,
        AllTokens;
      CoreIs();
      strstart := strstart + 1;
      lookahead := lookahead - 1;
    }

    // Tally the byte before strstart.
    method TallyBefore(ghost s: Spot, ghost was: set<nat>) returns (bflush: bool)
      requires Core() && Way().lazy && Story() && covered + 1 == base + strstart && strstart > 0 && sym_count < lit_bufsize - 1
      requires lookahead > 0 && base + strstart + lookahead == |data|
      requires Found(s, was) && covered < |spots| && spots[covered].Searched? && (spots[covered].len > 0 ==> s.len > 0)
      modifies this`ts, this`sym_count, this`covered, this`spots
      ensures Core() && Story() && covered == base + strstart && sym_count <= lit_bufsize - 1
      ensures bflush <==> sym_count == lit_bufsize - 1
      ensures spots == old(spots) + [s] && OneSearch(old(spots), spots, |data|)
      ensures Told(Way(), data, spots, AllTokens(fs) + ts, covered, base + strstart + 1, ins)
    {
      hide Core, Story, Pow2, Chained, Slot, Filled, Configuration, Rolling, MatchAt, Adds, Sound, Flushed, FlushOk,
        Replays, Told, SpotOk, Here, AllTokens, OneSearch;
      CoreIs();
      ByteAt(strstart - 1);
      LazyLiterals(Way(), data, spots, AllTokens(fs), ts, was, s, window[strstart - 1], covered);
      spots := spots + [s];
      bflush := Tally(0, window[strstart - 1]);
    }

    // The first byte waits.
    method LazyWait(ghost s: Spot, ghost was: set<nat>)
      requires Core() && Ready(base + strstart + 1) && Story() && base + strstart + lookahead == |data| && lookahead > 0
      requires !match_available && covered == base + strstart && sym_count < lit_bufsize - 1
      requires Lazy() && (match_length >= MIN_MATCH ==> MatchHere(match_length)) && Found(s, was)
      requires if match_length >= MIN_MATCH then s.len == match_length && s.dist == strstart - match_start else s.len == 0
      modifies this`lookahead, this`strstart, this`match_available, this`spots
      ensures Valid() && Lazy() && strstart == old(strstart) + 1
      ensures OneSearch(old(spots), spots, |data|)
    {
      hide Pow2, Chained, Slot, Filled, Rolling, MatchAt, Adds, Sound, Flushed, Told, SpotOk, Here, AllTokens,
        OneSearch;
      LazyWaits(Way(), data, spots, AllTokens(fs) + ts, was, s, covered);
      spots := spots + [s];
      match_available := true;
      strstart := strstart + 1;
      lookahead := lookahead - 1;
    }

    // One step of lazy evaluation; stop says that the output space ran out.
    method LazyStep() returns (stop: bool)
      requires Valid() && Lazy() && lookahead > 0 && strstart <= 2 * w_size - MIN_LOOKAHEAD && avail_out > 0
      modifies this`ins_h, this`ins, this`top, this`match_length, this`prev_length, this`match_start, this`lookahead
      modifies this`strstart, this`match_available, this`ts, this`sym_count, this`covered, this`spots, head, prev
      modifies this`fs, this`start, this`block_start, this`avail_out
      ensures Valid() && Lazy() && strstart > old(strstart) && old(fs) <= fs
      ensures stop <==> avail_out == 0
      ensures OneSearch(old(spots), spots, |data|)
    {
      hide Core, Story, Pow2, Chained, Slot, Filled, Configuration, Rolling, MatchAt, Adds, Sound, Flushed, FlushOk,
        Replays, Told, SpotOk, Here, AllTokens, OneSearch, Waiting;
      CoreIs();
      ghost var s, was := Unsearched(), ins;
      var prev_match;
      prev_match, s := LazyFind();
      if prev_length >= MIN_MATCH && match_length <= prev_length {
        var bflush := LazyMatch(prev_match, s, was);
        if bflush { FlushBlock(); } else { RoomLeft(); }
      } else if match_available {
        WaitingIs(spots, prev_length, strstart - 1 - prev_match);
        ToldIns(Way(), data, spots, AllTokens(fs) + ts, covered, base + strstart, was);
        LazyLiteral(s, was);
      } else {
        LazyWait(s, was);
      }
      stop := avail_out == 0;
    }

    // Tally the literal that still waits at the end of the input.
    method LastLiteral()
      requires Valid() && Lazy() && match_available && lookahead == 0
      modifies this`match_available, this`ts, this`sym_count, this`covered
      ensures Core() && Story() && covered == base + strstart == |data| && Explained()
    {
      hide Pow2, Chained, Slot, Filled, Rolling, MatchAt, Adds, Sound, Flushed, Told, AllTokens, InsertedBy;
      WindowByte(window[..], data, base, strstart - 1);
      MatchBounds(data, base + strstart - 1, base + match_start, match_length);
      WaitingIs(spots, match_length, strstart - 1 - match_start);
      ToldIns(Way(), data, spots, AllTokens(fs) + ts, covered, base + strstart, ins);
      LastLiterals(Way(), data, spots, AllTokens(fs), ts, ins, window[strstart - 1], covered);
      var bflush := Tally(0, window[strstart - 1]);
      match_available := false;
    }

    method DeflateSlow(finish: bool) returns (r: BlockState)
      requires Valid() && Lazy() && avail_out > 0
      modifies this, window, head, prev
      ensures Sizes() && data + next_in == old(data + next_in) && old(fs) <= fs
      ensures r == NeedMore ==> Valid() && Lazy() && (avail_out == 0 || (next_in == [] && !finish))
      ensures r == NeedMore ==> Further(old(base + strstart))
      ensures old(spots) <= spots && Explained()
      ensures Informed(spots, old(|spots|), MIN_LOOKAHEAD, finish, |data + next_in|)
      ensures r != NeedMore ==> finish && next_in == [] && Complete() && (r == FinishStarted <==> avail_out == 0)
    {
      hide Pow2, Chained, Slot, Filled, Rolling, MatchAt, Adds, Sound, Flushed, FlushOk, Replays, Complete, Core,
        Valid, Between, Story, Explained, OneSearch, Informed;
      Bounds();
      NoneSearched(spots);
      ghost var all := data + next_in;
      while true
        invariant Valid() && Lazy() && avail_out > 0 && data + next_in == all && old(fs) <= fs && base + strstart >= old(base + strstart)
        invariant old(spots) <= spots && Informed(spots, old(|spots|), MIN_LOOKAHEAD, finish, |all|)
        decreases |all| - (base + strstart)
      {
        var stop := Refill(MIN_LOOKAHEAD, finish);
        if stop { return NeedMore; }
        if lookahead == 0 { break; }
        ghost var before := spots;
        assert |before| + MIN_LOOKAHEAD <= |data| || (finish && |data| == |all|);
        stop := LazyStep();
        InformedMore(before, spots, |data|, old(|spots|), MIN_LOOKAHEAD, finish, |all|);
        if stop { Bounds(); return NeedMore; }
      }
      if match_available { LastLiteral(); } else { Ending(); }
      r := FlushLast();
    }

    // ---- deflate_rle() and deflate_huff() ----

    // The length of the run of the byte before strstart, no more than MAX_MATCH.
    method Run() returns (len: nat)
      requires Core() && 0 < strstart <= 2 * w_size - MAX_MATCH - 1
      ensures len <= MAX_MATCH && Alike(window[..], strstart - 1, strstart, len)
      ensures NoLonger(data, base + strstart, base + strstart - 1, len)
    {
      hide Pow2, Chained, Slot, Filled, Alike, NoLonger;
      ghost var win := window[..];
      NotAlike(win, strstart - 1, strstart);
      len := 0;
      while len < MAX_MATCH && window[strstart + len] == window[strstart - 1]
        invariant 0 <= len <= MAX_MATCH && Alike(win, strstart - 1, strstart, len)
        invariant window[strstart - 1 + len] == window[strstart - 1]
      {
        AlikeMore(win, strstart - 1, strstart, len);
        len := len + 1;
      }
      if len < MAX_MATCH {
        DiffersAt(win, data, base, strstart, strstart - 1, len, len);
      } else {
        NoLongerThanMax(data, base + strstart, base + strstart - 1, len);
      }
    }

    // No match is kept from step to step.
    ghost predicate Single()
      reads this`match_available, this`match_length
    {
      !Hashing() && !match_available && match_length < MIN_MATCH
    }

    // Take the run of the byte before strstart for a match, if it is long enough.
    method RleFind() returns (ghost s: Spot)
      requires Core() && base + strstart + lookahead == |data| && strstart <= 2 * w_size - MAX_MATCH - 1
      requires strategy == Rle && lookahead > 0 && |spots| == base + strstart && Near()
      modifies this`match_length
      ensures match_length <= MAX_MATCH
      ensures match_length > 0 ==> strstart > 0 && MatchAt(data, base + strstart, base + strstart - 1, match_length)
      ensures SpotOk(Way(), data, spots, s) && s.Searched? && s.end == |data|
      ensures if match_length >= MIN_MATCH then s.len == match_length && s.dist == 1 else s.len == 0
    {
      hide Pow2, Chained, Slot, Filled, MatchAt, Alike, NoLonger;
      match_length := 0;
      s := Searched(|data|, base, 0, 0, 0, 0, 0, {});
      if lookahead >= MIN_MATCH && strstart > 0 {
        var len := Run();
        if len >= MIN_MATCH {
          match_length := len;
          if match_length > lookahead { match_length := lookahead; }
          AlikeMatch(window[..], data, base, strstart - 1, strstart, len, match_length);
          s := Searched(|data|, base, 0, 0, match_length, 1, 0, {});
        }
        RunIsOk(data, base + strstart, len, s);
      } else {
        NoRun(data, base + strstart);
      }
      assert data[..|data|] == data;
    }

    // Tally a match of distance one, or a literal.
    method RleStep() returns (bflush: bool)
      requires Valid() && Single() && strategy == Rle && lookahead > 0 && strstart <= 2 * w_size - MAX_MATCH - 1
      modifies this`match_length, this`lookahead, this`strstart, this`ts, this`sym_count, this`covered, this`spots
      ensures Between() && Single() && strstart < 2 * w_size && strstart > old(strstart)
      ensures bflush <==> sym_count == lit_bufsize - 1
      ensures OneSearch(old(spots), spots, |data|)
    {
      hide Core, Story, Pow2, Chained, Slot, Filled, Configuration, Rolling, MatchAt, Adds, Sound, Flushed, Told,
        SpotOk, AllTokens, OneSearch, InsertedBy;
      CoreIs();
      ToldIns(Way(), data, spots, AllTokens(fs) + ts, covered, covered, ins);
      ghost var s := RleFind();
      if match_length >= MIN_MATCH {
        bflush := RleMatch(s);
      } else {
        bflush := RleLiteral(s);
      }
    }

    method RleMatch(ghost s: Spot) returns (bflush: bool)
      requires Core() && Ready(base + strstart) && Story() && !match_available && covered == base + strstart && strategy == Rle
      requires base + strstart + lookahead == |data| && sym_count < lit_bufsize - 1 && strstart <= 2 * w_size - MAX_MATCH - 1
      requires strstart > 0 && MIN_MATCH <= match_length <= MAX_MATCH
      requires MatchAt(data, base + strstart, base + strstart - 1, match_length)
      requires Explained() && Near() && SpotOk(Way(), data, spots, s)
      requires s.Searched? && s.end == |data| && s.len == match_length && s.dist == 1
      modifies this`match_length, this`lookahead, this`strstart, this`ts, this`sym_count, this`covered, this`spots
      ensures Between() && Single() && strstart < 2 * w_size && strstart > old(strstart)
      ensures bflush <==> sym_count == lit_bufsize - 1
      ensures OneSearch(old(spots), spots, |data|)
    {
      hide Core, Story, Pow2, Chained, Slot, Filled, Configuration, Rolling, MatchAt, Adds, Sound, Flushed, Told,
        SpotOk, AllTokens, Skips, OneSearch;
      CoreIs();
      MatchBefore(data, base + strstart, base + strstart - 1, match_length);
      PlainMatch(Way(), data, spots, AllTokens(fs), ts, ins, s, covered);
      spots := spots + [s] + Skips(|data|, covered, s.len, s.len - 1);
      bflush := Tally(1, match_length - MIN_MATCH);
      lookahead := lookahead - match_length;
      strstart := strstart + match_length;
      match_length := 0;
    }

    method RleLiteral(ghost s: Spot) returns (bflush: bool)
      requires Core() && Ready(base + strstart) && Story() && Single() && covered == base + strstart && strategy == Rle
      requires base + strstart + lookahead == |data| && sym_count < lit_bufsize - 1 && lookahead > 0
      requires strstart <= 2 * w_size - MAX_MATCH - 1 && Explained() && Near() && SpotOk(Way(), data, spots, s)
      requires s.Searched? && s.end == |data| && s.len == 0
      modifies this`lookahead, this`strstart, this`ts, this`sym_count, this`covered, this`spots
      ensures Between() && Single() && strstart == old(strstart) + 1
      ensures bflush <==> sym_count == lit_bufsize - 1
      ensures OneSearch(old(spots), spots, |data|)
    {
      hide Core, Story, Pow2, Chained, Slot, Filled, Configuration, Rolling, MatchAt, Adds, Sound, Flushed, Told,
        SpotOk, AllTokens, OneSearch;
      CoreIs();
      ByteAt(strstart);
      PlainLiteral(Way(), data, spots, AllTokens(fs), ts, ins, s, window[strstart], covered);
      spots := spots + [s];
      bflush := Tally(0, window[strstart]);
      lookahead := lookahead - 1;
      strstart := strstart + 1;
    }

    method DeflateRle(finish: bool) returns (r: BlockState)
      requires Valid() && Single() && strategy == Rle && avail_out > 0
      modifies this, window, head, prev
      ensures Sizes() && data + next_in == old(data + next_in) && old(fs) <= fs
      ensures r == NeedMore ==> Valid() && Single() && (avail_out == 0 || (next_in == [] && !finish))
      ensures r == NeedMore ==> Further(old(base + strstart))
      ensures old(spots) <= spots && Explained()
      ensures Informed(spots, old(|spots|), MAX_MATCH + 1, finish, |data + next_in|)
      ensures r != NeedMore ==> finish && next_in == [] && Complete() && (r == FinishStarted <==> avail_out == 0)
    {
      hide Pow2, Chained, Slot, Filled, Rolling, MatchAt, Adds, Sound, Flushed, FlushOk, Replays, Complete, Core,
        Valid, Between, Story, Explained, OneSearch, Informed;
      Bounds();
      NoneSearched(spots);
      ghost var all := data + next_in;
      while true
        invariant Valid() && Single() && avail_out > 0 && data + next_in == all && old(fs) <= fs && base + strstart >= old(base + strstart)
        invariant old(spots) <= spots && Informed(spots, old(|spots|), MAX_MATCH + 1, finish, |all|)
        decreases |all| - (base + strstart)
      {
        var stop := Refill(MAX_MATCH + 1, finish);
        if stop { return NeedMore; }
        if lookahead == 0 { break; }
        ghost var before := spots;
        assert |before| + MAX_MATCH + 1 <= |data| || (finish && |data| == |all|);
        var bflush := RleStep();
        InformedMore(before, spots, |data|, old(|spots|), MAX_MATCH + 1, finish, |all|);
        if bflush {
          FlushBlock();
          if avail_out == 0 { Bounds(); return NeedMore; }
        } else {
          RoomLeft();
        }
      }
      Ending();
      r := FlushLast();
    }

    // The symbols of the block are all literals.
    ghost predicate Plain()
      reads this`start, this`covered, this`sym_count
    {
      covered == start + sym_count
    }

    lemma PlainIsShort()
      requires Between() && Plain() && !match_available
      ensures Short() && base + strstart <= |data|
    {
      hide Pending, Logged, Ready;
    }

    // Tally a literal.
    method HuffStep() returns (bflush: bool)
      requires Valid() && Single() && Plain() && strategy == HuffmanOnly && lookahead > 0
      modifies this`match_length, this`lookahead, this`strstart, this`ts, this`sym_count, this`covered, this`spots
      ensures Between() && Single() && Plain() && strstart > old(strstart)
      ensures bflush <==> sym_count == lit_bufsize - 1
      ensures old(spots) <= spots
    {
      hide Core, Story, Pow2, Chained, Slot, Filled, Configuration, Rolling, MatchAt, Adds, Sound, Flushed, Told,
        SpotOk, AllTokens, InsertedBy;
      CoreIs();
      ByteAt(strstart);
      match_length := 0;
      BareLiteral(Way(), data, spots, AllTokens(fs), ts, ins, base, window[strstart], covered);
      spots := spots + [Bare(|data|, base)];
      bflush := Tally(0, window[strstart]);
      lookahead := lookahead - 1;
      strstart := strstart + 1;
    }

    method DeflateHuff(finish: bool) returns (r: BlockState)
      requires Valid() && Single() && Plain() && strategy == HuffmanOnly && avail_out > 0
      modifies this, window, head, prev
      ensures Sizes() && data + next_in == old(data + next_in) && old(fs) <= fs
      ensures r == NeedMore ==> Valid() && Single() && Plain() && (avail_out == 0 || (next_in == [] && !finish))
      ensures r == NeedMore ==> Further(old(base + strstart))
      ensures old(spots) <= spots && Explained()
      ensures r != NeedMore ==> finish && next_in == [] && Complete() && (r == FinishStarted <==> avail_out == 0)
    {
      hide Pow2, Chained, Slot, Filled, Rolling, MatchAt, Adds, Sound, Flushed, FlushOk, Replays, Complete, Core,
        Valid, Between, Story, Explained, OneSearch, Informed;
      Bounds();
      NoneSearched(spots);
      ghost var all := data + next_in;
      while true
        invariant Valid() && Single() && Plain() && avail_out > 0 && data + next_in == all && old(fs) <= fs && base + strstart >= old(base + strstart)
        invariant old(spots) <= spots
        decreases |all| - (base + strstart)
      {
        var stop := Refill(1, finish);
        if stop { return NeedMore; }
        if lookahead == 0 { break; }
        var bflush := HuffStep();
        PlainIsShort();
        if bflush {
          FlushBlock();
          if avail_out == 0 { Bounds(); return NeedMore; }
        } else {
          RoomLeft();
        }
      }
      Ending();
      r := FlushLast();
    }

    // ---- deflate() ----

    // All that was handed over so far: what was read, and what is still to be.
    ghost function Given(): seq<byte>
      reads this`data, this`next_in
    {
      data + next_in
    }

    // What each compression function keeps from call to call.
    ghost predicate Steady()
      reads this`match_available, this`match_length, this`prev_length, this`start, this`covered, this`sym_count
    {
      if strategy == HuffmanOnly then Single() && Plain()
      else if strategy == Rle then Single()
      else if level <= 3 then Eager()
      else Lazy()
    }

    // All places searched from place from on were searched with enough of the data
    // at hand, or with all that there is.
    ghost predicate Searches(from: nat, finish: bool)
      reads this`spots, this`data, this`next_in
    {
      strategy != HuffmanOnly ==>
        Informed(spots, from, if strategy == Rle then MAX_MATCH + 1 else MIN_LOOKAHEAD, finish, |Given()|)
    }

    ghost predicate Open()
      reads this, window, head, prev
    {
      Valid() && Steady()
    }

    lemma Starts()
      requires Sizes() && Chained(head[..], prev[..], [], 0, {}, 0, w_size, hash_bits)
      requires strstart == lookahead == ins_h == sym_count == base == top == start == covered == 0 && block_start == 0
      requires match_length == prev_length == MIN_MATCH - 1 && !match_available && match_start == 0
      requires data == [] && ins == {} && spots == [] && fs == [] && ts == []
      ensures Valid() && Steady()
    {
      hide Pow2, Chained, Told, Configuration;
      NothingTold(Way());
      assert AllTokens(fs) + ts == [];
    }

    // deflateInit2_() and lm_init()
    constructor (level: nat, strategy: Strategy, window_bits: nat, mem_level: nat)
      requires 1 <= level <= 9 && 9 <= window_bits <= 15 && 1 <= mem_level <= 9
      ensures Open() && Given() == [] && fs == [] && fresh(window) && fresh(head) && fresh(prev)
      ensures w_size == Pow2(window_bits) && hash_bits == mem_level + 7 && lit_bufsize == Pow2(mem_level + 6)
      ensures this.level == level && this.strategy == strategy && spots == []
    {
      Widths(window_bits, mem_level);
      hide Pow2, Chained, Configuration, Valid, Steady;
      this.level, this.strategy := level, strategy;
      w_size, hash_bits, lit_bufsize := Pow2(window_bits), mem_level + 7, Pow2(mem_level + 6);
      window := new byte[2 * Pow2(window_bits)];
      head := new nat[Pow2(mem_level + 7)](_ => 0);
      prev := new nat[Pow2(window_bits)];
      var config := Configuration(level);
      max_lazy_match, good_match, nice_match := config.max_lazy, config.good_length, config.nice_length;
      max_chain_length := config.max_chain;
      strstart, block_start, lookahead, ins_h, sym_count := 0, 0, 0, 0, 0;
      match_length, prev_length, match_available, match_start := MIN_MATCH - 1, MIN_MATCH - 1, false, 0;
      next_in, avail_out := [], 0;
      fs, ts := [], [];
      data, base, ins, top, start, covered, spots := [], 0, {}, 0, 0, 0, [];
      new;
      NoChains(head[..], prev[..], w_size, hash_bits);
      Starts();
    }

    // One call with more input, the flush value Z_FINISH or Z_NO_FLUSH, and room
    // for some blocks, the last of which may be passed on in part: what is
    // pending of it comes first in the next call, and may take all of its space,
    // so that no room is left for blocks. In the end the blocks stand for all the
    // input of all calls.
    method Compress(input: seq<byte>, finish: bool, room: nat) returns (r: BlockState)
      requires Open()
      modifies this, window, head, prev
      ensures Sizes() && Given() == old(Given()) + input && old(fs) <= fs
      ensures r == NeedMore ==> Open() && (avail_out == 0 || (next_in == [] && !finish)) && base + strstart >= old(base + strstart)
      ensures r == NeedMore && room > 0 ==> Further(old(base + strstart))
      ensures room == 0 ==> r == NeedMore && fs == old(fs) && data == old(data)
      ensures old(spots) <= spots && Explained() && Searches(old(|spots|), finish)
      ensures r != NeedMore ==> finish && Complete() && data == Given() && (r == FinishStarted <==> avail_out == 0)
    {
      hide Pow2, Chained, Slot, Filled, Rolling, MatchAt, Adds, Sound, Flushed, FlushOk, Replays, Complete, Told,
        Waiting, Informed, AllTokens;
      NoneSearched(spots);
      assert data + next_in + input == data + (next_in + input);
      next_in, avail_out := next_in + input, room;
      if room > 0 && (next_in != [] || lookahead != 0 || finish) {
        if strategy == HuffmanOnly {
          r := DeflateHuff(finish);
        } else if strategy == Rle {
          r := DeflateRle(finish);
        } else if level <= 3 {
          r := DeflateFast(finish);
        } else {
          r := DeflateSlow(finish);
        }
      } else {
        r := NeedMore;
      }
    }
  }

  // The greatest distance of a match, for a window of 1 << window_bits bytes.
  function WindowDist(window_bits: nat): nat {
    if Pow2(window_bits) >= MIN_LOOKAHEAD then Pow2(window_bits) - MIN_LOOKAHEAD else 0
  }

  lemma WindowDistBound(window_bits: nat)
    requires window_bits <= 15
    ensures WindowDist(window_bits) <= 32768
  {
    Pow2Values();
    Pow2Mono(window_bits, 15);
  }

  lemma Widths(window_bits: nat, mem_level: nat)
    requires 9 <= window_bits <= 15 && 1 <= mem_level <= 9
    ensures 512 <= Pow2(window_bits) <= 32768 && 128 <= Pow2(mem_level + 6) <= 32768 && Pow2(mem_level + 7) >= 1
  {
    Pow2Values();
    Pow2Mono(9, window_bits);
    Pow2Mono(window_bits, 15);
    Pow2Mono(7, mem_level + 6);
    Pow2Mono(mem_level + 6, 15);
  }

  lemma WindowRoom(window: seq<byte>, data: seq<byte>, base: nat)
    requires Filled(window, data, base)
    ensures |data| <= base + |window|
  {
  }

  lemma MatchBounds(data: seq<byte>, a: int, m: int, len: nat)
    ensures MatchAt(data, a, m, len) ==> 0 <= m < a && a + len <= |data|
  {
  }

  lemma MatchBefore(data: seq<byte>, a: int, m: int, len: nat)
    requires MatchAt(data, a, m, len)
    ensures 0 <= m < a && a + len <= |data|
  {
  }

  lemma FlushData(data: seq<byte>, start: nat, ts: seq<Token>, covered: nat)
    requires Adds(data, start, ts, covered)
    ensures data[..start] + data[start..covered] == Expand(data[..start], ts)
  {
  }

  lemma ReadMore(data: seq<byte>, input: seq<byte>, n: nat)
    requires n <= |input|
    ensures data + input[..n] + input[n..] == data + input
  {
  }

  lemma NoRolling(ins_h: nat, data: seq<byte>, a: nat, hash_bits: nat)
    requires a + 3 > |data|
    ensures Rolling(ins_h, data, a, hash_bits)
  {
  }

  lemma FilledSize(window: seq<byte>, data: seq<byte>, base: nat)
    requires Filled(window, data, base)
    ensures base <= |data| <= base + |window|
  {
  }

  lemma FilledSlides(before: seq<byte>, after: seq<byte>, data: seq<byte>, base: nat, w: nat, n: nat)
    requires Filled(before, data, base) && |after| == |before| && base + w + n == |data| && w + n <= |before|
    requires forall i :: 0 <= i < n ==> after[i] == before[w + i]
    ensures Filled(after, data, base + w)
  {
    assert before[..|data| - base][w..] == data[base..][w..];
  }

  lemma FilledMore(before: seq<byte>, after: seq<byte>, data: seq<byte>, base: nat, more: seq<byte>, at: nat)
    requires Filled(before, data, base) && |after| == |before| && base + at == |data| && at + |more| <= |before|
    requires forall i :: 0 <= i < |after| ==> after[i] == if at <= i < at + |more| then more[i - at] else before[i]
    ensures Filled(after, data + more, base)
  {
    assert after[..at] == before[..at];
    assert after[at..at + |more|] == more;
    assert after[..at + |more|] == after[..at] + after[at..at + |more|];
    assert (data + more)[base..] == data[base..] + more;
  }

  lemma AlikeMatch(window: seq<byte>, data: seq<byte>, base: nat, cur: nat, str: nat, len: nat, r: nat)
    requires Filled(window, data, base) && Alike(window, cur, str, len) && r <= len && base + str + r <= |data|
    ensures MatchAt(data, base + str, base + cur, r)
  {
    hide Filled;
    WindowSlice(window, data, base, cur, cur + r);
    WindowSlice(window, data, base, str, str + r);
    assert window[cur..cur + r] == window[cur..cur + len][..r];
    assert window[str..str + r] == window[str..str + len][..r];
  }

  // Two strings in the window with the same len bytes.
  ghost predicate Alike(window: seq<byte>, cur: nat, str: nat, len: nat) {
    cur < str && str + len <= |window| && window[cur..cur + len] == window[str..str + len]
  }

  lemma NotAlike(window: seq<byte>, cur: nat, str: nat)
    requires cur < str <= |window|
    ensures Alike(window, cur, str, 0)
  {
  }

  lemma DiffersAt(window: seq<byte>, data: seq<byte>, base: nat, str: nat, cur: nat, best: nat, k: nat)
    requires Filled(window, data, base) && cur < str && str + k < |window| && k <= best
    ensures window[cur + k] != window[str + k] ==> NoLonger(data, base + str, base + cur, best)
  {
    if base + str + k < |data| {
      WindowByte(window, data, base, str + k);
      WindowByte(window, data, base, cur + k);
    }
    hide NoLonger, Filled, MatchAt;
    if window[cur + k] != window[str + k] { NotThere(data, base + str, base + cur, best, k); }
  }

  lemma ThirdToo(window: seq<byte>, data: seq<byte>, base: nat, str: nat, cur: nat, hash_bits: nat)
    requires Filled(window, data, base) && cur < str && base + str + 3 <= |data| && hash_bits >= 8
    requires HashAt(data, base + cur, hash_bits) == HashAt(data, base + str, hash_bits)
    requires str + 2 < |window| && window[cur] == window[str] && window[cur + 1] == window[str + 1]
    ensures Alike(window, cur, str, 3)
  {
    hide Filled, Hash3;
    WindowByte(window, data, base, str);
    WindowByte(window, data, base, cur);
    WindowByte(window, data, base, str + 1);
    WindowByte(window, data, base, cur + 1);
    WindowByte(window, data, base, str + 2);
    WindowByte(window, data, base, cur + 2);
    ThirdByte(window[str], window[str + 1], window[cur + 2], window[str + 2], hash_bits);
  }

  lemma AlikeMore(window: seq<byte>, cur: nat, str: nat, len: nat)
    requires Alike(window, cur, str, len) && str + len < |window| && window[str + len] == window[cur + len]
    ensures Alike(window, cur, str, len + 1)
  {
    assert window[cur..cur + len + 1] == window[cur..cur + len] + [window[cur + len]];
    assert window[str..str + len + 1] == window[str..str + len] + [window[str + len]];
  }

  lemma NoLongerMax(data: seq<byte>, a: nat, b: nat, len: nat, best: nat)
    requires NoLonger(data, a, b, len)
    ensures NoLonger(data, a, b, if len > best then len else best)
  {
  }

  lemma ChainLengths(head: seq<nat>, prev: seq<nat>, data: seq<byte>, base: nat, ins: set<nat>, top: nat, w: nat, hash_bits: nat)
    requires Chained(head, prev, data, base, ins, top, w, hash_bits)
    ensures |head| == Pow2(hash_bits) && |prev| == w > 0
  {
  }
}
