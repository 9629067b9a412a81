// deflate.c: which matches are looked for, and which of those found are taken.
// A record for every place of the data says what was found there; the symbols
// follow from it.
module Choices {
  import opened BitWriter
  import opened Format
  import opened Hash
  import opened HashChain
  import opened Replay

  datatype Strategy = DefaultStrategy | Filtered | HuffmanOnly | Rle | FixedCodes

  // How hard to look for matches.
  datatype Tuning = Tuning(good_length: nat, max_lazy: nat, nice_length: nat, max_chain: nat)

  // configuration_table: up to level 3 matches are taken as they are found.
  function Configuration(level: nat): (c: Tuning)
    ensures c.max_lazy >= MIN_MATCH && c.max_chain >= 4
  {
    match level
    case 1 => Tuning(4, 4, 8, 4)
    case 2 => Tuning(4, 5, 16, 8)
    case 3 => Tuning(4, 6, 32, 32)
    case 4 => Tuning(4, 4, 16, 16)
    case 5 => Tuning(8, 16, 32, 32)
    case 6 => Tuning(8, 16, 128, 128)
    case 7 => Tuning(8, 32, 128, 256)
    case 8 => Tuning(32, 128, 258, 1024)
    case _ => Tuning(32, 258, 258, 4096)
  }

  function Minimum(a: nat, b: nat): nat {
    if a <= b then a else b
  }

  // No string at place b matches the one at place a in more than best bytes.
  ghost predicate NoLonger(data: seq<byte>, a: nat, b: nat, best: nat) {
    forall len: nat :: best < len <= MAX_MATCH ==> !MatchAt(data, a, b, len)
  }

  lemma NotThere(data: seq<byte>, a: nat, b: nat, best: nat, k: nat)
    requires b < a && k <= best && (a + k < |data| ==> data[b + k] != data[a + k])
    ensures NoLonger(data, a, b, best)
  {
    forall len: nat | best < len <= MAX_MATCH ensures !MatchAt(data, a, b, len) {
      MatchByte(data, a, b, len, k);
    }
  }

  lemma MatchByte(data: seq<byte>, a: nat, b: nat, len: nat, k: nat)
    requires k < len
    ensures MatchAt(data, a, b, len) ==> a + k < |data| && b + k < |data| && data[b + k] == data[a + k]
  {
    assert MatchAt(data, a, b, len) ==> data[b..b + len][k] == data[a..a + len][k];
  }

  lemma NoLongerThanMax(data: seq<byte>, a: nat, b: nat, best: nat)
    requires best >= MAX_MATCH
    ensures NoLonger(data, a, b, best)
  {
  }

  lemma NoLongerMore(data: seq<byte>, a: nat, b: nat, best: nat, more: nat)
    requires NoLonger(data, a, b, best) && best <= more
    ensures NoLonger(data, a, b, more)
  {
  }

  // The inserted places before a, from place from on, whose strings have hash
  // h, are those seen; none of them starts a match with more than best bytes.
  ghost predicate Looked(data: seq<byte>, a: nat, h: nat, base: nat, ins: set<nat>, hash_bits: nat, from: nat, seen: set<nat>,
                         best: nat)
  {
    && (forall b :: b in seen <==> b in ins && from <= b && Candidate(b, h, a, data, base, hash_bits))
    && (forall b :: b in seen ==> NoLonger(data, a, b, best))
  }

  lemma LookedStart(data: seq<byte>, a: nat, h: nat, base: nat, ins: set<nat>, hash_bits: nat, cur: nat, best: nat)
    requires Latest(cur, h, a, data, base, ins, hash_bits) && cur > 0
    ensures Looked(data, a, h, base, ins, hash_bits, base + cur + 1, {}, best)
    ensures base + cur in ins && base + cur < a && base + cur + 3 <= |data| && HashAt(data, base + cur, hash_bits) == h
  {
  }

  // The string at cur was compared.
  lemma LookedAt(data: seq<byte>, a: nat, h: nat, base: nat, ins: set<nat>, hash_bits: nat, cur: nat, seen: set<nat>,
                 best: nat, more: nat)
    requires Looked(data, a, h, base, ins, hash_bits, base + cur + 1, seen, best) && best <= more
    requires NoLonger(data, a, base + cur, more)
    requires base + cur in ins && Candidate(base + cur, h, a, data, base, hash_bits)
    ensures Looked(data, a, h, base, ins, hash_bits, base + cur, seen + {base + cur}, more)
    ensures |seen + {base + cur}| == |seen| + 1
  {
    hide Candidate, NoLonger;
    forall b | b in seen ensures NoLonger(data, a, b, more) {
      NoLongerMore(data, a, b, best, more);
    }
  }

  // The string at next comes before the one at cur on the chain.
  lemma LookedNext(data: seq<byte>, a: nat, h: nat, base: nat, ins: set<nat>, hash_bits: nat, cur: nat, next: nat,
                   seen: set<nat>, best: nat)
    requires Looked(data, a, h, base, ins, hash_bits, base + cur, seen, best) && base + cur < a
    requires Latest(next, h, base + cur, data, base, ins, hash_bits)
    ensures Looked(data, a, h, base, ins, hash_bits, base + next + 1, seen, best)
    ensures next > 0 ==> base + next in ins && next < cur && base + next + 3 <= |data| && HashAt(data, base + next, hash_bits) == h
  {
    hide NoLonger, Hash3;
    forall b | b in ins && base + next + 1 <= b && Candidate(b, h, a, data, base, hash_bits) ensures b in seen {
      CandidateBefore(b, h, a, base + cur, data, base, hash_bits);
    }
  }

  lemma CandidateBefore(b: nat, h: nat, a: nat, limit: nat, data: seq<byte>, base: nat, hash_bits: nat)
    requires Candidate(b, h, a, data, base, hash_bits)
    ensures b < limit ==> Candidate(b, h, limit, data, base, hash_bits)
  {
  }

  // No match extends beyond the data.
  lemma LookedCut(data: seq<byte>, a: nat, h: nat, base: nat, ins: set<nat>, hash_bits: nat, from: nat, seen: set<nat>,
                  best: nat, lookahead: nat, r: nat)
    requires Looked(data, a, h, base, ins, hash_bits, from, seen, best) && a + lookahead == |data| && (r >= best || r >= lookahead)
    ensures Looked(data, a, h, base, ins, hash_bits, from, seen, r)
  {
    forall b | b in seen ensures NoLonger(data, a, b, r) {
      assert NoLonger(data, a, b, best);
    }
  }

  // ---- What is found at a place ----

  // How matches are looked for: lazy says that a match waits for a better one at
  // the next place.
  datatype Rules = Rules(strategy: Strategy, lazy: bool, tuning: Tuning, max_dist: nat, hash_bits: nat)

  // What is known of a place. Searched: the data reached to end then, and the
  // window began at base; longest_match() had to beat prev and returned found,
  // after it had looked at the places seen, back to from; len and dist are of
  // the match that this left, if len is not zero. Skipped: it lies inside the
  // match of length len at place start.
  datatype Spot =
    | Searched(end: nat, base: nat, prev: nat, found: nat, len: nat, dist: nat, from: nat, seen: set<nat>)
    | Skipped(end: nat, start: nat, len: nat)

  // Which places are inserted in the hash chains: all, as long as three bytes of
  // them are known; but without lazy evaluation not those inside long matches,
  // nor inside matches that end less than three bytes before the end.
  predicate Inserted(k: Rules, s: Spot, p: nat) {
    && p + 3 <= s.end
    && (s.Skipped? && !k.lazy ==> s.len <= k.tuning.max_lazy && s.start + s.len + 3 <= s.end)
  }

  ghost function InsertedBy(k: Rules, spots: seq<Spot>): set<nat> {
    set p: nat | p < |spots| && Inserted(k, spots[p], p)
  }

  // A match has to be looked for: there is a string with the same hash, not too
  // far back, and the match before is not long enough.
  ghost predicate Due(k: Rules, data: seq<byte>, ins: set<nat>, p: nat, s: Spot)
    requires s.Searched?
  {
    && p + 3 <= |data| && s.prev < k.tuning.max_lazy
    && exists b :: b in ins && Candidate(b, HashAt(data, p, k.hash_bits), p, data, s.base, k.hash_bits) && p <= b + k.max_dist
  }

  function TriesFor(t: Tuning, prev: nat): nat {
    if prev >= t.good_length then t.max_chain / 4 else t.max_chain
  }

  // The result of longest_match(): a match longer than prev, and none longer
  // among the strings looked at, from the latest back; it stops at the start of
  // the window, at the greatest distance, when the match is nice enough, or
  // after so many tries.
  ghost predicate FoundAt(k: Rules, data: seq<byte>, ins: set<nat>, p: nat, s: Spot)
    requires s.Searched? && p + 3 <= |data|
  {
    && s.found <= |data| - p
    && (s.found > s.prev ==> s.found <= MAX_MATCH && 1 <= s.dist <= k.max_dist && MatchAt(data, p, p - s.dist, s.found))
    && (s.found <= s.prev ==> s.found == Minimum(s.prev, |data| - p))
    && Looked(data, p, HashAt(data, p, k.hash_bits), s.base, ins, k.hash_bits, s.from, s.seen,
         if s.found > s.prev then s.found else s.prev)
    && |s.seen| <= TriesFor(k.tuning, s.prev)
    && (s.from <= s.base + 1 || s.from + k.max_dist <= p + 1 || s.found >= Minimum(k.tuning.nice_length, |data| - p)
        || |s.seen| == TriesFor(k.tuning, s.prev))
  }

  // Lazy evaluation drops short matches of filtered data, and those of three
  // bytes that are far away.
  predicate Dropped(k: Rules, len: nat, dist: nat) {
    k.lazy && len <= 5 && (k.strategy == Filtered || (len == 3 && dist > 4096))
  }

  ghost predicate HashedOk(k: Rules, data: seq<byte>, ins: set<nat>, p: nat, s: Spot)
    requires s.Searched?
  {
    if Due(k, data, ins, p, s) then
      FoundAt(k, data, ins, p, s) && s.len == if s.found > s.prev && !Dropped(k, s.found, s.dist) then s.found else 0
    else s.len == 0
  }

  // The run of the byte before p, from three bytes on.
  ghost predicate RunOk(data: seq<byte>, p: nat, s: Spot)
    requires s.Searched?
  {
    if s.len == 0 then !MatchAt(data, p, p - 1, MIN_MATCH)
    else
      && MIN_MATCH <= s.len <= MAX_MATCH && s.dist == 1 && MatchAt(data, p, p - 1, s.len)
      && (s.len == MAX_MATCH || !MatchAt(data, p, p - 1, s.len + 1))
  }

  // The length that a match at the next place has to beat.
  function ToBeat(k: Rules, spots: seq<Spot>): nat {
    if k.lazy && spots != [] && spots[|spots| - 1].Searched? && spots[|spots| - 1].len > 0 then spots[|spots| - 1].len
    else MIN_MATCH - 1
  }

  // What is recorded of place p behind the others is right. The window starts at
  // the start of the data, or so far back that no match is missed.
  ghost predicate SpotOk(k: Rules, data: seq<byte>, spots: seq<Spot>, s: Spot) {
    s.end <= |data| && (s.Searched? ==>
      && |spots| < s.end && (s.base == 0 || s.base + k.max_dist <= |spots|)
      && match k.strategy
         case HuffmanOnly => s.len == 0
         case Rle => RunOk(data[..s.end], |spots|, s)
         case _ => s.prev == ToBeat(k, spots) && HashedOk(k, data[..s.end], InsertedBy(k, spots), |spots|, s))
  }

  // ---- Which symbols follow ----

  // The places from a on that are inside the match of length len at start.
  predicate AllSkipped(spots: seq<Spot>, a: nat, end: nat, start: nat, len: nat) {
    start + len <= |spots| && forall q :: a <= q < start + len ==> spots[q] == Skipped(end, start, len)
  }

  // No match was found at place a; or, at place a, one that is no shorter than
  // the match before.
  predicate NoneAt(spots: seq<Spot>, a: nat) {
    a < |spots| && spots[a].Searched? && spots[a].len == 0
  }

  predicate MatchOf(spots: seq<Spot>, a: nat) {
    a < |spots| && spots[a].Searched? && spots[a].len > 0
  }

  // A literal stands where no match was found, or where a longer one was found at
  // the next place; a match is the one found there, and no longer one was found
  // at the next place.
  predicate TokenAt(k: Rules, spots: seq<Spot>, a: nat, t: Token) {
    match t
    case Literal(_) => NoneAt(spots, a) || (k.lazy && MatchOf(spots, a) && MatchOf(spots, a + 1))
    case Match(len, dist) =>
      && MatchOf(spots, a) && len == spots[a].len && dist == spots[a].dist
      && if k.lazy then NoneAt(spots, a + 1) && AllSkipped(spots, a + 2, spots[a + 1].end, a, len)
         else AllSkipped(spots, a + 1, spots[a].end, a, len)
  }

  // The number of bytes that symbols stand for.
  function Reach(ts: seq<Token>): nat {
    if ts == [] then 0 else Reach(ts[..|ts| - 1]) + (if ts[|ts| - 1].Match? then ts[|ts| - 1].len else 1)
  }

  ghost predicate Chosen(k: Rules, data: seq<byte>, spots: seq<Spot>, ts: seq<Token>) {
    && (forall p :: 0 <= p < |spots| ==> SpotOk(k, data, spots[..p], spots[p]))
    && (forall i :: 0 <= i < |ts| ==> TokenAt(k, spots, Reach(ts[..i]), ts[i]))
  }

  // ---- What this says of each symbol ----

  // Why no match is recorded for place a: too near the end, the match before is
  // long enough, no string with the same hash within reach, none among those
  // looked at is longer, or the longest one is dropped.
  ghost predicate Unmatched(k: Rules, data: seq<byte>, spots: seq<Spot>, a: nat)
    requires a < |spots| && spots[a].Searched? && spots[a].end <= |data|
  {
    var s := spots[a];
    || a + 3 > s.end
    || s.prev >= k.tuning.max_lazy
    || (forall b | b in InsertedBy(k, spots[..a])
          && Candidate(b, HashAt(data[..s.end], a, k.hash_bits), a, data[..s.end], s.base, k.hash_bits) :: a > b + k.max_dist)
    || (FoundAt(k, data[..s.end], InsertedBy(k, spots[..a]), a, s) && (s.found <= s.prev || Dropped(k, s.found, s.dist)))
  }

  lemma UnmatchedWhen(k: Rules, data: seq<byte>, spots: seq<Spot>, ts: seq<Token>, a: nat)
    requires Chosen(k, data, spots, ts) && UsesHashes(k) && NoneAt(spots, a)
    ensures spots[a].end <= |data| && Unmatched(k, data, spots, a)
  {
    hide FoundAt, InsertedBy, Hash3, ToBeat, TokenAt;
    assert SpotOk(k, data, spots[..a], spots[a]);
  }

  // A literal is tallied where there is no match, or where lazy evaluation finds a
  // longer one at the next place.
  lemma LiteralWhy(k: Rules, data: seq<byte>, spots: seq<Spot>, ts: seq<Token>, i: nat)
    requires Chosen(k, data, spots, ts) && UsesHashes(k) && i < |ts| && ts[i].Literal?
    ensures var a := Reach(ts[..i]);
      && a < |spots| && spots[a].Searched? && spots[a].end <= |data|
      && (Unmatched(k, data, spots, a)
          || (k.lazy && a + 1 < |spots| && spots[a + 1].Searched? && spots[a + 1].found > spots[a].len >= MIN_MATCH))
  {
    hide Unmatched, FoundAt, Reach, Due;
    var a := Reach(ts[..i]);
    assert TokenAt(k, spots, a, ts[i]);
    assert SpotOk(k, data, spots[..a], spots[a]);
    if NoneAt(spots, a) {
      UnmatchedWhen(k, data, spots, ts, a);
    } else {
      assert SpotOk(k, data, spots[..a + 1], spots[a + 1]);
    }
  }

  // A match is tallied as it was found, and lazy evaluation has looked for a
  // longer one at the next place in vain.
  lemma MatchWhy(k: Rules, data: seq<byte>, spots: seq<Spot>, ts: seq<Token>, i: nat)
    requires Chosen(k, data, spots, ts) && UsesHashes(k) && i < |ts| && ts[i].Match?
    ensures var a := Reach(ts[..i]);
      && a < |spots| && spots[a].Searched? && a + 3 <= spots[a].end <= |data|
      && FoundAt(k, data[..spots[a].end], InsertedBy(k, spots[..a]), a, spots[a])
      && ts[i] == Match(spots[a].found, spots[a].dist) && spots[a].found > spots[a].prev
      && (k.lazy ==>
            && NoneAt(spots, a + 1) && spots[a + 1].prev == spots[a].found && spots[a + 1].end <= |data|
            && Unmatched(k, data, spots, a + 1))
  {
    hide Unmatched, FoundAt, Reach;
    var a := Reach(ts[..i]);
    assert TokenAt(k, spots, a, ts[i]);
    assert SpotOk(k, data, spots[..a], spots[a]);
    if k.lazy {
      assert SpotOk(k, data, spots[..a + 1], spots[a + 1]);
      UnmatchedWhen(k, data, spots, ts, a + 1);
    }
  }

  // With run-length encoding: a literal only where no three bytes repeat the one
  // before, and a match as long as the bytes do.
  lemma RunWhy(k: Rules, data: seq<byte>, spots: seq<Spot>, ts: seq<Token>, i: nat)
    requires Chosen(k, data, spots, ts) && k.strategy == Rle && !k.lazy && i < |ts|
    ensures var a := Reach(ts[..i]);
      && a < |spots| && spots[a].Searched? && a < spots[a].end <= |data|
      && var seen := data[..spots[a].end];
         match ts[i]
         case Literal(_) => !MatchAt(seen, a, a - 1, MIN_MATCH)
         case Match(len, dist) =>
           dist == 1 && MatchAt(seen, a, a - 1, len) && (len == MAX_MATCH || !MatchAt(seen, a, a - 1, len + 1))
  {
    hide Reach, MatchAt;
    var a := Reach(ts[..i]);
    assert TokenAt(k, spots, a, ts[i]);
    assert SpotOk(k, data, spots[..a], spots[a]);
  }

  // All symbols of all blocks.
  function AllTokens(fs: seq<Flush>): seq<Token> {
    if fs == [] then [] else AllTokens(fs[..|fs| - 1]) + fs[|fs| - 1].tokens
  }

  lemma AllTokensMore(fs: seq<Flush>, f: Flush)
    ensures AllTokens(fs + [f]) == AllTokens(fs) + f.tokens
  {
    assert (fs + [f])[..|fs|] == fs;
  }

  // ---- More places, more symbols, more data ----

  lemma ReachMore(ts: seq<Token>, t: Token)
    ensures Reach(ts + [t]) == Reach(ts) + if t.Match? then t.len else 1
  {
    assert (ts + [t])[..|ts|] == ts;
  }

  lemma ChosenSpot(k: Rules, data: seq<byte>, spots: seq<Spot>, ts: seq<Token>, s: Spot)
    requires Chosen(k, data, spots, ts) && SpotOk(k, data, spots, s)
    ensures Chosen(k, data, spots + [s], ts)
  {
    hide SpotOk, Reach;
    var more := spots + [s];
    forall p | 0 <= p < |more| ensures SpotOk(k, data, more[..p], more[p]) {
      assert more[..p] == if p < |spots| then spots[..p] else spots;
    }
    forall i | 0 <= i < |ts| ensures TokenAt(k, more, Reach(ts[..i]), ts[i]) {
      assert TokenAt(k, spots, Reach(ts[..i]), ts[i]);
    }
  }

  lemma ChosenToken(k: Rules, data: seq<byte>, spots: seq<Spot>, ts: seq<Token>, t: Token)
    requires Chosen(k, data, spots, ts) && TokenAt(k, spots, Reach(ts), t)
    ensures Chosen(k, data, spots, ts + [t])
  {
    hide SpotOk, Reach, TokenAt;
    var more := ts + [t];
    forall i | 0 <= i < |more| ensures TokenAt(k, spots, Reach(more[..i]), more[i]) {
      assert more[..i] == if i < |ts| then ts[..i] else ts;
    }
  }

  lemma ChosenKept(k: Rules, data: seq<byte>, more: seq<byte>, spots: seq<Spot>, ts: seq<Token>)
    requires Chosen(k, data, spots, ts)
    ensures Chosen(k, data + more, spots, ts)
  {
    hide TokenAt, Reach, RunOk, HashedOk;
    forall p | 0 <= p < |spots| ensures SpotOk(k, data + more, spots[..p], spots[p]) {
      assert SpotOk(k, data, spots[..p], spots[p]);
      assert (data + more)[..spots[p].end] == data[..spots[p].end];
    }
  }

  function Skips(end: nat, start: nat, len: nat, n: nat): (s: seq<Spot>)
    ensures |s| == n && forall i :: 0 <= i < n ==> s[i] == Skipped(end, start, len)
  {
    seq(n, i => Skipped(end, start, len))
  }

  lemma {:induction false} ChosenSkips(k: Rules, data: seq<byte>, spots: seq<Spot>, ts: seq<Token>, end: nat, start: nat,
                                       len: nat, n: nat)
    requires Chosen(k, data, spots, ts) && end <= |data|
    ensures Chosen(k, data, spots + Skips(end, start, len, n), ts)
  {
    hide Chosen;
    if n == 0 {
      assert spots + Skips(end, start, len, n) == spots;
    } else {
      ChosenSkips(k, data, spots, ts, end, start, len, n - 1);
      ChosenSpot(k, data, spots + Skips(end, start, len, n - 1), ts, Skipped(end, start, len));
      assert spots + Skips(end, start, len, n) == spots + Skips(end, start, len, n - 1) + [Skipped(end, start, len)];
    }
  }

  // ---- The record and the symbols so far ----

  predicate UsesHashes(k: Rules) {
    k.strategy != HuffmanOnly && k.strategy != Rle
  }

  // All places before place are recorded; the symbols end at place covered.
  ghost predicate Told(k: Rules, data: seq<byte>, spots: seq<Spot>, ts: seq<Token>, covered: nat, place: nat, ins: set<nat>) {
    && Chosen(k, data, spots, ts) && Reach(ts) == covered && |spots| == place
    && (UsesHashes(k) ==> ins == InsertedBy(k, spots))
  }

  // The place before waits: its match, or none, is what lazy evaluation keeps.
  predicate Waiting(spots: seq<Spot>, available: bool, match_length: nat, dist: int) {
    if available then
      && spots != [] && spots[|spots| - 1].Searched?
      && if match_length >= MIN_MATCH then spots[|spots| - 1].len == match_length && spots[|spots| - 1].dist == dist
         else spots[|spots| - 1].len == 0
    else match_length < MIN_MATCH && (spots == [] || spots[|spots| - 1].Skipped?)
  }

  lemma ToldIns(k: Rules, data: seq<byte>, spots: seq<Spot>, ts: seq<Token>, covered: nat, place: nat, ins: set<nat>)
    requires Told(k, data, spots, ts, covered, place, ins)
    ensures |spots| == place && (UsesHashes(k) ==> ins == InsertedBy(k, spots))
  {
  }

  // Without hashes, nothing is said of the places inserted.
  lemma ToldAnyway(k: Rules, data: seq<byte>, spots: seq<Spot>, ts: seq<Token>, covered: nat, place: nat, ins: set<nat>,
                   other: set<nat>)
    requires Told(k, data, spots, ts, covered, place, ins) && !UsesHashes(k)
    ensures Told(k, data, spots, ts, covered, place, other)
  {
    hide Chosen;
  }

  lemma HereIs(k: Rules, s: Spot, p: nat)
    requires s.Searched?
    ensures Here(k, s, p) == if p + 3 <= s.end then {p} else {}
  {
  }

  // What Waiting says of a place that waits.
  lemma WaitingIs(spots: seq<Spot>, match_length: nat, dist: int)
    requires Waiting(spots, true, match_length, dist)
    ensures spots != [] && spots[|spots| - 1].Searched?
    ensures match_length >= MIN_MATCH ==> spots[|spots| - 1].len == match_length && spots[|spots| - 1].dist == dist
    ensures match_length < MIN_MATCH ==> spots[|spots| - 1].len == 0
  {
  }

  lemma NothingWaits(spots: seq<Spot>)
    requires spots != [] && spots[|spots| - 1].Skipped?
    ensures forall n: nat, d: int :: n < MIN_MATCH ==> Waiting(spots, false, n, d)
  {
  }

  lemma EagerBeats(k: Rules, spots: seq<Spot>)
    ensures !k.lazy ==> ToBeat(k, spots) == MIN_MATCH - 1
  {
  }

  lemma ToBeatIs(k: Rules, spots: seq<Spot>, available: bool, match_length: nat, dist: int)
    requires k.lazy && Waiting(spots, available, match_length, dist) && match_length >= MIN_MATCH - 1
    ensures ToBeat(k, spots) == match_length
  {
  }

  // Place p, if it is inserted; and which of n places from a on are, when they
  // lie inside a match.
  ghost function Here(k: Rules, s: Spot, p: nat): set<nat> {
    if Inserted(k, s, p) then {p} else {}
  }

  lemma InsertedMore(k: Rules, spots: seq<Spot>, s: Spot)
    ensures InsertedBy(k, spots + [s]) == InsertedBy(k, spots) + Here(k, s, |spots|)
  {
    hide Inserted;
    var more := spots + [s];
    forall p: nat | p < |more| ensures more[p] == if p < |spots| then spots[p] else s {
    }
  }

  ghost function Inside(k: Rules, a: nat, n: nat, start: nat, len: nat, end: nat): set<nat> {
    set p: nat | a <= p < a + n && Inserted(k, Skipped(end, start, len), p)
  }

  function Places(a: nat, n: nat): (s: set<nat>)
    ensures forall p :: p in s <==> a <= p < a + n
  {
    if n == 0 then {} else Places(a, n - 1) + {a + n - 1}
  }

  lemma PlacesMore(a: nat, n: nat)
    ensures Places(a, 0) == {} && Places(a, n + 1) == Places(a, n) + {a + n}
  {
  }

  // Without lazy evaluation all places inside a match are inserted, or none.
  lemma InsideEager(k: Rules, a: nat, len: nat, end: nat)
    requires !k.lazy && len >= 1
    ensures Inside(k, a + 1, len - 1, a, len, end) ==
      if len <= k.tuning.max_lazy && a + len + 3 <= end then Places(a + 1, len - 1) else {}
  {
  }

  // With it, all of which three bytes are known.
  ghost function Known(a: nat, n: nat, end: nat): (s: set<nat>)
    ensures forall p :: p in s <==> a <= p < a + n && p + 3 <= end
  {
    if n == 0 then {} else Known(a, n - 1, end) + if a + n - 1 + 3 <= end then {a + n - 1} else {}
  }

  lemma InsideLazy(k: Rules, a: nat, n: nat, start: nat, len: nat, end: nat)
    requires k.lazy
    ensures Inside(k, a, n, start, len, end) == Known(a, n, end)
  {
  }

  lemma InsertedSkips(k: Rules, spots: seq<Spot>, end: nat, start: nat, len: nat, n: nat)
    ensures InsertedBy(k, spots + Skips(end, start, len, n))
         == InsertedBy(k, spots) + Inside(k, |spots|, n, start, len, end)
  {
    hide Inserted;
    var more := spots + Skips(end, start, len, n);
    forall p: nat | p < |more| ensures more[p] == if p < |spots| then spots[p] else Skipped(end, start, len) {
    }
  }

  lemma ToldSpot(k: Rules, data: seq<byte>, spots: seq<Spot>, ts: seq<Token>, covered: nat, ins: set<nat>, s: Spot)
    requires Told(k, data, spots, ts, covered, |spots|, ins) && SpotOk(k, data, spots, s)
    ensures Told(k, data, spots + [s], ts, covered, |spots| + 1, ins + Here(k, s, |spots|))
  {
    hide Chosen, SpotOk, Here, InsertedBy;
    ChosenSpot(k, data, spots, ts, s);
    InsertedMore(k, spots, s);
  }

  lemma ToldSkips(k: Rules, data: seq<byte>, spots: seq<Spot>, ts: seq<Token>, covered: nat, ins: set<nat>,
                  end: nat, start: nat, len: nat, n: nat)
    requires Told(k, data, spots, ts, covered, |spots|, ins) && end <= |data|
    ensures Told(k, data, spots + Skips(end, start, len, n), ts, covered, |spots| + n,
      ins + Inside(k, |spots|, n, start, len, end))
  {
    hide Chosen, InsertedBy;
    ChosenSkips(k, data, spots, ts, end, start, len, n);
    InsertedSkips(k, spots, end, start, len, n);
  }

  lemma ToldToken(k: Rules, data: seq<byte>, spots: seq<Spot>, ts: seq<Token>, covered: nat, place: nat, ins: set<nat>, t: Token)
    requires Told(k, data, spots, ts, covered, place, ins) && TokenAt(k, spots, covered, t)
    ensures Told(k, data, spots, ts + [t], covered + (if t.Match? then t.len else 1), place, ins)
  {
    hide Chosen, TokenAt, InsertedBy;
    ChosenToken(k, data, spots, ts, t);
    ReachMore(ts, t);
  }

  lemma ToldKept(k: Rules, data: seq<byte>, more: seq<byte>, spots: seq<Spot>, ts: seq<Token>, covered: nat, place: nat,
                 ins: set<nat>)
    requires Told(k, data, spots, ts, covered, place, ins)
    ensures Told(k, data + more, spots, ts, covered, place, ins)
  {
    hide Chosen, InsertedBy;
    ChosenKept(k, data, more, spots, ts);
  }

  lemma NothingTold(k: Rules)
    ensures Told(k, [], [], [], 0, 0, {})
  {
  }

  // ---- Which places were searched with how much of the data at hand ----

  // One more place was searched, when the data reached to end.
  ghost predicate OneSearch(before: seq<Spot>, after: seq<Spot>, end: nat) {
    && before < after && after[|before|].Searched? && after[|before|].end == end
    && forall q :: |before| < q < |after| ==> after[q].Skipped?
  }

  // From place from on, there was so much data ahead of every place searched, or
  // all there is.
  ghost predicate Informed(spots: seq<Spot>, from: nat, ahead: nat, finish: bool, total: nat) {
    forall p :: from <= p < |spots| && spots[p].Searched? ==>
      p + ahead <= spots[p].end || (finish && spots[p].end == total)
  }

  lemma NoneSearched(spots: seq<Spot>)
    ensures forall ahead: nat, finish: bool, total: nat :: Informed(spots, |spots|, ahead, finish, total)
  {
  }

  lemma InformedMore(before: seq<Spot>, after: seq<Spot>, end: nat, from: nat, ahead: nat, finish: bool, total: nat)
    requires Informed(before, from, ahead, finish, total) && OneSearch(before, after, end)
    requires |before| + ahead <= end || (finish && end == total)
    ensures before <= after && Informed(after, from, ahead, finish, total)
  {
  }

  // ---- The steps of the compression functions ----

  // The symbols of the block, ts, come behind those of the blocks before, front.
  lemma EagerLiteral(k: Rules, data: seq<byte>, spots: seq<Spot>, front: seq<Token>, ts: seq<Token>, ins: set<nat>, s: Spot,
                     c: byte, a: nat)
    requires Told(k, data, spots, front + ts, a, a, ins) && SpotOk(k, data, spots, s) && s.Searched? && s.len == 0
    ensures |spots| == a && OneSearch(spots, spots + [s], s.end)
    ensures Told(k, data, spots + [s], front + (ts + [Literal(c)]), a + 1, a + 1, ins + Here(k, s, a))
  {
    ToldIns(k, data, spots, front + ts, a, a, ins);
    hide Told, SpotOk, Here, InsertedBy;
    ToldSpot(k, data, spots, front + ts, a, ins, s);
    ToldToken(k, data, spots + [s], front + ts, a, a + 1, ins + Here(k, s, a), Literal(c));
    assert front + ts + [Literal(c)] == front + (ts + [Literal(c)]);
  }

  lemma EagerToken(k: Rules, spots: seq<Spot>, s: Spot, a: nat)
    requires |spots| == a && s.Searched? && s.len > 0 && !k.lazy
    ensures TokenAt(k, spots + [s] + Skips(s.end, a, s.len, s.len - 1), a, Match(s.len, s.dist))
  {
    var more := spots + [s] + Skips(s.end, a, s.len, s.len - 1);
    assert more[a] == s;
    forall q | a + 1 <= q < a + s.len ensures more[q] == Skipped(s.end, a, s.len) {
      assert more[q] == Skips(s.end, a, s.len, s.len - 1)[q - a - 1];
    }
  }

  lemma EagerMatch(k: Rules, data: seq<byte>, spots: seq<Spot>, front: seq<Token>, ts: seq<Token>, ins: set<nat>, s: Spot,
                   a: nat)
    requires Told(k, data, spots, front + ts, a, a, ins) && SpotOk(k, data, spots, s) && s.Searched? && s.len > 0
    requires TokenAt(k, spots + [s] + Skips(s.end, a, s.len, s.len - 1), a, Match(s.len, s.dist))
    ensures |spots| == a && OneSearch(spots, spots + [s] + Skips(s.end, a, s.len, s.len - 1), s.end)
    ensures Told(k, data, spots + [s] + Skips(s.end, a, s.len, s.len - 1), front + (ts + [Match(s.len, s.dist)]),
      a + s.len, a + s.len, ins + Here(k, s, a) + Inside(k, a + 1, s.len - 1, a, s.len, s.end))
  {
    ToldIns(k, data, spots, front + ts, a, a, ins);
    SpotEnd(k, data, spots, s);
    SearchAndSkips(spots, s, a, s.len, s.len - 1);
    hide Told, SpotOk, Here, Inside, TokenAt, Skips, InsertedBy, OneSearch;
    ToldSpot(k, data, spots, front + ts, a, ins, s);
    MatchTaken(k, data, spots + [s], front, ts, a, ins + Here(k, s, a), s.end, s.len, s.len - 1, s.dist);
  }

  lemma SearchAndSkips(spots: seq<Spot>, s: Spot, a: nat, len: nat, n: nat)
    requires s.Searched?
    ensures OneSearch(spots, spots + [s] + Skips(s.end, a, len, n), s.end)
  {
    var more := spots + [s] + Skips(s.end, a, len, n);
    assert more[..|spots|] == spots && more[|spots|] == s;
    forall q | |spots| < q < |more| ensures more[q].Skipped? {
      assert more[q] == Skips(s.end, a, len, n)[q - |spots| - 1];
    }
  }

  lemma SpotEnd(k: Rules, data: seq<byte>, spots: seq<Spot>, s: Spot)
    requires SpotOk(k, data, spots, s)
    ensures s.end <= |data|
  {
  }

  // The same without hashes: whatever places are inserted.
  lemma PlainLiteral(k: Rules, data: seq<byte>, spots: seq<Spot>, front: seq<Token>, ts: seq<Token>, ins: set<nat>, s: Spot,
                     c: byte, a: nat)
    requires Told(k, data, spots, front + ts, a, a, ins) && SpotOk(k, data, spots, s) && s.Searched? && s.len == 0
    requires !UsesHashes(k)
    ensures |spots| == a && OneSearch(spots, spots + [s], s.end)
    ensures Told(k, data, spots + [s], front + (ts + [Literal(c)]), a + 1, a + 1, ins)
  {
    hide Told, SpotOk, Here, OneSearch;
    EagerLiteral(k, data, spots, front, ts, ins, s, c, a);
    ToldAnyway(k, data, spots + [s], front + (ts + [Literal(c)]), a + 1, a + 1, ins + Here(k, s, a), ins);
  }

  lemma PlainMatch(k: Rules, data: seq<byte>, spots: seq<Spot>, front: seq<Token>, ts: seq<Token>, ins: set<nat>, s: Spot,
                   a: nat)
    requires Told(k, data, spots, front + ts, a, a, ins) && SpotOk(k, data, spots, s) && s.Searched? && s.len > 0
    requires !UsesHashes(k) && !k.lazy
    ensures |spots| == a && OneSearch(spots, spots + [s] + Skips(s.end, a, s.len, s.len - 1), s.end)
    ensures Told(k, data, spots + [s] + Skips(s.end, a, s.len, s.len - 1), front + (ts + [Match(s.len, s.dist)]),
      a + s.len, a + s.len, ins)
  {
    ToldIns(k, data, spots, front + ts, a, a, ins);
    EagerToken(k, spots, s, a);
    hide Told, SpotOk, Here, Inside, TokenAt, Skips, InsertedBy, OneSearch;
    EagerMatch(k, data, spots, front, ts, ins, s, a);
    ToldAnyway(k, data, spots + [s] + Skips(s.end, a, s.len, s.len - 1), front + (ts + [Match(s.len, s.dist)]),
      a + s.len, a + s.len, ins + Here(k, s, a) + Inside(k, a + 1, s.len - 1, a, s.len, s.end), ins);
  }

  // No match is looked for at all.
  function Bare(end: nat, base: nat): Spot {
    Searched(end, base, 0, 0, 0, 0, 0, {})
  }

  lemma BareLiteral(k: Rules, data: seq<byte>, spots: seq<Spot>, front: seq<Token>, ts: seq<Token>, ins: set<nat>, base: nat,
                    c: byte, a: nat)
    requires Told(k, data, spots, front + ts, a, a, ins) && k.strategy == HuffmanOnly
    requires a < |data| && (base == 0 || base + k.max_dist <= a)
    ensures |spots| == a && spots < spots + [Bare(|data|, base)]
    ensures Told(k, data, spots + [Bare(|data|, base)], front + (ts + [Literal(c)]), a + 1, a + 1, ins)
  {
    ToldIns(k, data, spots, front + ts, a, a, ins);
    hide Told, InsertedBy;
    PlainLiteral(k, data, spots, front, ts, ins, Bare(|data|, base), c, a);
  }

  // Lazy evaluation: nothing waits yet; or the place before had no match, or has a
  // longer one behind it.
  lemma LazyWaits(k: Rules, data: seq<byte>, spots: seq<Spot>, ts: seq<Token>, ins: set<nat>, s: Spot, a: nat)
    requires Told(k, data, spots, ts, a, a, ins) && SpotOk(k, data, spots, s) && s.Searched?
    ensures |spots| == a && OneSearch(spots, spots + [s], s.end)
    ensures Told(k, data, spots + [s], ts, a, a + 1, ins + Here(k, s, a))
  {
    ToldIns(k, data, spots, ts, a, a, ins);
    hide Told, SpotOk, Here, InsertedBy;
    ToldSpot(k, data, spots, ts, a, ins, s);
  }

  lemma LazyLiterals(k: Rules, data: seq<byte>, spots: seq<Spot>, front: seq<Token>, ts: seq<Token>, ins: set<nat>, s: Spot,
                     c: byte, a: nat)
    requires Told(k, data, spots, front + ts, a, a + 1, ins) && SpotOk(k, data, spots, s) && s.Searched? && k.lazy
    requires a < |spots| && spots[a].Searched? && (spots[a].len > 0 ==> s.len > 0)
    ensures |spots| == a + 1 && OneSearch(spots, spots + [s], s.end)
    ensures Told(k, data, spots + [s], front + (ts + [Literal(c)]), a + 1, a + 2, ins + Here(k, s, a + 1))
  {
    ToldIns(k, data, spots, front + ts, a, a + 1, ins);
    hide Told, SpotOk, Here, InsertedBy;
    ToldSpot(k, data, spots, front + ts, a, ins, s);
    ToldToken(k, data, spots + [s], front + ts, a, a + 2, ins + Here(k, s, a + 1), Literal(c));
    assert front + ts + [Literal(c)] == front + (ts + [Literal(c)]);
  }

  // At the end of the data: the last place had no match.
  lemma LastLiterals(k: Rules, data: seq<byte>, spots: seq<Spot>, front: seq<Token>, ts: seq<Token>, ins: set<nat>, c: byte,
                     a: nat)
    requires Told(k, data, spots, front + ts, a, a + 1, ins) && NoneAt(spots, a)
    ensures Told(k, data, spots, front + (ts + [Literal(c)]), a + 1, a + 1, ins)
  {
    hide Told, NoneAt;
    ToldToken(k, data, spots, front + ts, a, a + 1, ins, Literal(c));
    assert front + ts + [Literal(c)] == front + (ts + [Literal(c)]);
  }

  lemma LazyToken(k: Rules, spots: seq<Spot>, s: Spot, a: nat, m: Spot)
    requires |spots| == a + 1 && m == spots[a] && m.Searched? && m.len >= MIN_MATCH && s.Searched? && s.len == 0 && k.lazy
    ensures TokenAt(k, spots + [s] + Skips(s.end, a, m.len, m.len - 2), a, Match(m.len, m.dist))
  {
    var more := spots + [s] + Skips(s.end, a, m.len, m.len - 2);
    assert more[a] == m && more[a + 1] == s;
    forall q | a + 2 <= q < a + m.len ensures more[q] == Skipped(s.end, a, m.len) {
      assert more[q] == Skips(s.end, a, m.len, m.len - 2)[q - a - 2];
    }
  }

  // The match at the place before is not shorter.
  lemma LazyMatches(k: Rules, data: seq<byte>, spots: seq<Spot>, front: seq<Token>, ts: seq<Token>, ins: set<nat>, s: Spot,
                    a: nat, len: nat, dist: nat)
    requires Told(k, data, spots, front + ts, a, a + 1, ins) && SpotOk(k, data, spots, s) && s.Searched?
    requires len >= MIN_MATCH && TokenAt(k, spots + [s] + Skips(s.end, a, len, len - 2), a, Match(len, dist))
    ensures |spots| == a + 1 && OneSearch(spots, spots + [s] + Skips(s.end, a, len, len - 2), s.end)
    ensures Told(k, data, spots + [s] + Skips(s.end, a, len, len - 2), front + (ts + [Match(len, dist)]), a + len, a + len,
      ins + Here(k, s, a + 1) + Inside(k, a + 2, len - 2, a, len, s.end))
  {
    ToldIns(k, data, spots, front + ts, a, a + 1, ins);
    SpotEnd(k, data, spots, s);
    SearchAndSkips(spots, s, a, len, len - 2);
    hide Told, SpotOk, Here, Inside, TokenAt, Skips, InsertedBy, OneSearch;
    ToldSpot(k, data, spots, front + ts, a, ins, s);
    MatchTaken(k, data, spots + [s], front, ts, a, ins + Here(k, s, a + 1), s.end, len, len - 2, dist);
  }

  // The match at place a is tallied, and its last n places are skipped.
  lemma MatchTaken(k: Rules, data: seq<byte>, spots: seq<Spot>, front: seq<Token>, ts: seq<Token>, a: nat, ins: set<nat>,
                   end: nat, len: nat, n: nat, dist: nat)
    requires Told(k, data, spots, front + ts, a, |spots|, ins) && |spots| + n == a + len && end <= |data|
    requires TokenAt(k, spots + Skips(end, a, len, n), a, Match(len, dist))
    ensures Told(k, data, spots + Skips(end, a, len, n), front + (ts + [Match(len, dist)]), a + len, a + len,
      ins + Inside(k, |spots|, n, a, len, end))
  {
    hide Told, Inside, TokenAt, Skips;
    ToldSkips(k, data, spots, front + ts, a, ins, end, a, len, n);
    ToldToken(k, data, spots + Skips(end, a, len, n), front + ts, a, a + len, ins + Inside(k, |spots|, n, a, len, end),
      Match(len, dist));
    assert front + ts + [Match(len, dist)] == front + (ts + [Match(len, dist)]);
  }

  // ---- What a search leaves ----

  // The run that was counted, cut off at the end of the data.
  lemma RunIsOk(data: seq<byte>, p: nat, len: nat, s: Spot)
    requires 0 < p < |data| && s.Searched? && len <= MAX_MATCH && NoLonger(data, p, p - 1, len)
    requires if len >= MIN_MATCH && p + MIN_MATCH <= |data| then
               s.len == Minimum(len, |data| - p) && s.dist == 1 && MatchAt(data, p, p - 1, s.len)
             else s.len == 0
    ensures RunOk(data, p, s)
  {
  }

  lemma NoRun(data: seq<byte>, p: nat)
    requires p == 0 || p + MIN_MATCH > |data|
    ensures !MatchAt(data, p, p - 1, MIN_MATCH)
  {
  }

  // Whether a match is due can be seen from the head of its chain.
  lemma DueIs(k: Rules, data: seq<byte>, ins: set<nat>, p: nat, s: Spot, q: nat)
    requires s.Searched? && p + 3 <= |data|
    requires Latest(q, HashAt(data, p, k.hash_bits), p, data, s.base, ins + {p}, k.hash_bits)
    ensures Due(k, data, ins, p, s) <==> s.prev < k.tuning.max_lazy && q > 0 && p <= s.base + q + k.max_dist
  {
    hide Hash3;
    var h := HashAt(data, p, k.hash_bits);
    if q > 0 {
      assert s.base + q in ins && Candidate(s.base + q, h, p, data, s.base, k.hash_bits);
    }
  }

  // That the place itself is inserted makes no difference to it.
  lemma FoundSame(k: Rules, data: seq<byte>, ins: set<nat>, p: nat, s: Spot)
    requires s.Searched? && p + 3 <= |data| && FoundAt(k, data, ins + {p}, p, s)
    ensures FoundAt(k, data, ins, p, s)
  {
    hide Hash3, NoLonger, MatchAt;
  }

  // The result of a search, or of none, is what the record has to say.
  lemma SpotFound(k: Rules, data: seq<byte>, spots: seq<Spot>, s: Spot, q: nat)
    requires UsesHashes(k) && s.Searched? && s.end == |data| && |spots| < |data| && s.prev == ToBeat(k, spots)
    requires s.base == 0 || s.base + k.max_dist <= |spots|
    requires var p, ins := |spots|, InsertedBy(k, spots) + {|spots|};
      if p + 3 <= |data| then
        && Latest(q, HashAt(data, p, k.hash_bits), p, data, s.base, ins, k.hash_bits)
        && if s.prev < k.tuning.max_lazy && q > 0 && p <= s.base + q + k.max_dist then
             FoundAt(k, data, ins, p, s) && s.len == if s.found > s.prev && !Dropped(k, s.found, s.dist) then s.found else 0
           else s.len == 0
      else s.len == 0
    ensures SpotOk(k, data, spots, s)
  {
    hide InsertedBy, Latest, FoundAt, Hash3;
    assert data[..s.end] == data;
    if |spots| + 3 <= |data| {
      DueIs(k, data, InsertedBy(k, spots), |spots|, s, q);
      if Due(k, data, InsertedBy(k, spots), |spots|, s) { FoundSame(k, data, InsertedBy(k, spots), |spots|, s); }
    }
  }
}
