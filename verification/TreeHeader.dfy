// trees.c: the code lengths in front of a dynamic block, run-length coded.
module TreeHeader {
  import opened Bits
  import opened CanonicalCode
  import opened BitWriter
  import opened Format
  import opened Heap
  import Trees

  const REP_3_6: nat := 16
  const REPZ_3_10: nat := 17
  const REPZ_11_138: nat := 18
  const GUARD: nat := 65535

  // One code length symbol, with the value of its extra bits: 0 to 15 is a
  // length, 16 repeats the previous length, 17 and 18 repeat zero.
  datatype Item = Item(sym: nat, extra: nat)

  const EXTRA_BLBITS: seq<nat> := [0, 0, 0, 0, 0, 0, 0, 0, 0, 0, 0, 0, 0, 0, 0, 0, 2, 3, 7]

  // ---- What the items stand for (section 3.2.7 of RFC 1951) ----

  function Repeat(v: nat, n: nat): (r: seq<nat>)
    ensures |r| == n && forall i :: 0 <= i < n ==> r[i] == v
  {
    if n == 0 then [] else Repeat(v, n - 1) + [v]
  }

  predicate ItemOk(lens: seq<nat>, it: Item) {
    && it.sym < BL_CODES && it.extra < Pow2(EXTRA_BLBITS[it.sym])
    && (it.sym == REP_3_6 ==> lens != [])
  }

  function ExpandItem(lens: seq<nat>, it: Item): seq<nat>
    requires ItemOk(lens, it)
  {
    if it.sym < REP_3_6 then lens + [it.sym]
    else if it.sym == REP_3_6 then lens + Repeat(lens[|lens| - 1], 3 + it.extra)
    else if it.sym == REPZ_3_10 then lens + Repeat(0, 3 + it.extra)
    else lens + Repeat(0, 11 + it.extra)
  }

  predicate ItemsOk(lens: seq<nat>, items: seq<Item>)
    decreases |items|
  {
    items == [] || (ItemOk(lens, items[0]) && ItemsOk(ExpandItem(lens, items[0]), items[1..]))
  }

  function ExpandItems(lens: seq<nat>, items: seq<Item>): seq<nat>
    requires ItemsOk(lens, items)
    decreases |items|
  {
    if items == [] then lens else ExpandItems(ExpandItem(lens, items[0]), items[1..])
  }

  lemma {:induction false} ExpandConcat(lens: seq<nat>, a: seq<Item>, b: seq<Item>)
    requires ItemsOk(lens, a) && ItemsOk(ExpandItems(lens, a), b)
    ensures ItemsOk(lens, a + b) && ExpandItems(lens, a + b) == ExpandItems(ExpandItems(lens, a), b)
    decreases |a|
  {
    if a == [] {
      assert a + b == b;
    } else {
      assert (a + b)[1..] == a[1..] + b;
      ExpandConcat(ExpandItem(lens, a[0]), a[1..], b);
    }
  }

  // ---- The items that scan_tree() and send_tree() find ----

  // The length after symbol n, with the guard behind the last one.
  function LenAfter(lens: seq<nat>, n: nat): nat
    requires n < |lens|
  {
    if n + 1 < |lens| then lens[n + 1] else GUARD
  }

  // Limits on the repeat count for a length that follows prevlen.
  function MaxCount(len: nat, prevlen: int): nat {
    if len == 0 then 138 else if len == prevlen then 6 else 7
  }

  function MinCount(len: nat, prevlen: int): nat {
    if len == 0 || len == prevlen then 3 else 4
  }

  // A run of count symbols of length len, after prevlen.
  function Run(len: nat, prevlen: int, count: nat): seq<Item>
    requires 1 <= count
  {
    if count < MinCount(len, prevlen) then Singles(len, count)
    else if len != 0 then
      if len != prevlen then [Item(len, 0), Item(REP_3_6, count - 4)]
      else [Item(REP_3_6, count - 3)]
    else if count <= 10 then [Item(REPZ_3_10, count - 3)]
    else [Item(REPZ_11_138, count - 11)]
  }

  function Singles(len: nat, count: nat): seq<Item> {
    if count == 0 then [] else Singles(len, count - 1) + [Item(len, 0)]
  }

  // The items from symbol n on, when count symbols before it, of the same
  // length, are still pending.
  function Items(lens: seq<nat>, n: nat, prevlen: int, count: nat): seq<Item>
    requires n <= |lens|
    decreases |lens| - n
  {
    if n == |lens| then []
    else if count + 1 < MaxCount(lens[n], prevlen) && lens[n] == LenAfter(lens, n) then
      Items(lens, n + 1, prevlen, count + 1)
    else
      Run(lens[n], prevlen, count + 1) + Items(lens, n + 1, lens[n], 0)
  }

  function TreeItems(lens: seq<nat>): seq<Item> {
    Items(lens, 0, -1, 0)
  }

  // ---- Expanding the items gives the lengths back ----

  lemma {:induction false} ExpandSingles(out: seq<nat>, len: nat, count: nat)
    requires len <= 15
    ensures ItemsOk(out, Singles(len, count)) && ExpandItems(out, Singles(len, count)) == out + Repeat(len, count)
  {
    if count > 0 {
      ExpandSingles(out, len, count - 1);
      var r := out + Repeat(len, count - 1);
      var one := [Item(len, 0)];
      assert one[1..] == [];
      assert ItemOk(r, one[0]) by { assert Pow2(0) == 1; }
      assert ItemsOk(r, one) && ExpandItems(r, one) == r + [len];
      ExpandConcat(out, Singles(len, count - 1), one);
      assert r + [len] == out + Repeat(len, count);
    } else {
      assert out + Repeat(len, 0) == out;
    }
  }

  lemma ExpandOneItem(out: seq<nat>, it: Item)
    requires ItemOk(out, it)
    ensures ItemsOk(out, [it]) && ExpandItems(out, [it]) == ExpandItem(out, it)
  {
    assert [it][1..] == [];
  }

  lemma ExpandRepeats(out: seq<nat>, len: nat, n: nat)
    requires out != [] && out[|out| - 1] == len && 3 <= n <= 6
    ensures ItemsOk(out, [Item(REP_3_6, n - 3)])
    ensures ExpandItems(out, [Item(REP_3_6, n - 3)]) == out + Repeat(len, n)
  {
    Pow2Values();
    hide Pow2, ItemsOk, ExpandItems, Repeat;
    ExpandOneItem(out, Item(REP_3_6, n - 3));
  }

  lemma ExpandLenAndRepeats(out: seq<nat>, len: nat, n: nat)
    requires len <= 15 && 4 <= n <= 7
    ensures ItemsOk(out, [Item(len, 0), Item(REP_3_6, n - 4)])
    ensures ExpandItems(out, [Item(len, 0), Item(REP_3_6, n - 4)]) == out + Repeat(len, n)
  {
    Pow2Values();
    hide Pow2, ItemsOk, ExpandItems;
    ExpandOneItem(out, Item(len, 0));
    ExpandRepeats(out + [len], len, n - 1);
    assert [Item(len, 0)] + [Item(REP_3_6, n - 4)] == [Item(len, 0), Item(REP_3_6, n - 4)];
    ExpandConcat(out, [Item(len, 0)], [Item(REP_3_6, n - 4)]);
    assert out + [len] + Repeat(len, n - 1) == out + Repeat(len, n);
  }

  lemma ExpandZeros(out: seq<nat>, n: nat)
    requires 3 <= n <= 138
    ensures var it := if n <= 10 then Item(REPZ_3_10, n - 3) else Item(REPZ_11_138, n - 11);
      ItemsOk(out, [it]) && ExpandItems(out, [it]) == out + Repeat(0, n)
  {
    Pow2Values();
    hide Pow2, ItemsOk, ExpandItems, Repeat;
    ExpandOneItem(out, if n <= 10 then Item(REPZ_3_10, n - 3) else Item(REPZ_11_138, n - 11));
  }

  lemma ExpandRun(out: seq<nat>, len: nat, prevlen: int, count: nat)
    requires len <= 15 && 1 <= count <= MaxCount(len, prevlen)
    requires prevlen >= 0 ==> out != [] && out[|out| - 1] == prevlen
    ensures ItemsOk(out, Run(len, prevlen, count)) && ExpandItems(out, Run(len, prevlen, count)) == out + Repeat(len, count)
  {
    hide ItemsOk, ExpandItems, Repeat, Singles;
    if count < MinCount(len, prevlen) {
      ExpandSingles(out, len, count);
    } else if len == 0 {
      ExpandZeros(out, count);
    } else if len != prevlen {
      ExpandLenAndRepeats(out, len, count);
    } else {
      ExpandRepeats(out, len, count);
    }
  }

  // What the items from symbol n on must expand to.
  function Goal(out: seq<nat>, lens: seq<nat>, n: nat, count: nat): seq<nat>
    requires n <= |lens|
  {
    out + (if n < |lens| then Repeat(lens[n], count) else []) + lens[n..]
  }

  lemma GoalMore(out: seq<nat>, lens: seq<nat>, n: nat, count: nat)
    requires n < |lens|
    ensures n + 1 < |lens| && lens[n + 1] == lens[n] ==> Goal(out, lens, n + 1, count + 1) == Goal(out, lens, n, count)
    ensures Goal(out + Repeat(lens[n], count + 1), lens, n + 1, 0) == Goal(out, lens, n, count)
  {
    var r := Repeat(lens[n], count);
    assert lens[n..] == [lens[n]] + lens[n + 1..];
    assert out + (r + [lens[n]]) + lens[n + 1..] == out + r + ([lens[n]] + lens[n + 1..]);
    assert forall s: seq<nat> :: s + [] == s;
  }

  lemma GoalEnd(out: seq<nat>, lens: seq<nat>)
    ensures Goal(out, lens, |lens|, 0) == out
    ensures Goal(out, lens, 0, 0) == out + lens
  {
    assert lens[0..] == lens;
  }

  // Between two runs, or inside one: the items to come complete the lengths.
  lemma {:induction false} ExpandRest(out: seq<nat>, lens: seq<nat>, n: nat, prevlen: int, count: nat)
    requires n <= |lens| && (n == |lens| ==> count == 0) && forall i :: 0 <= i < |lens| ==> lens[i] <= 15
    requires n < |lens| ==> count < MaxCount(lens[n], prevlen)
    requires prevlen >= 0 ==> out != [] && out[|out| - 1] == prevlen
    ensures ItemsOk(out, Items(lens, n, prevlen, count))
    ensures ExpandItems(out, Items(lens, n, prevlen, count)) == Goal(out, lens, n, count)
    decreases |lens| - n
  {
    hide Run, Repeat, Goal;
    if n == |lens| {
      GoalEnd(out, lens);
    } else {
      GoalMore(out, lens, n, count);
      var len := lens[n];
      if count + 1 < MaxCount(len, prevlen) && len == LenAfter(lens, n) {
        ExpandRest(out, lens, n + 1, prevlen, count + 1);
      } else {
        ExpandRun(out, len, prevlen, count + 1);
        var out1 := out + Repeat(len, count + 1);
        LastRepeat(out, len, count);
        ExpandRest(out1, lens, n + 1, len, 0);
        hide ItemsOk, ExpandItems;
        ExpandConcat(out, Run(len, prevlen, count + 1), Items(lens, n + 1, len, 0));
      }
    }
  }

  lemma LastRepeat(out: seq<nat>, v: nat, n: nat)
    ensures var r := out + Repeat(v, n + 1); r != [] && r[|r| - 1] == v
  {
  }

  // The round trip: the items expand to exactly the lengths they were made
  // from, whatever lengths are in front of them.
  lemma TreeItemsExpand(out: seq<nat>, lens: seq<nat>)
    requires forall i :: 0 <= i < |lens| ==> lens[i] <= 15
    ensures ItemsOk(out, TreeItems(lens)) && ExpandItems(out, TreeItems(lens)) == out + lens
  {
    GoalEnd(out, lens);
    ExpandRest(out, lens, 0, -1, 0);
  }

  // ---- Which items these are, run by run ----

  // The symbols from a up to b are all those, around a, that have its length.
  ghost predicate WholeRun(lens: seq<nat>, a: nat, b: nat) {
    && a < b <= |lens| && (forall i :: a <= i < b ==> lens[i] == lens[a])
    && (a > 0 ==> lens[a - 1] != lens[a]) && (b < |lens| ==> lens[b] != lens[a])
  }

  // z zeros: as many full items of 138 as there are, and one item for the rest,
  // if that is three zeros or more.
  function ZeroRun(z: nat): seq<Item> {
    if z > 138 then [Item(18, 127)] + ZeroRun(z - 138)
    else if z >= 11 then [Item(18, z - 11)]
    else if z >= 3 then [Item(17, z - 3)]
    else if z == 2 then [Item(0, 0), Item(0, 0)]
    else if z == 1 then [Item(0, 0)]
    else []
  }

  // k more of a length: repeats of six, and one repeat for the rest, if that is
  // three or more.
  function MoreOf(len: nat, k: nat): seq<Item> {
    if k > 6 then [Item(16, 3)] + MoreOf(len, k - 6)
    else if k >= 3 then [Item(16, k - 3)]
    else if k == 2 then [Item(len, 0), Item(len, 0)]
    else if k == 1 then [Item(len, 0)]
    else []
  }

  function RunItems(len: nat, r: nat): seq<Item>
    requires r >= 1
  {
    if len == 0 then ZeroRun(r) else [Item(len, 0)] + MoreOf(len, r - 1)
  }

  // One group.
  lemma GroupItems(len: nat, prevlen: int, count: nat)
    requires 1 <= count <= MaxCount(len, prevlen)
    ensures len == 0 ==> Run(len, prevlen, count) == ZeroRun(count)
    ensures len > 0 && len == prevlen ==> Run(len, prevlen, count) == MoreOf(len, count)
    ensures len > 0 && len != prevlen ==> Run(len, prevlen, count) == [Item(len, 0)] + MoreOf(len, count - 1)
  {
    assert Singles(len, 0) == [];
    assert Singles(len, 1) == [Item(len, 0)];
    assert Singles(len, 2) == [Item(len, 0), Item(len, 0)];
    assert Singles(len, 3) == [Item(len, 0)] + [Item(len, 0), Item(len, 0)];
    hide Singles;
  }

  // Inside a run of zeros, or of a length that has already been sent.
  lemma {:induction false} ZeroItems(lens: seq<nat>, n: nat, b: nat, prevlen: int, count: nat)
    requires n < b <= |lens| && (forall i :: n <= i < b ==> lens[i] == 0) && (b < |lens| ==> lens[b] != 0) && count < 138
    ensures Items(lens, n, prevlen, count) == ZeroRun(count + b - n) + Items(lens, b, 0, 0)
    decreases b - n
  {
    if count + 1 < 138 && n + 1 < b {
      ZeroItems(lens, n + 1, b, prevlen, count + 1);
    } else {
      GroupItems(0, prevlen, count + 1);
      assert Items(lens, n, prevlen, count) == Run(0, prevlen, count + 1) + Items(lens, n + 1, 0, 0);
      hide Run, Items;
      if n + 1 < b { ZeroItems(lens, n + 1, b, 0, 0); }
    }
  }

  lemma {:induction false} MoreItems(lens: seq<nat>, n: nat, b: nat, count: nat)
    requires n < b <= |lens| && lens[n] > 0 && (forall i :: n <= i < b ==> lens[i] == lens[n])
    requires (b < |lens| ==> lens[b] != lens[n]) && lens[n] != GUARD && count < 6
    ensures Items(lens, n, lens[n], count) == MoreOf(lens[n], count + b - n) + Items(lens, b, lens[n], 0)
    decreases b - n
  {
    var len := lens[n];
    if count + 1 < 6 && n + 1 < b {
      MoreItems(lens, n + 1, b, count + 1);
    } else {
      GroupItems(len, len, count + 1);
      assert Items(lens, n, len, count) == Run(len, len, count + 1) + Items(lens, n + 1, len, 0);
      hide Run, Items;
      if n + 1 < b { MoreItems(lens, n + 1, b, 0); }
    }
  }

  // The first group of a length, and what follows.
  lemma {:induction false} FirstItems(lens: seq<nat>, n: nat, b: nat, prevlen: int, count: nat)
    requires n < b <= |lens| && lens[n] > 0 && (forall i :: n <= i < b ==> lens[i] == lens[n])
    requires (b < |lens| ==> lens[b] != lens[n]) && lens[n] != GUARD && count < 7 && prevlen != lens[n]
    ensures Items(lens, n, prevlen, count)
         == [Item(lens[n], 0)] + MoreOf(lens[n], count + b - n - 1) + Items(lens, b, lens[n], 0)
    decreases b - n
  {
    var len := lens[n];
    if count + 1 < 7 && n + 1 < b {
      FirstItems(lens, n + 1, b, prevlen, count + 1);
    } else {
      GroupItems(len, prevlen, count + 1);
      assert Items(lens, n, prevlen, count) == Run(len, prevlen, count + 1) + Items(lens, n + 1, len, 0);
      hide Run, Items;
      if n + 1 < b { MoreItems(lens, n + 1, b, 0); }
    }
  }

  // What comes behind symbol a does not matter for the items before it, and
  // what comes before it not for those behind.
  lemma {:induction false} ItemsBefore(lens: seq<nat>, a: nat, n: nat, prevlen: int, count: nat)
    requires n < a <= |lens| && (forall i :: 0 <= i < |lens| ==> lens[i] <= 15) && (a < |lens| ==> lens[a - 1] != lens[a])
    ensures Items(lens, n, prevlen, count) == Items(lens[..a], n, prevlen, count) + Items(lens, a, lens[a - 1], 0)
    decreases a - n
  {
    hide Run;
    var front, len := lens[..a], lens[n];
    if count + 1 < MaxCount(len, prevlen) && len == LenAfter(lens, n) {
      ItemsBefore(lens, a, n + 1, prevlen, count + 1);
    } else {
      if n + 1 < a { ItemsBefore(lens, a, n + 1, len, 0); }
      var run := Run(len, prevlen, count + 1);
      assert Items(lens, n, prevlen, count) == run + Items(lens, n + 1, len, 0);
      assert Items(front, n, prevlen, count) == run + Items(front, n + 1, len, 0);
    }
  }

  lemma {:induction false} ItemsBehind(lens: seq<nat>, b: nat, n: nat, prevlen: int, count: nat)
    requires b + n <= |lens|
    ensures Items(lens, b + n, prevlen, count) == Items(lens[b..], n, prevlen, count)
    decreases |lens| - n
  {
    hide Run;
    if b + n < |lens| {
      ItemsBehind(lens, b, n + 1, prevlen, count + 1);
      ItemsBehind(lens, b, n + 1, lens[b + n], 0);
    }
  }

  // Another length before: it does not matter which.
  lemma {:induction false} OtherBefore(lens: seq<nat>, n: nat, p: int, q: int, count: nat)
    requires n < |lens| ==> lens[n] != p && lens[n] != q
    requires n <= |lens|
    ensures Items(lens, n, p, count) == Items(lens, n, q, count)
    decreases |lens| - n
  {
    if n + 1 < |lens| && lens[n + 1] == lens[n] { OtherBefore(lens, n + 1, p, q, count + 1); }
  }

  // Every run of one length has its own items, and they depend on nothing else.
  lemma ItemsByRuns(lens: seq<nat>, a: nat, b: nat)
    requires WholeRun(lens, a, b) && forall i :: 0 <= i < |lens| ==> lens[i] <= 15
    ensures TreeItems(lens) == TreeItems(lens[..a]) + RunItems(lens[a], b - a) + TreeItems(lens[b..])
  {
    hide Items, ZeroRun, MoreOf;
    var len, prevlen: int := lens[a], if a > 0 then lens[a - 1] else -1;
    if a > 0 { ItemsBefore(lens, a, 0, -1, 0); } else { NoItems(lens); }
    if len == 0 { ZeroItems(lens, a, b, prevlen, 0); } else { FirstItems(lens, a, b, prevlen, 0); }
    ItemsBehind(lens, b, 0, len, 0);
    OtherBefore(lens[b..], 0, len, -1, 0);
  }

  lemma NoItems(lens: seq<nat>)
    ensures TreeItems(lens[..0]) == [] && TreeItems(lens) == [] + Items(lens, 0, -1, 0)
  {
  }

  // ---- Counting items ----

  function ItemCount(items: seq<Item>, s: nat): (c: nat)
    ensures c <= |items|
  {
    if items == [] then 0
    else ItemCount(items[..|items| - 1], s) + (if items[|items| - 1].sym == s then 1 else 0)
  }

  lemma {:induction false} ItemCountConcat(a: seq<Item>, b: seq<Item>, s: nat)
    ensures ItemCount(a + b, s) == ItemCount(a, s) + ItemCount(b, s)
  {
    if b == [] {
      assert a + b == a;
    } else {
      assert (a + b)[..|a + b| - 1] == a + b[..|b| - 1];
      ItemCountConcat(a, b[..|b| - 1], s);
    }
  }

  lemma {:induction false} SinglesCount(len: nat, count: nat, s: nat)
    ensures |Singles(len, count)| == count
    ensures ItemCount(Singles(len, count), s) == if s == len then count else 0
  {
    if count > 0 {
      SinglesCount(len, count - 1, s);
      assert Singles(len, count)[..count - 1] == Singles(len, count - 1);
    }
  }

  lemma CountOne(it: Item, s: nat)
    ensures ItemCount([it], s) == if it.sym == s then 1 else 0
  {
    assert [it][..0] == [];
  }

  // How often a run needs each symbol, as scan_tree() adds it up.
  lemma RunCount(len: nat, prevlen: int, count: nat, s: nat)
    requires len <= 15 && 1 <= count
    ensures |Run(len, prevlen, count)| <= count
    ensures ItemCount(Run(len, prevlen, count), s) ==
      if count < MinCount(len, prevlen) then (if s == len then count else 0)
      else if len != 0 then (if (s == len && len != prevlen) || s == REP_3_6 then 1 else 0)
      else if count <= 10 then (if s == REPZ_3_10 then 1 else 0)
      else (if s == REPZ_11_138 then 1 else 0)
  {
    if count < MinCount(len, prevlen) {
      SinglesCount(len, count, s);
    } else if len != 0 && len != prevlen {
      assert Run(len, prevlen, count) == [Item(len, 0)] + [Item(REP_3_6, count - 4)];
      ItemCountConcat([Item(len, 0)], [Item(REP_3_6, count - 4)], s);
      CountOne(Item(len, 0), s);
      CountOne(Item(REP_3_6, count - 4), s);
    } else {
      CountOne(Run(len, prevlen, count)[0], s);
    }
  }

  // The items so far, and those to come, make up all items.
  ghost predicate Scanning(lens: seq<nat>, done: seq<Item>, n: nat, prevlen: int, count: nat) {
    && n <= |lens| && (n < |lens| ==> count < MaxCount(lens[n], prevlen))
    && |done| + count <= n
    && TreeItems(lens) == done + Items(lens, n, prevlen, count)
  }

  lemma ScanMore(lens: seq<nat>, done: seq<Item>, n: nat, prevlen: int, count: nat)
    requires Scanning(lens, done, n, prevlen, count) && n < |lens|
    requires count + 1 < MaxCount(lens[n], prevlen) && lens[n] == LenAfter(lens, n)
    requires forall i :: 0 <= i < |lens| ==> lens[i] <= 15
    ensures n + 1 < |lens| && Scanning(lens, done, n + 1, prevlen, count + 1)
  {
  }

  lemma ScanRun(lens: seq<nat>, done: seq<Item>, n: nat, prevlen: int, count: nat)
    requires Scanning(lens, done, n, prevlen, count) && n < |lens| && lens[n] <= 15
    requires !(count + 1 < MaxCount(lens[n], prevlen) && lens[n] == LenAfter(lens, n))
    ensures Scanning(lens, done + Run(lens[n], prevlen, count + 1), n + 1, lens[n], 0)
  {
    var run, rest := Run(lens[n], prevlen, count + 1), Items(lens, n + 1, lens[n], 0);
    RunCount(lens[n], prevlen, count + 1, 0);
    assert done + (run + rest) == (done + run) + rest;
  }

  // The frequencies after the items done.
  ghost predicate CountedUp(before: seq<CtData>, after: seq<CtData>, done: seq<Item>) {
    && |after| == |before| >= BL_CODES
    && forall s :: 0 <= s < |after| ==> after[s] == before[s].(fc := before[s].fc + ItemCount(done, s))
  }

  // Add a run of count lengths curlen to the frequencies.
  method CountRun(bl_tree: array<CtData>, curlen: nat, prevlen: int, count: nat, min_count: nat,
                  ghost before: seq<CtData>, ghost done: seq<Item>)
    requires curlen <= 15 && 1 <= count && min_count == MinCount(curlen, prevlen)
    requires CountedUp(before, bl_tree[..], done)
    requires forall s :: 0 <= s < BL_CODES ==> before[s].fc + |done| + count <= 65535
    modifies bl_tree
    ensures CountedUp(before, bl_tree[..], done + Run(curlen, prevlen, count))
  {
    hide ItemCount, Run;
    ghost var run := Run(curlen, prevlen, count);
    forall s: nat ensures ItemCount(done + run, s) == ItemCount(done, s) + ItemCount(run, s) {
      ItemCountConcat(done, run, s);
    }
    forall s: nat {
      RunCount(curlen, prevlen, count, s);
    }
    ghost var bl := bl_tree[..];
    if count < min_count {
      AddFreq(bl_tree, curlen, count);
    } else if curlen != 0 {
      if curlen != prevlen { AddFreq(bl_tree, curlen, 1); }
      AddFreq(bl_tree, REP_3_6, 1);
    } else if count <= 10 {
      AddFreq(bl_tree, REPZ_3_10, 1);
    } else {
      AddFreq(bl_tree, REPZ_11_138, 1);
    }
  }

  // Freq is an unsigned short.
  method AddFreq(tree: array<CtData>, s: nat, k: nat)
    requires s < tree.Length && tree[s].fc + k <= 65535
    modifies tree
    ensures tree[..] == old(tree[..])[s := old(tree[s]).(fc := old(tree[s].fc) + k)]
  {
    tree[s] := tree[s].(fc := (tree[s].fc + k) % 65536);
  }

  // Count the items that describe the lengths of a tree, and put the guard behind
  // its last symbol.
  method ScanTree(tree: array<CtData>, max_code: nat, bl_tree: array<CtData>)
    requires tree != bl_tree && max_code + 1 < tree.Length && bl_tree.Length >= BL_CODES
    requires forall i :: 0 <= i <= max_code ==> tree[i].dl <= 15
    requires forall s :: 0 <= s < BL_CODES ==> bl_tree[s].fc + max_code + 1 <= 65535
    modifies tree, bl_tree
    ensures CountedUp(old(bl_tree[..]), bl_tree[..], TreeItems(old(Trees.SymbolLens(tree[..], max_code + 1))))
    ensures |TreeItems(old(Trees.SymbolLens(tree[..], max_code + 1)))| <= max_code + 1
    ensures tree[..] == old(tree[..])[max_code + 1 := old(tree[max_code + 1]).(dl := GUARD)]
  {
    hide Items, Run, ItemCount;
    ghost var lens, done, before := Trees.SymbolLens(tree[..], max_code + 1), [], bl_tree[..];
    var n: nat, prevlen: int, nextlen, count: nat := 0, -1, tree[0].dl, 0;
    var max_count, min_count := 7, 4;
    if nextlen == 0 { max_count, min_count := 138, 3; }
    tree[max_code + 1] := tree[max_code + 1].(dl := GUARD);
    assert Trees.SymbolLens(tree[..], max_code + 1) == lens;
    ScanStart(lens, before);
    while n <= max_code
      invariant tree[..] == old(tree[..])[max_code + 1 := old(tree[max_code + 1]).(dl := GUARD)]
      invariant Scanning(lens, done, n, prevlen, count) && (n == |lens| ==> count == 0)
      invariant n <= max_code ==> nextlen == lens[n]
      invariant n <= max_code ==> max_count == MaxCount(lens[n], prevlen) && min_count == MinCount(lens[n], prevlen)
      invariant CountedUp(before, bl_tree[..], done)
    {
      var curlen := nextlen;
      nextlen := tree[n + 1].dl;
      assert nextlen == LenAfter(lens, n);
      if count + 1 < max_count && curlen == nextlen {
        ScanMore(lens, done, n, prevlen, count);
        count := count + 1;
      } else {
        ScanRun(lens, done, n, prevlen, count);
        CountRun(bl_tree, curlen, prevlen, count + 1, min_count, before, done);
        done := done + Run(curlen, prevlen, count + 1);
        count, prevlen := 0, curlen;
        if nextlen == 0 {
          max_count, min_count := 138, 3;
        } else if curlen == nextlen {
          max_count, min_count := 6, 3;
        } else {
          max_count, min_count := 7, 4;
        }
      }
      n := n + 1;
    }
    ScanEnd(lens, done, prevlen, count);
  }

  lemma ScanStart(lens: seq<nat>, bl: seq<CtData>)
    requires |bl| >= BL_CODES && lens != []
    ensures Scanning(lens, [], 0, -1, 0) && CountedUp(bl, bl, [])
  {
    assert [] + TreeItems(lens) == TreeItems(lens);
  }

  lemma ScanEnd(lens: seq<nat>, done: seq<Item>, prevlen: int, count: nat)
    requires Scanning(lens, done, |lens|, prevlen, count)
    ensures done == TreeItems(lens) && |TreeItems(lens)| <= |lens|
  {
  }

  // ---- Sending the items ----

  function ItemBits(bl: seq<nat>, it: Item): seq<bool>
    requires |bl| == BL_CODES && it.sym < BL_CODES
  {
    CodeBits(bl, it.sym) + BitsOf(it.extra, EXTRA_BLBITS[it.sym])
  }

  predicate Symbolic(items: seq<Item>) {
    forall i :: 0 <= i < |items| ==> items[i].sym < BL_CODES
  }

  function ItemsBits(bl: seq<nat>, items: seq<Item>): seq<bool>
    requires |bl| == BL_CODES && Symbolic(items)
  {
    if items == [] then []
    else ItemsBits(bl, items[..|items| - 1]) + ItemBits(bl, items[|items| - 1])
  }

  lemma {:induction false} ItemsBitsConcat(bl: seq<nat>, a: seq<Item>, b: seq<Item>)
    requires |bl| == BL_CODES && Symbolic(a) && Symbolic(b)
    ensures ItemsBits(bl, a + b) == ItemsBits(bl, a) + ItemsBits(bl, b)
  {
    hide ItemBits;
    if b == [] {
      assert a + b == a;
    } else {
      var c, last := b[..|b| - 1], b[|b| - 1];
      assert (a + b)[..|a + b| - 1] == a + c && (a + b)[|a + b| - 1] == last;
      ItemsBitsConcat(bl, a, c);
      assert ItemsBits(bl, a) + (ItemsBits(bl, c) + ItemBits(bl, last))
          == (ItemsBits(bl, a) + ItemsBits(bl, c)) + ItemBits(bl, last);
    }
  }

  // Every item has a code.
  ghost predicate ItemsCoded(bl: seq<nat>, items: seq<Item>) {
    forall i :: 0 <= i < |items| ==>
      items[i].sym < |bl| && bl[items[i].sym] > 0 && items[i].sym < BL_CODES
      && items[i].extra < Pow2(EXTRA_BLBITS[items[i].sym])
  }

  // A tree whose codes can be sent.
  ghost predicate Ready(tree: seq<CtData>, lens: seq<nat>) {
    Prefixed(lens) && Trees.HasCodes(tree, lens)
  }

  method SendCode(w: BitWriter, c: nat, tree: array<CtData>, ghost lens: seq<nat>)
    requires w.Valid() && c < |lens| && lens[c] > 0 && Ready(tree[..], lens)
    requires w.Sent() + lens[c] <= 8 * w.buf.Length
    modifies w, w.buf
    ensures w.Valid() && w.Sent() == old(w.Sent()) + lens[c]
    ensures w.Written() == old(w.Written()) + CodeBits(lens, c)
    ensures old(w.pending) <= w.pending && Kept(old(w.buf[..]), w.buf[..], old(w.pending), w.pending)
  {
    hide Kraft, Rev, CodeOf, BitsOf, BytesBits;
    RevBound(CodeOf(lens, c), lens[c]);
    w.SendBits(tree[c].fc, tree[c].dl);
  }

  // The writer has sent the first p items, and has room for all of them.
  ghost predicate Sending(w: BitWriter, start: seq<bool>, s0: nat, bl: seq<nat>, all: seq<Item>, p: nat)
    reads w, w.buf
  {
    && w.Valid() && |bl| == BL_CODES && p <= |all| && ItemsCoded(bl, all)
    && Sent(bl, all, p) <= Sent(bl, all, |all|)
    && s0 + Sent(bl, all, |all|) <= 8 * w.buf.Length
    && w.Sent() == s0 + Sent(bl, all, p) && w.Written() == start + ItemsBits(bl, all[..p])
  }

  ghost function Sent(bl: seq<nat>, all: seq<Item>, p: nat): nat
    requires |bl| == BL_CODES && p <= |all| && Symbolic(all)
  {
    |ItemsBits(bl, all[..p])|
  }

  lemma {:induction false} SendMore(bl: seq<nat>, all: seq<Item>, p: nat)
    requires |bl| == BL_CODES && p < |all| && Symbolic(all)
    ensures ItemsBits(bl, all[..p + 1]) == ItemsBits(bl, all[..p]) + ItemBits(bl, all[p])
    ensures Sent(bl, all, p + 1) == Sent(bl, all, p) + bl[all[p].sym] + EXTRA_BLBITS[all[p].sym]
    ensures Sent(bl, all, p + 1) <= Sent(bl, all, |all|)
  {
    hide ItemBits;
    var more := all[..p + 1];
    assert more[..|more| - 1] == all[..p] && more[|more| - 1] == all[p];
    ItemBitsLength(bl, all[p]);
    assert all == more + all[p + 1..] && all[..|all|] == all;
    ItemsBitsConcat(bl, more, all[p + 1..]);
  }

  lemma ItemBitsLength(bl: seq<nat>, it: Item)
    requires |bl| == BL_CODES && it.sym < BL_CODES
    ensures |ItemBits(bl, it)| == bl[it.sym] + EXTRA_BLBITS[it.sym]
  {
    BitsOfLength(StreamCode(bl, it.sym), bl[it.sym]);
    BitsOfLength(it.extra, EXTRA_BLBITS[it.sym]);
  }

  // Send one item: a length code symbol and its extra bits, if any.
  method SendItem(w: BitWriter, sym: nat, extra: nat, bl_tree: array<CtData>, ghost bl: seq<nat>, ghost all: seq<Item>,
                  ghost p: nat, ghost start: seq<bool>, ghost s0: nat)
    requires bl_tree.Length >= BL_CODES && Ready(bl_tree[..], bl)
    requires p < |all| && all[p] == Item(sym, extra) && Sending(w, start, s0, bl, all, p)
    modifies w, w.buf
    ensures Sending(w, start, s0, bl, all, p + 1)
    ensures old(w.pending) <= w.pending && Kept(old(w.buf[..]), w.buf[..], old(w.pending), w.pending)
  {
    hide ItemsBits, CodeBits, BitsOf, Pow2, Ready, Sent;
    ghost var before := ItemsBits(bl, all[..p]);
    SendMore(bl, all, p);
    assert before + (CodeBits(bl, sym) + BitsOf(extra, EXTRA_BLBITS[sym]))
        == (before + CodeBits(bl, sym)) + BitsOf(extra, EXTRA_BLBITS[sym]);
    assert start + (before + CodeBits(bl, sym)) == start + before + CodeBits(bl, sym);
    assert start + (before + CodeBits(bl, sym) + BitsOf(extra, EXTRA_BLBITS[sym]))
        == start + (before + CodeBits(bl, sym)) + BitsOf(extra, EXTRA_BLBITS[sym]);
    SendCode(w, sym, bl_tree, bl);
    if sym >= REP_3_6 {
      w.SendBits(extra, EXTRA_BLBITS[sym]);
    } else {
      assert BitsOf(extra, 0) == [];
    }
  }

  lemma {:induction false} SinglesAre(len: nat, count: nat)
    ensures |Singles(len, count)| == count && forall i :: 0 <= i < count ==> Singles(len, count)[i] == Item(len, 0)
  {
    if count > 0 { SinglesAre(len, count - 1); }
  }

  // Send a run of count lengths curlen.
  method SendRun(w: BitWriter, curlen: nat, prevlen: int, count: nat, min_count: nat, bl_tree: array<CtData>,
                 ghost bl: seq<nat>, ghost all: seq<Item>, ghost p: nat, ghost start: seq<bool>, ghost s0: nat)
    requires bl_tree.Length >= BL_CODES && Ready(bl_tree[..], bl)
    requires curlen <= 15 && 1 <= count && min_count == MinCount(curlen, prevlen)
    requires Sending(w, start, s0, bl, all, p)
    requires var run := Run(curlen, prevlen, count); p + |run| <= |all| && all[p..p + |run|] == run
    modifies w, w.buf
    ensures Sending(w, start, s0, bl, all, p + |Run(curlen, prevlen, count)|)
    ensures old(w.pending) <= w.pending && Kept(old(w.buf[..]), w.buf[..], old(w.pending), w.pending)
  {
    hide Ready, Sending;
    ghost var run := Run(curlen, prevlen, count);
    assert forall i :: 0 <= i < |run| ==> all[p + i] == run[i];
    var n, c := p, count;
    if count < min_count {
      SinglesAre(curlen, count);
      while c != 0
        invariant c <= count && Sending(w, start, s0, bl, all, p + count - c)
        invariant old(w.pending) <= w.pending && Kept(old(w.buf[..]), w.buf[..], old(w.pending), w.pending)
      {
        SendItem(w, curlen, 0, bl_tree, bl, all, p + count - c, start, s0);
        c := c - 1;
      }
    } else if curlen != 0 {
      ghost var q := p;
      if curlen != prevlen {
        SendItem(w, curlen, 0, bl_tree, bl, all, p, start, s0);
        c := c - 1;
        q := p + 1;
      }
      SendItem(w, REP_3_6, c - 3, bl_tree, bl, all, q, start, s0);
    } else if count <= 10 {
      SendItem(w, REPZ_3_10, count - 3, bl_tree, bl, all, p, start, s0);
    } else {
      SendItem(w, REPZ_11_138, count - 11, bl_tree, bl, all, p, start, s0);
    }
  }

  // Write the items that describe the lengths of a tree, each in its code of
  // bl_tree. The guard is already set.
  method SendTree(w: BitWriter, tree: array<CtData>, max_code: nat, bl_tree: array<CtData>, ghost bl: seq<nat>)
    requires max_code + 1 < tree.Length && tree[max_code + 1].dl == GUARD
    requires bl_tree.Length >= BL_CODES && Ready(bl_tree[..], bl) && |bl| == BL_CODES
    requires forall i :: 0 <= i <= max_code ==> tree[i].dl <= 15
    requires var all := TreeItems(Trees.SymbolLens(tree[..], max_code + 1));
      ItemsCoded(bl, all) && w.Valid() && w.Sent() + |ItemsBits(bl, all)| <= 8 * w.buf.Length
    modifies w, w.buf
    ensures w.Valid()
    ensures w.Written() == old(w.Written()) + ItemsBits(bl, TreeItems(Trees.SymbolLens(tree[..], max_code + 1)))
    ensures w.Sent() == old(w.Sent()) + |ItemsBits(bl, TreeItems(Trees.SymbolLens(tree[..], max_code + 1)))|
    ensures old(w.pending) <= w.pending && Kept(old(w.buf[..]), w.buf[..], old(w.pending), w.pending)
  {
    hide Items, Run, ItemsBits, Ready, Sending, ItemsCoded;
    ghost var lens, done: seq<Item>, start, s0 := Trees.SymbolLens(tree[..], max_code + 1), [], w.Written(), w.Sent();
    ghost var all := TreeItems(lens);
    var n: nat, prevlen: int, nextlen, count: nat := 0, -1, tree[0].dl, 0;
    var max_count, min_count := 7, 4;
    if nextlen == 0 { max_count, min_count := 138, 3; }
    ScanStart(lens, bl_tree[..]);
    SendingStart(w, start, s0, bl, all);
    while n <= max_code
      invariant Scanning(lens, done, n, prevlen, count) && (n == |lens| ==> count == 0)
      invariant n <= max_code ==> nextlen == lens[n]
      invariant n <= max_code ==> max_count == MaxCount(lens[n], prevlen) && min_count == MinCount(lens[n], prevlen)
      invariant Sending(w, start, s0, bl, all, |done|)
      invariant old(w.pending) <= w.pending && Kept(old(w.buf[..]), w.buf[..], old(w.pending), w.pending)
    {
      var curlen := nextlen;
      nextlen := tree[n + 1].dl;
      assert nextlen == LenAfter(lens, n);
      if count + 1 < max_count && curlen == nextlen {
        ScanMore(lens, done, n, prevlen, count);
        count := count + 1;
      } else {
        ScanRun(lens, done, n, prevlen, count);
        SendRun(w, curlen, prevlen, count + 1, min_count, bl_tree, bl, all, |done|, start, s0);
        done := done + Run(curlen, prevlen, count + 1);
        count, prevlen := 0, curlen;
        if nextlen == 0 {
          max_count, min_count := 138, 3;
        } else if curlen == nextlen {
          max_count, min_count := 6, 3;
        } else {
          max_count, min_count := 7, 4;
        }
      }
      n := n + 1;
    }
    ScanEnd(lens, done, prevlen, count);
    SendingEnd(w, start, s0, bl, all);
  }

  lemma SendingStart(w: BitWriter, start: seq<bool>, s0: nat, bl: seq<nat>, all: seq<Item>)
    requires w.Valid() && start == w.Written() && s0 == w.Sent() && |bl| == BL_CODES && ItemsCoded(bl, all)
    requires s0 + |ItemsBits(bl, all)| <= 8 * w.buf.Length
    ensures Sending(w, start, s0, bl, all, 0)
  {
    assert all[..0] == [] && all[..|all|] == all;
    assert ItemsBits(bl, []) == [];
    assert start + [] == start;
  }

  lemma SendingEnd(w: BitWriter, start: seq<bool>, s0: nat, bl: seq<nat>, all: seq<Item>)
    requires Sending(w, start, s0, bl, all, |all|)
    ensures w.Valid() && w.Written() == start + ItemsBits(bl, all) && w.Sent() == s0 + |ItemsBits(bl, all)|
  {
    assert all[..|all|] == all;
  }
}
