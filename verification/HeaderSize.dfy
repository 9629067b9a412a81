// How many bits the header of a dynamic block can take.
module HeaderSize {
  import opened Bits
  import opened CanonicalCode
  import opened Format
  import opened Huffman
  import Trees
  import opened TreeHeader
  import opened BlockFormat
  import opened BlockCost
  import opened DynamicTrees
  import UniformCode

  // ---- The size of the header ----

  // Every code length takes 7 bits at most.
  lemma {:induction false} ItemsSmall(bl: seq<nat>, out: seq<nat>, items: seq<Item>)
    requires |bl| == BL_CODES && (forall i :: 0 <= i < BL_CODES ==> bl[i] <= 7)
    requires Symbolic(items) && ItemsOk(out, items)
    ensures |ItemsBits(bl, items)| + 7 * |out| <= 7 * |ExpandItems(out, items)|
    decreases |items|
  {
    if items != [] {
      hide ItemBits, ExpandItem, Pow2;
      var one, rest := [items[0]], items[1..];
      assert items == one + rest;
      ItemsBitsConcat(bl, one, rest);
      OneItem(bl, items[0]);
      ItemCovers(bl, out, items[0]);
      ItemsSmall(bl, ExpandItem(out, items[0]), rest);
    }
  }

  lemma OneItem(bl: seq<nat>, it: Item)
    requires |bl| == BL_CODES && it.sym < BL_CODES
    ensures ItemsBits(bl, [it]) == ItemBits(bl, it)
  {
    assert [it][..0] == [];
    assert [] + ItemBits(bl, it) == ItemBits(bl, it);
  }

  lemma ItemCovers(bl: seq<nat>, out: seq<nat>, it: Item)
    requires |bl| == BL_CODES && (forall i :: 0 <= i < BL_CODES ==> bl[i] <= 7) && ItemOk(out, it)
    ensures |ItemBits(bl, it)| + 7 * |out| <= 7 * |ExpandItem(out, it)|
    ensures |ItemBits(bl, it)| <= 14
  {
    ItemBitsLength(bl, it);
  }

  lemma HeaderBound(h: Header)
    requires HeaderOk(h)
    ensures |HeaderBits(h)| <= 71 + |ItemsBits(h.bl, h.items)| <= 71 + 7 * (|h.ll| + |h.dl|)
  {
    hide ItemsBits, OrderBits, BitsOf, Complete, ItemsCoded;
    ItemsSmall(h.bl, [], h.items) by {
      assert Symbolic(h.items) by { CodedSymbolic(h.bl, h.items); }
    }
    OrderSize(h.bl, h.nb);
    BitsOfLength(|h.ll| - 257, 5);
    BitsOfLength(|h.dl| - 1, 5);
    BitsOfLength(h.nb - 4, 4);
  }

  lemma CodedSymbolic(bl: seq<nat>, items: seq<Item>)
    requires ItemsCoded(bl, items)
    ensures Symbolic(items)
  {
  }

  // The number of bits of a header.
  ghost function HeaderLength(h: Header): nat
    requires HeaderOk(h)
  {
    LengthDefined(h);
    |HeaderBits(h)|
  }

  lemma LengthDefined(h: Header)
    requires HeaderOk(h)
    ensures |h.ll| >= 257 && |h.dl| >= 1 && 4 <= h.nb <= BL_CODES == |h.bl| && Symbolic(h.items)
    ensures END_BLOCK < |h.ll| && Complete(h.ll) && Complete(h.dl) && h.ll[END_BLOCK] > 0
  {
    hide Complete, Transmits;
    CodedSymbolic(h.bl, h.items);
  }

  lemma LengthIs(h: Header)
    requires HeaderOk(h)
    ensures |h.ll| >= 257 && |h.dl| >= 1 && 4 <= h.nb <= BL_CODES == |h.bl| && Symbolic(h.items)
    ensures HeaderLength(h) == |HeaderBits(h)|
  {
    LengthDefined(h);
    hide HeaderOk, HeaderBits, Symbolic;
  }

  // The header that is made for the symbols of a block.
  ghost predicate BuiltHeader(h: Header, ts: seq<Token>) {
    && HeaderOk(h) && h.items == BothItems(h.ll, h.dl) && LeanItems(h)
    && UniformCode.Best(h.ll, LitHist(ts)) && UniformCode.Best(h.dl, DistHist(ts))
  }

  lemma BuiltParts(h: Header, ts: seq<Token>)
    requires BuiltHeader(h, ts)
    ensures HeaderOk(h) && h.items == BothItems(h.ll, h.dl) && LeanItems(h)
    ensures UniformCode.Best(h.ll, LitHist(ts)) && UniformCode.Best(h.dl, DistHist(ts))
    ensures END_BLOCK < |h.ll| && Complete(h.ll) && Complete(h.dl) && LengthsInRange(h.ll) && LengthsInRange(h.dl)
    ensures HeaderLength(h) <= 2283
  {
    hide UniformCode.Best, HeaderBits, HeaderLength, LitHist, DistHist, ItemsCoded, Transmits, BothItems, KraftTo,
      LeanItems;
    HeaderBound(h);
    LengthIs(h);
    LengthDefined(h);
  }

  // ---- Codes of four bits for all items ----

  // The bits of items that have codes of four bits.
  function FlatSize(items: seq<Item>): nat {
    if items == [] then 0
    else
      var it := items[|items| - 1];
      FlatSize(items[..|items| - 1]) + 4 + (if it.sym < BL_CODES then EXTRA_BLBITS[it.sym] else 0)
  }

  lemma {:induction false} FlatConcat(a: seq<Item>, b: seq<Item>)
    ensures FlatSize(a + b) == FlatSize(a) + FlatSize(b)
  {
    if b == [] {
      assert a + b == a;
    } else {
      assert (a + b)[..|a + b| - 1] == a + b[..|b| - 1];
      FlatConcat(a, b[..|b| - 1]);
    }
  }

  lemma {:induction false} FlatIs(items: seq<Item>)
    requires Symbolic(items)
    ensures FlatSize(items) == 4 * |items| + Dot(ItemHist(items), ItemExtra(), BL_CODES)
  {
    if items == [] {
      DotZeros(Zeros(BL_CODES), ItemExtra(), BL_CODES);
    } else {
      var front, it := items[..|items| - 1], items[|items| - 1];
      FlatIs(front);
      assert ItemExtra()[it.sym] == EXTRA_BLBITS[it.sym];
      hide Dot, ItemExtra, Inc;
      DotInc(ItemHist(front), ItemExtra(), it.sym, BL_CODES);
    }
  }

  lemma {:induction false} FlatSingles(len: nat, count: nat)
    requires len <= 15
    ensures FlatSize(Singles(len, count)) == 4 * count
  {
    if count > 0 {
      FlatSingles(len, count - 1);
      assert Singles(len, count)[..|Singles(len, count)| - 1] == Singles(len, count - 1);
    }
  }

  lemma FlatOne(it: Item)
    requires it.sym < BL_CODES
    ensures FlatSize([it]) == 4 + EXTRA_BLBITS[it.sym]
  {
    assert [it][..0] == [];
  }

  // A run takes at most four bits for every length in it; a run of zeros
  // mostly fewer.
  lemma FlatRun(len: nat, prevlen: int, count: nat)
    requires len <= 15 && 1 <= count <= MaxCount(len, prevlen)
    ensures FlatSize(Run(len, prevlen, count)) <= 4 * count
    ensures len == 0 ==> FlatSize(Run(len, prevlen, count)) <= 11 && 3 * FlatSize(Run(len, prevlen, count)) <= 22 + count
  {
    hide FlatSize;
    if count < MinCount(len, prevlen) {
      FlatSingles(len, count);
    } else if len != 0 {
      FlatOne(Item(len, 0));
      FlatOne(Item(REP_3_6, if len != prevlen then count - 4 else count - 3));
      if len != prevlen {
        assert Run(len, prevlen, count) == [Item(len, 0)] + [Item(REP_3_6, count - 4)];
        FlatConcat([Item(len, 0)], [Item(REP_3_6, count - 4)]);
      }
    } else {
      FlatOne(if count <= 10 then Item(REPZ_3_10, count - 3) else Item(REPZ_11_138, count - 11));
    }
  }

  // What the first n lengths may cost, in units of a third of a bit. Below b a
  // zero costs one unit, and any other length 34: four bits for itself, and 22
  // units for the zeros before it. From b on all lengths cost four bits.
  function Charge(lens: seq<nat>, b: nat, n: nat): nat
    requires n <= |lens|
  {
    if n == 0 then 0 else Charge(lens, b, n - 1) + (if n > b then 12 else if lens[n - 1] > 0 then 34 else 1)
  }

  // What is left for the items from length n on, when count lengths before it
  // are still pending.
  function Budget(lens: seq<nat>, b: nat, n: nat, count: nat): int
    requires n <= |lens|
  {
    Charge(lens, b, |lens|) - Charge(lens, b, n)
    + (if n == |lens| then 0 else if n >= b then 12 * count else if lens[n] > 0 then 12 * count - 22 else count)
  }

  lemma ChargeStep(lens: seq<nat>, b: nat, n: nat)
    requires n < |lens|
    ensures Charge(lens, b, n + 1) == Charge(lens, b, n) + if n >= b then 12 else if lens[n] > 0 then 34 else 1
  {
  }

  lemma BudgetMore(lens: seq<nat>, b: nat, n: nat, count: nat)
    requires n < |lens| && lens[n] == LenAfter(lens, n) && lens[n] <= 15
    requires b <= |lens| && (b > 0 ==> lens[b - 1] > 0)
    ensures n + 1 < |lens| && Budget(lens, b, n + 1, count + 1) <= Budget(lens, b, n, count)
  {
    ChargeStep(lens, b, n);
    hide Charge;
  }

  lemma BudgetRun(lens: seq<nat>, b: nat, n: nat, prevlen: int, count: nat, size: nat)
    requires n < |lens| && b <= |lens| && (b > 0 ==> lens[b - 1] > 0) && count < MaxCount(lens[n], prevlen)
    requires count + 1 < MaxCount(lens[n], prevlen) ==> lens[n] != LenAfter(lens, n)
    requires size <= 4 * (count + 1) && (lens[n] == 0 ==> size <= 11 && 3 * size <= 23 + count)
    ensures 3 * size + Budget(lens, b, n + 1, 0) <= Budget(lens, b, n, count)
  {
    ChargeStep(lens, b, n);
    hide Charge;
  }

  lemma {:induction false} ItemsBudget(lens: seq<nat>, b: nat, n: nat, prevlen: int, count: nat)
    requires n <= |lens| && (n == |lens| ==> count == 0) && forall i :: 0 <= i < |lens| ==> lens[i] <= 15
    requires b <= |lens| && (b > 0 ==> lens[b - 1] > 0) && (n < |lens| ==> count < MaxCount(lens[n], prevlen))
    ensures 3 * FlatSize(Items(lens, n, prevlen, count)) <= Budget(lens, b, n, count)
    decreases |lens| - n
  {
    if n < |lens| {
      ItemsUnfold(lens, n, prevlen, count);
      hide Run, FlatSize, Budget, Items, LenAfter, MaxCount;
      var len := lens[n];
      MaxCounts();
      if count + 1 < MaxCount(len, prevlen) && len == LenAfter(lens, n) {
        BudgetMore(lens, b, n, count);
        ItemsBudget(lens, b, n + 1, prevlen, count + 1);
      } else {
        ItemsBudget(lens, b, n + 1, len, 0);
        FlushBudget(lens, b, n, prevlen, count, Items(lens, n + 1, len, 0));
      }
    }
  }

  lemma FlushBudget(lens: seq<nat>, b: nat, n: nat, prevlen: int, count: nat, rest: seq<Item>)
    requires n < |lens| && lens[n] <= 15 && b <= |lens| && (b > 0 ==> lens[b - 1] > 0) && count < MaxCount(lens[n], prevlen)
    requires count + 1 < MaxCount(lens[n], prevlen) ==> lens[n] != LenAfter(lens, n)
    requires 3 * FlatSize(rest) <= Budget(lens, b, n + 1, 0)
    ensures 3 * FlatSize(Run(lens[n], prevlen, count + 1) + rest) <= Budget(lens, b, n, count)
  {
    hide Run, FlatSize, Budget, LenAfter;
    FlatRun(lens[n], prevlen, count + 1);
    FlatConcat(Run(lens[n], prevlen, count + 1), rest);
    BudgetRun(lens, b, n, prevlen, count, FlatSize(Run(lens[n], prevlen, count + 1)));
  }

  lemma MaxCounts()
    ensures forall l: nat, q: int :: MaxCount(l, q) >= 1
  {
  }

  lemma ItemsUnfold(lens: seq<nat>, n: nat, prevlen: int, count: nat)
    requires n < |lens|
    ensures Items(lens, n, prevlen, count) ==
      if count + 1 < MaxCount(lens[n], prevlen) && lens[n] == LenAfter(lens, n) then Items(lens, n + 1, prevlen, count + 1)
      else Run(lens[n], prevlen, count + 1) + Items(lens, n + 1, lens[n], 0)
  {
  }

  // How many of the first n are not zero.
  function Kinds(w: seq<nat>, n: nat): nat
    requires n <= |w|
  {
    if n == 0 then 0 else Kinds(w, n - 1) + (if w[n - 1] > 0 then 1 else 0)
  }

  lemma {:induction false} ChargeFront(lens: seq<nat>, b: nat, n: nat)
    requires n <= |lens| && n <= b
    ensures Charge(lens, b, n) == 33 * Kinds(lens, n) + n
  {
    if n > 0 { ChargeFront(lens, b, n - 1); }
  }

  lemma {:induction false} ChargeBack(lens: seq<nat>, b: nat, n: nat)
    requires b <= n <= |lens|
    ensures Charge(lens, b, n) == Charge(lens, b, b) + 12 * (n - b)
    decreases n
  {
    if n > b { ChargeBack(lens, b, n - 1); }
  }

  lemma TreeBudget(lens: seq<nat>, b: nat)
    requires b <= |lens| && (b > 0 ==> lens[b - 1] > 0) && forall i :: 0 <= i < |lens| ==> lens[i] <= 15
    ensures 3 * FlatSize(TreeItems(lens)) <= 33 * Kinds(lens, b) + b + 12 * (|lens| - b)
  {
    hide Items, FlatSize, Charge;
    ItemsBudget(lens, b, 0, -1, 0);
    ChargeFront(lens, b, b);
    ChargeBack(lens, b, |lens|);
    assert Charge(lens, b, 0) == 0 by { ChargeFront(lens, b, 0); }
  }

  // ---- The kinds of items ----

  ghost predicate SymsUpTo(items: seq<Item>, top: nat) {
    forall i :: 0 <= i < |items| ==> items[i].sym <= top || items[i].sym >= REP_3_6
  }

  lemma RunSyms(len: nat, prevlen: int, count: nat, top: nat)
    requires len <= top && 1 <= count
    ensures SymsUpTo(Run(len, prevlen, count), top)
  {
    SinglesAre(len, count);
  }

  lemma {:induction false} ItemsSyms(lens: seq<nat>, n: nat, prevlen: int, count: nat, top: nat)
    requires n <= |lens| && forall i :: 0 <= i < |lens| ==> lens[i] <= top
    ensures SymsUpTo(Items(lens, n, prevlen, count), top)
    decreases |lens| - n
  {
    if n < |lens| {
      ItemsUnfold(lens, n, prevlen, count);
      hide Run, Items, LenAfter;
      if count + 1 < MaxCount(lens[n], prevlen) && lens[n] == LenAfter(lens, n) {
        ItemsSyms(lens, n + 1, prevlen, count + 1, top);
      } else {
        ItemsSyms(lens, n + 1, lens[n], 0, top);
        RunSyms(lens[n], prevlen, count + 1, top);
      }
    }
  }

  lemma {:induction false} NotCounted(items: seq<Item>, top: nat, s: nat)
    requires SymsUpTo(items, top) && top < s < REP_3_6
    ensures ItemHist(items)[s] == 0
  {
    if items != [] { NotCounted(items[..|items| - 1], top, s); }
  }

  lemma {:induction false} KindsSet(w: seq<nat>, n: nat)
    requires n <= |w|
    ensures |Trees.NonZero(w, n)| == Kinds(w, n)
  {
    if n == 0 {
      assert Trees.NonZero(w, 0) == {};
    } else {
      KindsSet(w, n - 1);
      assert Trees.NonZero(w, n) == if w[n - 1] > 0 then Trees.NonZero(w, n - 1) + {n - 1} else Trees.NonZero(w, n - 1);
    }
  }

  lemma {:induction false} KindsMore(w: seq<nat>, a: nat, b: nat)
    requires a <= b <= |w|
    ensures Kinds(w, b) <= Kinds(w, a) + (b - a)
    ensures (forall s :: a <= s < b ==> w[s] == 0) ==> Kinds(w, b) == Kinds(w, a)
    decreases b
  {
    if b > a { KindsMore(w, a, b - 1); }
  }

  lemma FewKinds(items: seq<Item>)
    requires SymsUpTo(items, 12)
    ensures |Trees.NonZero(ItemHist(items), BL_CODES)| <= 16
  {
    var w := ItemHist(items);
    forall s | 13 <= s < 16 ensures w[s] == 0 {
      NotCounted(items, 12, s);
    }
    hide ItemHist, Kinds, Trees.NonZero;
    KindsSet(w, BL_CODES);
    KindsMore(w, 0, 13);
    KindsMore(w, 13, 16);
    KindsMore(w, 16, BL_CODES);
    assert Kinds(w, 0) == 0 by { NoKinds(w); }
  }

  lemma NoKinds(w: seq<nat>)
    ensures Kinds(w, 0) == 0
  {
  }

  // ---- Headers of short codes ----

  lemma ShortItems(h: Header)
    requires h.items == BothItems(h.ll, h.dl)
    requires (forall i :: 0 <= i < |h.ll| ==> h.ll[i] <= 12) && forall i :: 0 <= i < |h.dl| ==> h.dl[i] <= 12
    ensures SymsUpTo(h.items, 12)
  {
    ItemsSyms(h.ll, 0, -1, 0, 12);
    ItemsSyms(h.dl, 0, -1, 0, 12);
    hide Items;
  }

  // Where no code is longer than 12 bits the items take four bits each.
  lemma ShortHeader(h: Header)
    requires HeaderOk(h) && h.items == BothItems(h.ll, h.dl) && LeanItems(h)
    requires (forall i :: 0 <= i < |h.ll| ==> h.ll[i] <= 12) && forall i :: 0 <= i < |h.dl| ==> h.dl[i] <= 12
    ensures |HeaderBits(h)| <= 68 + FlatSize(TreeItems(h.ll)) + FlatSize(TreeItems(h.dl))
  {
    ShortItems(h);
    FewKinds(h.items);
    NotCounted(h.items, 12, 15);
    assert OrderAt(18) == 15;
    hide ItemHist, Dot, ItemExtra, FlatSize, ItemsBits, OrderBits, BitsOf, Complete, Transmits, Trees.NonZero,
      OrderAt, TreeItems, SymsUpTo;
    CodedSymbolic(h.bl, h.items);
    HeaderSize(h);
    FlatIs(h.items);
    FlatConcat(TreeItems(h.ll), TreeItems(h.dl));
    assert h.nb <= 18;
  }

  // Such a header never takes more than four bits for each code length, and
  // less where only some literals have codes.
  lemma ShortHeaderBound(h: Header)
    requires HeaderOk(h) && h.items == BothItems(h.ll, h.dl) && LeanItems(h)
    requires (forall i :: 0 <= i < |h.ll| ==> h.ll[i] <= 12) && forall i :: 0 <= i < |h.dl| ==> h.dl[i] <= 12
    ensures HeaderLength(h) <= 1332
    ensures END_BLOCK <= |h.ll| && HeaderLength(h) <= 400 + 11 * Kinds(h.ll, END_BLOCK)
  {
    LengthIs(h);
    hide HeaderBits, HeaderLength, FlatSize, ItemsBits, TreeItems, Complete, Transmits, ItemsCoded, OrderOk, LeanItems;
    ShortHeader(h);
    TreeBudget(h.ll, 0);
    TreeBudget(h.dl, 0);
    TreeBudget(h.ll, END_BLOCK + 1);
    NoKinds(h.ll);
    NoKinds(h.dl);
    assert Kinds(h.ll, END_BLOCK + 1) == Kinds(h.ll, END_BLOCK) + 1;
  }
}
