// trees.c: codes from code lengths, and build_tree() as a whole.
module Trees {
  import opened Bits
  import opened CanonicalCode
  import opened Heap
  import opened Huffman
  import opened HuffmanShape
  import opened HuffmanDepth
  import opened HuffmanHeight
  import opened TreeMerge
  import opened GenBitlen

  // ---- bi_reverse() ----

  // The len low bits of a code, the other way round.
  method BiReverse(code: nat, len: nat) returns (r: nat)
    requires 1 <= len <= MAX_BITS
    ensures r == Rev(code, len)
  {
    var res, c, n := 0, code, len;
    while n > 0
      invariant 0 <= n <= len
      invariant c == Shr(code, len - n) && res == 2 * Rev(code, len - n)
    {
      RevTop(code, len - n);
      ShrShr(code, len - n, 1);
      res := res + c % 2;
      c, res := c / 2, 2 * res;
      n := n - 1;
    }
    r := res / 2;
  }

  // ---- gen_codes() ----

  // The code lengths of the first n symbols.
  ghost function SymbolLens(tree: seq<CtData>, n: nat): (s: seq<nat>)
    requires n <= |tree|
    ensures |s| == n && forall i :: 0 <= i < n ==> s[i] == tree[i].dl
  {
    seq(n, i requires 0 <= i < n => tree[i].dl)
  }

  // Each coded symbol has its code, ready to be sent.
  ghost predicate HasCodes(tree: seq<CtData>, lens: seq<nat>) {
    && |lens| <= |tree|
    && forall s :: 0 <= s < |lens| ==>
         tree[s].dl == lens[s] && (lens[s] > 0 ==> tree[s].fc == StreamCode(lens, s))
  }

  lemma FirstCodeFits(lens: seq<nat>, l: nat)
    requires Prefixed(lens) && 1 <= l <= MAX_BITS
    ensures FirstCode(lens, l) + Count(lens, l) <= Pow2(l) <= 32768
  {
    FirstCodeLeft(lens, l);
    LeftNonNegative(lens, l);
    Pow2Mono(l, 15);
    Pow2Values();
  }

  lemma FirstCodeStep(lens: seq<nat>, l: nat)
    requires l >= 1
    ensures FirstCode(lens, l) == if l == 1 then 0 else (FirstCode(lens, l - 1) + Count(lens, l - 1)) * 2
  {
  }

  lemma CountStep(lens: seq<nat>, n: nat)
    requires n < |lens|
    ensures forall b :: CountTo(lens, b, n + 1) == if b == lens[n] then CountTo(lens, b, n) + 1 else CountTo(lens, b, n)
  {
  }

  // The smallest code for each length.
  method NextCodes(bl_count: array<nat>, ghost lens: seq<nat>) returns (next_code: array<nat>)
    requires bl_count.Length == MAX_BITS + 1 && Prefixed(lens)
    requires bl_count[0] == 0 && forall b :: 1 <= b <= MAX_BITS ==> bl_count[b] == Count(lens, b)
    ensures fresh(next_code) && next_code.Length == MAX_BITS + 1
    ensures forall b :: 1 <= b <= MAX_BITS ==> next_code[b] == FirstCode(lens, b)
  {
    hide Count, FirstCode, Prefixed, Pow2;
    next_code := new nat[MAX_BITS + 1];
    var code := 0;
    var bits := 1;
    while bits <= MAX_BITS
      invariant 1 <= bits <= MAX_BITS + 1
      invariant bits == 1 ==> code == 0
      invariant bits > 1 ==> code == FirstCode(lens, bits - 1)
      invariant forall b :: 1 <= b < bits ==> next_code[b] == FirstCode(lens, b)
    {
      code := (code + bl_count[bits - 1]) * 2;
      FirstCodeStep(lens, bits);
      FirstCodeFits(lens, bits);
      next_code[bits] := code % 65536;
      bits := bits + 1;
    }
  }

  // Put the canonical code of its length into every entry of the tree.
  method GenCodes(tree: array<CtData>, max_code: nat, bl_count: array<nat>)
    requires max_code < tree.Length && bl_count.Length == MAX_BITS + 1
    requires Prefixed(SymbolLens(tree[..], max_code + 1))
    requires bl_count[0] == 0
    requires forall b :: 1 <= b <= MAX_BITS ==> bl_count[b] == Count(SymbolLens(tree[..], max_code + 1), b)
    modifies tree
    ensures SymbolLens(tree[..], max_code + 1) == old(SymbolLens(tree[..], max_code + 1))
    ensures HasCodes(tree[..], SymbolLens(tree[..], max_code + 1))
    ensures forall i :: max_code < i < tree.Length ==> tree[i] == old(tree[i])
  {
    hide Prefixed, CountTo, FirstCode, Rev;
    ghost var lens := SymbolLens(tree[..], max_code + 1);
    var next_code := NextCodes(bl_count, lens);
    NoneCounted(lens);
    var n := 0;
    while n <= max_code
      invariant 0 <= n <= max_code + 1
      invariant forall i :: 0 <= i < tree.Length ==> tree[i].dl == old(tree[i].dl)
      invariant forall i :: max_code < i < tree.Length ==> tree[i] == old(tree[i])
      invariant forall b :: 1 <= b <= MAX_BITS ==> next_code[b] == FirstCode(lens, b) + CountTo(lens, b, n)
      invariant forall s :: 0 <= s < n && lens[s] > 0 ==> tree[s].fc == StreamCode(lens, s)
    {
      var len := tree[n].dl;
      assert len == lens[n];
      CountStep(lens, n);
      if len != 0 {
        InRangeAt(lens, n);
        var code := BiReverse(next_code[len], len);
        CodeFits16(lens, n);
        tree[n] := tree[n].(fc := code % 65536);
        next_code[len] := (next_code[len] + 1) % 65536;
      }
      n := n + 1;
    }
  }

  lemma NoneCounted(lens: seq<nat>)
    ensures forall b :: CountTo(lens, b, 0) == 0
  {
  }

  lemma InRangeAt(lens: seq<nat>, n: nat)
    requires Prefixed(lens) && n < |lens|
    ensures lens[n] <= MAX_BITS
  {
  }

  lemma CodeFits16(lens: seq<nat>, n: nat)
    requires Prefixed(lens) && n < |lens| && lens[n] > 0
    ensures CodeOf(lens, n) + 1 < 65536 && StreamCode(lens, n) < 65536
  {
    CodeFits(lens, n);
    RevBound(CodeOf(lens, n), lens[n]);
    Pow2Mono(lens[n], 15);
    Pow2Values();
  }

  // ---- From sets of nodes to lists of lengths ----

  lemma {:induction false} CountIsSum(leaves: set<nat>, tree: seq<CtData>, b: nat, n: nat, m: nat)
    requires m <= n <= |tree| && b > 0
    requires forall i :: 0 <= i < n && i !in leaves ==> tree[i].dl == 0
    ensures CountTo(SymbolLens(tree, n), b, m) == Sum(leaves, Level(Lens(tree), b), m)
  {
    if m > 0 { CountIsSum(leaves, tree, b, n, m - 1); }
  }

  lemma {:induction false} KraftIsSum(leaves: set<nat>, tree: seq<CtData>, n: nat, m: nat)
    requires m <= n <= |tree| && LengthsInRange(SymbolLens(tree, n))
    requires forall i :: 0 <= i < n && i !in leaves ==> tree[i].dl == 0
    requires forall i :: 0 <= i < n && i in leaves ==> tree[i].dl > 0
    ensures KraftTo(SymbolLens(tree, n), m) == Sum(leaves, Units(Lens(tree), MAX_BITS), m)
  {
    if m > 0 { KraftIsSum(leaves, tree, n, m - 1); }
  }

  // Complete lengths for the leaves are a complete code in the sense of the
  // format.
  lemma LeavesComplete(leaves: set<nat>, tree: seq<CtData>, max_code: nat, max_length: nat, n: nat)
    requires max_code < n <= |tree| && max_length <= MAX_BITS && Below(leaves, max_code + 1)
    requires CompleteLengths(leaves, Lens(tree), max_length, n)
    requires forall i :: 0 <= i < n && i !in leaves ==> tree[i].dl == 0
    ensures Complete(SymbolLens(tree, max_code + 1))
    ensures forall i :: 0 <= i <= max_code ==> tree[i].dl <= max_length
    ensures forall b :: 1 <= b <= MAX_BITS ==>
      Count(SymbolLens(tree, max_code + 1), b) == Sum(leaves, Level(Lens(tree), b), n)
  {
    hide Sum, KraftTo, CountTo, Pow2, Shl;
    var lens := SymbolLens(tree, max_code + 1);
    assert forall i :: 0 <= i <= max_code ==> tree[i].dl == Lens(tree)[i];
    KraftIsSum(leaves, tree, max_code + 1, max_code + 1);
    UnitsScale(leaves, Lens(tree), max_length, MAX_BITS, n);
    ShlPow2(max_length, MAX_BITS - max_length);
    SumExtend(leaves, Units(Lens(tree), MAX_BITS), max_code + 1, n);
    forall b | 1 <= b <= MAX_BITS ensures Count(lens, b) == Sum(leaves, Level(Lens(tree), b), n) {
      CountIsSum(leaves, tree, b, max_code + 1, max_code + 1);
      SumExtend(leaves, Level(Lens(tree), b), max_code + 1, n);
    }
  }

  lemma {:induction false} MembersSize(heap: seq<nat>, len: nat)
    requires len < |heap| && Distinct(heap, len)
    ensures |Members(heap, len)| == len
  {
    if len == 0 {
      assert Members(heap, len) == {};
    } else {
      MembersSize(heap, len - 1);
      assert Members(heap, len) == Members(heap, len - 1) + {heap[len]};
      assert heap[len] !in Members(heap, len - 1);
    }
  }

  // ---- Starting and ending the merging loop ----

  lemma {:induction false} ForcedTotal(s: set<nat>, forced: set<nat>, w0: seq<nat>, w: seq<nat>, n: nat)
    requires n <= |w0| == |w| && s !! forced
    requires forall i :: 0 <= i < n ==> w[i] == if i in forced then 1 else w0[i]
    ensures Sum(s + forced, Plain(w), n) == Sum(s, Plain(w0), n) + |set i | i in forced && i < n|
  {
    if n == 0 {
      assert (set i | i in forced && i < 0) == {};
    } else {
      ForcedTotal(s, forced, w0, w, n - 1);
      var now, before := set i | i in forced && i < n, set i | i in forced && i < n - 1;
      if n - 1 in forced {
        assert now == before + {n - 1};
      } else {
        assert now == before;
      }
    }
  }

  lemma MergingStart(tree: seq<CtData>, heap: seq<nat>, depth: seq<nat>, len: nat, elems: nat, leaves: set<nat>,
                     total: nat)
    requires |heap| == |depth| == HEAP_SIZE && 2 * elems < |tree| && 2 * elems < HEAP_SIZE
    requires 2 <= len <= elems && Nodes(heap, len, elems) && Distinct(heap, len) && Members(heap, len) == leaves
    requires HeapFrom(heap, len, 1, tree, depth)
    requires total == Sum(leaves, Plain(Freqs(tree, elems)), elems)
    requires Flat(depth, leaves) && forall x :: x in leaves && x < elems ==> tree[x].fc >= 1
    ensures Merging(Shape(elems, leaves, []), tree, heap, depth, len, HEAP_SIZE, total)
  {
    MembersSize(heap, len);
    assert Below(leaves, elems);
  }

  // The weights of a finished tree, over the whole array.
  lemma WeightsWhole(g: Shape, tree: seq<CtData>, depth: seq<nat>, total: nat)
    requires Merged(g) && g.elems + |g.pairs| <= |tree|
    requires WeightsOk(g, Freqs(tree, g.elems + |g.pairs|), total)
    requires HeightsOk(g, Freqs(tree, g.elems + |g.pairs|), depth)
    ensures Weighs(g, Freqs(tree, |tree|)) && Greedy(g, Freqs(tree, |tree|)) && Ordered(g, Freqs(tree, |tree|), depth)
  {
    hide Active;
    var u, w := Freqs(tree, g.elems + |g.pairs|), Freqs(tree, |tree|);
    forall t | 0 <= t < |g.pairs| ensures WeighsAt(g, w, t) && LightestAt(g, w, t) && FirstAt(g, w, depth, t) {
      assert WeighsAt(g, u, t) && LightestAt(g, u, t) && MergedAt(g, t) && FirstAt(g, u, depth, t);
      ActiveBelow(g, t);
      var (a, b) := g.pairs[t];
      assert w[a] == u[a] && w[b] == u[b] && w[g.elems + t] == u[g.elems + t];
      forall x | x in Active(g, t) && x != a && x != b ensures w[b] <= w[x] {
        assert x < |u| && w[x] == u[x];
      }
    }
  }

  lemma MergingEnd(g: Shape, tree: seq<CtData>, heap: seq<nat>, depth: seq<nat>, heap_max: nat, total: nat)
    requires Merging(g, tree, heap, depth, 1, heap_max, total) && |g.pairs| >= 1
    ensures Whole(g) && heap_max == HEAP_SIZE - 2 * |g.pairs| && heap_max >= 2
    ensures g.elems + |g.pairs| <= |tree|
    ensures Listed(g, heap[heap_max - 1 := heap[SMALLEST]])
    ensures forall q :: 0 <= q < 2 * |g.pairs| ==> DadOk(g, tree, q)
    ensures Weighs(g, Freqs(tree, |tree|)) && Greedy(g, Freqs(tree, |tree|))
    ensures Heights(g, depth) && Ordered(g, Freqs(tree, |tree|), depth)
  {
    OneRoot(g);
    WeightsWhole(g, tree, depth, total);
    assert heap[1] in Members(heap, 1);
    hide Active, Weighs, Greedy, Merged, Heights, Ordered;
    var h := heap[heap_max - 1 := heap[SMALLEST]];
    forall s | 0 <= s < |g.pairs| ensures Recorded(g, tree, h, s) {
      assert Recorded(g, tree, heap, s);
    }
    RecordedListed(g, tree, h);
  }

  // ---- Forced symbols leave no trace in the sums ----

  // Symbols that occur only because they were forced count once each.
  lemma {:induction false} ForcedCost(leaves: set<nat>, forced: set<nat>, w0: seq<nat>, w: seq<nat>, l: seq<nat>, n: nat)
    requires n <= |w0| == |w| && forced <= leaves
    requires forall i :: 0 <= i < n ==> w[i] == if i in forced then 1 else w0[i]
    requires forall i :: 0 <= i < n && (i !in leaves || i in forced) ==> w0[i] == 0
    ensures Sum(leaves, Weighted(w, l), n) == Dot(w0, l, n) + Sum(forced, Plain(l), n)
  {
    if n > 0 {
      ForcedCost(leaves, forced, w0, w, l, n - 1);
      MulOne(if n - 1 < |l| then l[n - 1] else 0);
    }
  }

  lemma MulOne(a: nat)
    ensures Mul(1, a) == a && Mul(0, a) == 0
  {
  }

  lemma {:induction false} CountOnes(s: set<nat>, l: seq<nat>, n: nat)
    requires n <= |l| && forall i :: i in s && i < n ==> l[i] == 1
    ensures Sum(s, Plain(l), n) == |set i | i in s && i < n|
  {
    if n == 0 {
      assert (set i | i in s && i < 0) == {};
    } else {
      CountOnes(s, l, n - 1);
      var now, before := set i | i in s && i < n, set i | i in s && i < n - 1;
      if n - 1 in s {
        assert now == before + {n - 1};
      } else {
        assert now == before;
      }
    }
  }

  lemma {:induction false} SumZero(s: set<nat>, l: seq<nat>, n: nat)
    requires forall i :: i in s && i < n && i < |l| ==> l[i] == 0
    ensures Sum(s, Plain(l), n) == 0
  {
    if n > 0 { SumZero(s, l, n - 1); }
  }

  // The only complete code for two symbols gives each one bit.
  lemma TwoSymbols(s: set<nat>, len: seq<nat>, m: nat, n: nat, x: nat)
    requires CompleteLengths(s, len, m, n) && |s| == 2 && x in s
    ensures len[x] == 1
  {
    hide Sum, Pow2;
    assert s == (s - {x}) + {x};
    assert |s - {x}| == 1;
    var y :| y in s - {x};
    assert s - {x} == {y} by {
      assert s - {x} == (s - {x} - {y}) + {y};
      assert |s - {x} - {y}| == 0;
    }
    SumRemove(s, x, Units(len, m), n);
    SumOne(y, Units(len, m), n);
    TwoHalves(m, len[x], len[y]);
  }

  lemma TwoHalves(m: nat, a: nat, b: nat)
    requires 1 <= a <= m && 1 <= b <= m && Pow2(m - a) + Pow2(m - b) == Pow2(m)
    ensures a == 1 && b == 1
  {
    Pow2Mono(m - a, m - 1);
    Pow2Mono(m - b, m - 1);
    assert Pow2(m) == 2 * Pow2(m - 1);
  }

  // ---- build_tree() ----

  // The number of symbols that occur, counted with their frequencies.
  ghost function Occurrences(tree: seq<CtData>, elems: nat): nat
    requires elems <= |tree|
  {
    Sum(Used(tree, elems), Plain(Freqs(tree, elems)), elems)
  }

  lemma ForcedOccurrences(before: seq<CtData>, after: seq<CtData>, forced: set<nat>, elems: nat)
    requires elems <= |before| == |after| && forced !! Used(before, elems) && Below(forced, 3) && elems >= 3
    requires forall i :: 0 <= i < elems ==> after[i].fc == if i in forced then 1 else before[i].fc
    ensures Sum(Used(before, elems) + forced, Plain(Freqs(after, elems)), elems) == Occurrences(before, elems) + |forced|
  {
    ForcedTotal(Used(before, elems), forced, Freqs(before, elems), Freqs(after, elems), elems);
    assert (set i | i in forced && i < elems) == forced;
  }

  // The tree's shape: everything build_tree() does before gen_bitlen().
  method BuildShape(tree: array<CtData>, elems: nat, heap: array<nat>, depth: array<nat>, slen: seq<nat>)
      returns (max_code: nat, bits: int, static_bits: int, heap_max: nat, ghost forced: set<nat>, ghost g: Shape)
    requires heap != depth && heap.Length == depth.Length == HEAP_SIZE
    requires 3 <= elems && 2 * elems < tree.Length && 2 * elems < HEAP_SIZE
    requires slen == [] || |slen| >= elems
    requires Occurrences(tree[..], elems) + 2 <= 65535
    modifies tree, heap, depth
    ensures Whole(g) && g.elems == elems && g.elems + |g.pairs| <= tree.Length && Listed(g, heap[..])
    ensures heap_max == heap.Length - 2 * |g.pairs| - 1
    ensures forall q :: 0 <= q < 2 * |g.pairs| ==> DadOk(g, tree[..], q)
    ensures Weighs(g, Freqs(tree[..], tree.Length)) && Greedy(g, Freqs(tree[..], tree.Length))
    ensures Heights(g, depth[..]) && Ordered(g, Freqs(tree[..], tree.Length), depth[..])
    ensures g.leaves == old(Used(tree[..], elems)) + forced && forced !! old(Used(tree[..], elems))
    ensures Below(forced, 3) && (forced != {} ==> |g.leaves| == 2)
    ensures forced == if |old(Used(tree[..], elems))| >= 2 then {} else Second(old(Used(tree[..], elems)))
    ensures bits + |forced| == 0 && static_bits + Sum(forced, Plain(slen), elems) == 0
    ensures max_code < elems && max_code in g.leaves && forall s :: s in g.leaves ==> s <= max_code
    ensures forall i :: 0 <= i < elems ==> tree[i].fc == if i in forced then 1 else old(tree[i].fc)
    ensures forall i :: 0 <= i < elems && i !in g.leaves ==> tree[i].dl == 0
  {
    hide Sum, HeapFrom, Distinct, Members, Nodes, Active, Merged, Weighs, Greedy, Heights, Ordered, Flat, Merging,
      Listed;
    ghost var t0 := tree[..];
    var len0, max0 := InitHeap(tree, elems, heap, depth);
    var heap_len;
    heap_len, max_code, bits, static_bits, forced := ForceTwo(tree, elems, heap, depth, slen, len0, max0);
    ghost var leaves := Used(t0, elems) + forced;
    ForcedOccurrences(t0, tree[..], forced, elems);
    SymbolFacts(heap[..], heap_len, elems, max_code);
    ForcedFew(forced, bits);
    Heapify(tree, heap, depth, heap_len);
    ghost var total := Sum(leaves, Plain(Freqs(tree[..], elems)), elems);
    HeapNodes(heap[..], heap_len, leaves, elems);
    NotZero(t0, tree[..], forced, elems);
    MergingStart(tree[..], heap[..], depth[..], heap_len, elems, leaves, total);
    heap_max, g := MergeAll(tree, heap, depth, heap_len, elems, leaves, total);
    MergingEnd(g, tree[..], heap[..], depth[..], heap_max, total);
    heap_max := heap_max - 1;
    ghost var h := heap[..];
    heap[heap_max] := heap[SMALLEST];
    assert heap[..] == h[heap_max := h[SMALLEST]];
  }

  lemma NotZero(before: seq<CtData>, after: seq<CtData>, forced: set<nat>, elems: nat)
    requires elems <= |before| == |after|
    requires forall i :: 0 <= i < elems ==> after[i].fc == if i in forced then 1 else before[i].fc
    ensures forall x :: x in Used(before, elems) + forced && x < elems ==> after[x].fc >= 1
  {
  }

  lemma ForcedFew(forced: set<nat>, bits: int)
    requires Below(forced, 3)
    ensures |forced| <= 3
  {
    BelowSize(forced, 3);
  }

  lemma SymbolFacts(heap: seq<nat>, len: nat, elems: nat, max: nat)
    requires Symbols(heap, len, elems, max) && len >= 2
    ensures |Members(heap, len)| == len && max in Members(heap, len)
    ensures forall x :: x in Members(heap, len) ==> x <= max
    ensures Nodes(heap, len, elems) && Distinct(heap, len) && len <= elems && max < elems
  {
    MembersSize(heap, len);
  }

  lemma HeapNodes(heap: seq<nat>, len: nat, s: set<nat>, elems: nat)
    requires len < |heap| && Members(heap, len) == s && forall x :: x in s ==> x < elems
    ensures Nodes(heap, len, elems)
  {
    NodesBelow(heap, len, s, elems);
  }

  // What build_tree() makes of the frequencies w0: a complete code, no code
  // longer than max_length, in which all symbols that occur have codes, and
  // rarer symbols no shorter ones.
  ghost predicate TreeOk(tree: seq<CtData>, w0: seq<nat>, elems: nat, max_code: nat, max_length: nat) {
    && max_code < elems <= |tree| && elems <= |w0|
    && Complete(SymbolLens(tree, max_code + 1)) && HasCodes(tree, SymbolLens(tree, max_code + 1))
    && tree[max_code].dl > 0 && (forall i :: max_code < i < elems ==> tree[i].dl == 0)
    && (forall i :: 0 <= i < elems ==> tree[i].dl <= max_length)
    && (forall i :: 0 <= i < elems && w0[i] != 0 ==> tree[i].dl > 0)
    && (forall i, j :: 0 <= i < elems && 0 <= j < elems && 0 < w0[i] < w0[j] ==> tree[i].dl >= tree[j].dl)
  }

  ghost function NonZero(w: seq<nat>, n: nat): set<nat>
    requires n <= |w|
  {
    set i | 0 <= i < n && w[i] != 0
  }

  // No prefix code for the symbols that occur makes their total length less.
  ghost predicate Optimal(tree: seq<CtData>, w0: seq<nat>, elems: nat)
    requires elems <= |tree| && elems <= |w0|
  {
    forall l: seq<nat>, m: nat ::
      |l| == elems && PrefixLengths(NonZero(w0, elems), l, m) ==>
        Dot(w0, Lens(tree), elems) <= Dot(w0, l, elems)
  }

  // Of the prefix codes that make their total length as small, none has a
  // shorter longest code.
  ghost predicate Shortest(tree: seq<CtData>, w0: seq<nat>, elems: nat)
    requires elems <= |tree| && elems <= |w0|
  {
    forall l: seq<nat>, m: nat, top: nat ::
      |l| == elems && PrefixLengths(NonZero(w0, elems), l, m) && Dot(w0, l, elems) <= Dot(w0, Lens(tree), elems)
      && NoneAbove(NonZero(w0, elems), l, top) ==>
        forall i :: 0 <= i < elems ==> tree[i].dl <= top
  }

  ghost predicate NoneAbove(s: set<nat>, l: seq<nat>, top: nat) {
    forall x :: x in s && x < |l| ==> l[x] <= top
  }

  // What gen_bitlen() and gen_codes() leave, on the symbols themselves.
  lemma TreeDone(g: Shape, tree: seq<CtData>, t0: seq<CtData>, w: seq<nat>, x: seq<nat>, st: seq<nat>, bl_count: seq<nat>,
                 max_code: nat, max_length: nat, opt: int, static_bits: int)
    requires Result(g, tree, w, x, st, bl_count, max_length, opt, static_bits)
    requires g.elems <= |tree| == |t0| && |w| == |tree| && 1 <= max_length <= MAX_BITS
    requires max_code < g.elems && max_code in g.leaves && forall s :: s in g.leaves ==> s <= max_code
    requires forall i :: 0 <= i < g.elems && i !in g.leaves ==> tree[i].dl == 0
    requires forall i :: 0 <= i < g.elems && t0[i].fc != 0 ==> i in g.leaves && w[i] == t0[i].fc
    ensures Complete(SymbolLens(tree, max_code + 1))
    ensures |bl_count| == MAX_BITS + 1 && bl_count[0] == 0
    ensures forall b :: 1 <= b <= MAX_BITS ==> bl_count[b] == Count(SymbolLens(tree, max_code + 1), b)
    ensures tree[max_code].dl > 0 && forall i :: max_code < i < g.elems ==> tree[i].dl == 0
    ensures forall i :: 0 <= i < g.elems ==> tree[i].dl <= max_length
    ensures forall i :: 0 <= i < g.elems && t0[i].fc != 0 ==> tree[i].dl > 0
    ensures forall i, j :: 0 <= i < g.elems && 0 <= j < g.elems && 0 < t0[i].fc < t0[j].fc ==> tree[i].dl >= tree[j].dl
  {
    hide Sum, Count, Complete;
    LeavesComplete(g.leaves, tree, max_code, max_length, g.elems);
    var lens := SymbolLens(tree, max_code + 1);
    forall b | 1 <= b <= MAX_BITS ensures bl_count[b] == Count(lens, b) {
      if b > max_length {
        assert Sum(g.leaves, Level(Lens(tree), b), g.elems) == 0 by {
          NoneAtLevel(g.leaves, Lens(tree), b, g.elems);
        }
      }
    }
  }

  // The sums of gen_bitlen() with the corrections of build_tree().
  lemma TreeCost(leaves: set<nat>, forced: set<nat>, w0: seq<nat>, w: seq<nat>, len: seq<nat>, x: seq<nat>,
                 slen: seq<nat>, n: nat)
    requires n <= |w0| && n <= |w| && forced <= leaves && Below(leaves, n) && Below(forced, 3) && 3 <= n <= |len|
    requires |x| == n && (slen == [] || |slen| >= n) && forall i :: 0 <= i < 3 ==> x[i] == 0
    requires forall i :: 0 <= i < n ==> w[i] == if i in forced then 1 else w0[i]
    requires forall i :: 0 <= i < n && (i !in leaves || i in forced) ==> w0[i] == 0
    requires forall i :: i in forced ==> len[i] == 1
    ensures Sum(leaves, Weighted(w, len), n) == Dot(w0, len, n) + |forced|
    ensures Sum(leaves, Weighted(w, x), n) == Dot(w0, x, n)
    ensures Sum(leaves, Weighted(w, StaticBits(slen, x)), n)
         == Dot(w0, StaticBits(slen, x), n) + Sum(forced, Plain(slen), n)
  {
    var u0, u, st := w0[..n], w[..n], StaticBits(slen, x);
    forall l: seq<nat>
      ensures Sum(leaves, Weighted(w, l), n) == Dot(w0, l, n) + Sum(forced, Plain(l), n)
    {
      SumSame(leaves, Weighted(w, l), Weighted(u, l), n);
      ForcedCost(leaves, forced, u0, u, l, n);
      DotSame(w0, u0, l, l, n);
    }
    hide Sum, Dot;
    CountOnes(forced, len, n);
    assert (set i | i in forced && i < n) == forced;
    SumZero(forced, x, n);
    SumSame(forced, Plain(st), Plain(slen), n);
  }

  lemma {:induction false} DotSame(w: seq<nat>, u: seq<nat>, l: seq<nat>, k: seq<nat>, n: nat)
    requires n <= |w| && n <= |u|
    requires forall i :: 0 <= i < n ==> w[i] == u[i]
    requires l == k || (n <= |l| && n <= |k| && forall i :: 0 <= i < n ==> l[i] == k[i])
    ensures Dot(w, l, n) == Dot(u, k, n)
  {
    if n > 0 { DotSame(w, u, l, k, n - 1); }
  }

  // Cheapest among lengths for all nodes is cheapest among lengths for symbols.
  lemma CheapestOptimal(tree: seq<CtData>, w0: seq<nat>, w: seq<nat>, n: nat)
    requires n <= |tree| == |w| && n <= |w0| && forall i :: 0 <= i < n ==> w[i] == w0[i]
    requires Cheapest(NonZero(w0, n), w, Lens(tree))
    ensures Optimal(tree, w0, n)
  {
    var s := NonZero(w0, n);
    hide Sum, Dot, NonZero;
    assert forall x: nat :: x < n && x !in s ==> w[x] == 0 by { NonZeroIs(w0, n); }
    assert Below(s, n) by { NonZeroIs(w0, n); }
    forall l: seq<nat>, m: nat | |l| == n && PrefixLengths(s, l, m)
      ensures Dot(w0, Lens(tree), n) <= Dot(w0, l, n)
    {
      var k := l + seq(|tree| - n, i => 0);
      assert |k| == |tree|;
      SumSame(s, Units(l, m), Units(k, m), n);
      SumExtend(s, Units(k, m), n, |tree|);
      assert PrefixLengths(s, k, m);
      CostIsDot(s, w0, w, Lens(tree), Lens(tree), n);
      CostIsDot(s, w0, w, k, l, n);
    }
  }

  lemma HeightsShortest(g: Shape, tree: seq<CtData>, w0: seq<nat>, w: seq<nat>, h: seq<nat>, limit: nat)
    requires Whole(g) && g.elems + |g.pairs| <= |tree| == |w| && g.elems <= |w0|
    requires forall i :: 0 <= i < g.elems ==> w[i] == w0[i]
    requires g.leaves == NonZero(w0, g.elems) && Weighs(g, w) && Heights(g, h) && Ordered(g, w, h)
    requires Depths(g, Lens(tree), limit) && Over(g, Lens(tree), limit, 0) == 0
    requires forall i :: 0 <= i < g.elems && i !in g.leaves ==> tree[i].dl == 0
    ensures Shortest(tree, w0, g.elems)
  {
    var s, n := g.leaves, g.elems;
    NonZeroIs(w0, n);
    hide Sum, Dot, NonZero, Weighs, Heights, Ordered, Depths, Over, Merged;
    forall l: seq<nat>, m: nat, top: nat | |l| == n && PrefixLengths(s, l, m) && NoneAbove(s, l, top)
        && Dot(w0, l, n) <= Dot(w0, Lens(tree), n)
      ensures forall i :: 0 <= i < n ==> tree[i].dl <= top
    {
      var k := l + seq(|tree| - n, i => 0);
      assert |k| == |tree|;
      SumSame(s, Units(l, m), Units(k, m), n);
      SumExtend(s, Units(k, m), n, |tree|);
      assert PrefixLengths(s, k, m);
      CostIsDot(s, w0, w, Lens(tree), Lens(tree), n);
      CostIsDot(s, w0, w, k, l, n);
      ShortestLongest(g, w, h, Lens(tree), limit, k, m, top);
    }
  }

  lemma NonZeroIs(w: seq<nat>, n: nat)
    requires n <= |w|
    ensures forall x: nat :: x in NonZero(w, n) <==> x < n && w[x] != 0
  {
  }

  lemma CostIsDot(s: set<nat>, w0: seq<nat>, w: seq<nat>, l: seq<nat>, k: seq<nat>, n: nat)
    requires n <= |w| == |l| && n <= |k| && n <= |w0| && Below(s, n)
    requires forall i :: 0 <= i < n ==> w[i] == w0[i] && k[i] == l[i]
    requires forall x: nat :: x < n && x !in s ==> w[x] == 0
    ensures Cost(s, w, l) == Dot(w0, k, n)
  {
    hide Sum, Dot, Mul, Of;
    SumExtend(s, Weighted(w, l), n, |l|);
    SumIsDot(s, w, l, n);
    DotSame(w, w0, l, k, n);
  }

  // A Huffman tree for the symbols that occur, of frequencies w0; if there are
  // fewer than two of these, other symbols make them two.
  ghost predicate TreeOf(g: Shape, w0: seq<nat>) {
    && Whole(g) && g.elems == |w0| && NonZero(w0, |w0|) <= g.leaves
    && (if |NonZero(w0, |w0|)| >= 2 then g.leaves == NonZero(w0, |w0|)
        else |g.leaves| == 2 && g.leaves == NonZero(w0, |w0|) + Second(NonZero(w0, |w0|)))
    && exists w: seq<nat> :: Weighs(g, w) && Greedy(g, w) && forall s :: s in NonZero(w0, |w0|) && s < |w| ==> w[s] == w0[s]
  }

  // A symbol with a code of j bits or more occurs so seldom that the Fibonacci
  // number of j + 1 such symbols would be no more than all symbols are.
  ghost predicate SteepFor(tree: seq<CtData>, w0: seq<nat>, elems: nat, total: nat, j: nat) {
    forall s :: 0 <= s < elems && s < |w0| && s < |tree| && w0[s] > 0 && tree[s].dl >= j ==> Mul(w0[s], Fib(j + 1)) <= total
  }

  lemma PositiveUsed(tree: seq<CtData>, elems: nat)
    requires elems <= |tree|
    ensures Used(tree, elems) == NonZero(Freqs(tree, elems), elems)
  {
  }

  lemma LeavesPositive(g: Shape, t0: seq<CtData>, w: seq<nat>, forced: set<nat>, elems: nat)
    requires elems <= |t0| && elems <= |w| && g.leaves == Used(t0, elems) + forced && Whole(g) && g.elems == elems
    requires forced !! Used(t0, elems) && forall i :: 0 <= i < elems ==> w[i] == if i in forced then 1 else t0[i].fc
    ensures forall x :: x in g.leaves ==> w[x] >= 1
    ensures forall i :: 0 <= i < elems && t0[i].fc != 0 ==> i in g.leaves && w[i] == t0[i].fc
  {
    hide Active;
  }

  lemma LeavesKept(before: seq<CtData>, tree: seq<CtData>, g: Shape, elems: nat)
    requires Lens(before) == Lens(tree) && elems <= |tree|
    requires forall i :: 0 <= i < elems && i !in g.leaves ==> before[i].dl == 0
    ensures forall i :: 0 <= i < elems && i !in g.leaves ==> tree[i].dl == 0
  {
    assert forall i :: 0 <= i < |tree| ==> tree[i].dl == Lens(tree)[i] && before[i].dl == Lens(before)[i];
  }

  lemma SteepKept(before: seq<CtData>, tree: seq<CtData>, w0: seq<nat>, elems: nat, total: nat, m: nat, cut: bool)
    requires Lens(before) == Lens(tree)
    requires forall j :: 1 <= j <= m && (cut ==> Upper(m, j - 1, elems)) ==> SteepFor(before, w0, elems, total, j)
    ensures forall j :: 1 <= j <= m && (cut ==> Upper(m, j - 1, elems)) ==> SteepFor(tree, w0, elems, total, j)
  {
    hide Upper, Fib, Mul;
    assert forall s :: 0 <= s < |tree| ==> tree[s].dl == Lens(tree)[s] && before[s].dl == Lens(before)[s];
    forall j | 1 <= j <= m && (cut ==> Upper(m, j - 1, elems)) ensures SteepFor(tree, w0, elems, total, j) {
      assert SteepFor(before, w0, elems, total, j);
    }
  }

  // What the tree is like, in terms of the symbols that occur.
  lemma HuffmanFacts(g: Shape, t0: seq<CtData>, tree: seq<CtData>, w: seq<nat>, x: seq<nat>, st: seq<nat>, bl_count: seq<nat>,
                  m: nat, opt: int, static_bits: int, forced: set<nat>, cut: bool)
    requires Whole(g) && g.elems + |g.pairs| <= |tree| == |t0| == |w| && Weighs(g, w) && Greedy(g, w)
    requires Result(g, tree, w, x, st, bl_count, m, opt, static_bits) && m >= 1
    requires g.leaves == Used(t0, g.elems) + forced && forced !! Used(t0, g.elems)
    requires Below(forced, 3) && g.elems >= 3 && (forced != {} ==> |g.leaves| == 2)
    requires |Used(t0, g.elems)| < 2 ==> forced == Second(Used(t0, g.elems))
    requires forall i :: 0 <= i < g.elems ==> w[i] == if i in forced then 1 else t0[i].fc
    requires (cut <==> !Shallow(g, m)) && (cut ==> Fib(m + 3) <= w[Root(g)])
    requires forall j :: 1 <= j <= m && (cut ==> Upper(m, j - 1, |g.leaves|)) ==> Steep(g.leaves, w, Lens(tree), w[Root(g)], j)
    ensures TreeOf(g, Freqs(t0, g.elems))
    ensures cut ==> Fib(m + 3) <= Occurrences(t0, g.elems)
    ensures forall j :: 1 <= j <= m && (cut ==> Upper(m, j - 1, g.elems)) ==>
      SteepFor(tree, Freqs(t0, g.elems), g.elems, Occurrences(t0, g.elems), j)
  {
    var w0, n := Freqs(t0, g.elems), g.elems;
    hide Sum, Fib, Mul, Weighs, Greedy, Merged, Shallow, Result, Pow2, Upper, Steep, SteepFor, Occurrences;
    PositiveUsed(t0, n);
    ResultLengths(g, tree, w, x, st, bl_count, m, opt, static_bits);
    if |Used(t0, n)| >= 2 {
      NoneForced(Used(t0, n), forced);
      ManySteep(g, t0, tree, w, m, cut);
    } else {
      AtLeastTwo(g);
      assert |g.leaves| == 2;
      TwoIsShallow(g, m);
      TwoSteep(g, t0, tree, m);
    }
  }

  lemma ManySteep(g: Shape, t0: seq<CtData>, tree: seq<CtData>, w: seq<nat>, m: nat, cut: bool)
    requires Whole(g) && g.elems <= |tree| == |t0| == |w| && Weighs(g, w) && g.leaves == Used(t0, g.elems) && Root(g) < |w|
    requires forall i :: 0 <= i < g.elems ==> w[i] == t0[i].fc
    requires forall j :: 1 <= j <= m && (cut ==> Upper(m, j - 1, |g.leaves|)) ==> Steep(g.leaves, w, Lens(tree), w[Root(g)], j)
    ensures Root(g) < |w| && w[Root(g)] == Occurrences(t0, g.elems)
    ensures forall j :: 1 <= j <= m && (cut ==> Upper(m, j - 1, g.elems)) ==>
      SteepFor(tree, Freqs(t0, g.elems), g.elems, Occurrences(t0, g.elems), j)
  {
    hide Sum, Fib, Mul, Weighs, Upper;
    var w0, n := Freqs(t0, g.elems), g.elems;
    RootIsTotal(g, w);
    SumSame(g.leaves, Plain(w), Plain(w0), n);
    forall j | 1 <= j <= m && (cut ==> Upper(m, j - 1, n)) ensures SteepFor(tree, w0, n, Occurrences(t0, n), j) {
      FewerLeaves(g, m, j - 1);
      assert Steep(g.leaves, w, Lens(tree), w[Root(g)], j);
    }
  }

  lemma TwoSteep(g: Shape, t0: seq<CtData>, tree: seq<CtData>, m: nat)
    requires Whole(g) && g.elems <= |tree| == |t0| && |g.leaves| == 2 && Used(t0, g.elems) <= g.leaves
    requires CompleteLengths(g.leaves, Lens(tree), m, g.elems)
    ensures forall j :: 1 <= j <= m ==> SteepFor(tree, Freqs(t0, g.elems), g.elems, Occurrences(t0, g.elems), j)
  {
    hide Sum, Fib, Mul;
    var w0, n := Freqs(t0, g.elems), g.elems;
    forall j | 1 <= j <= m ensures SteepFor(tree, w0, n, Occurrences(t0, n), j) {
      forall s | 0 <= s < n && w0[s] > 0 && tree[s].dl >= j ensures Mul(w0[s], Fib(j + 1)) <= Occurrences(t0, n) {
        TwoSymbols(g.leaves, Lens(tree), m, n, s);
        assert j == 1;
        OneBit(Used(t0, n), w0, n, s);
      }
    }
  }

  // Code lengths for the frequencies w0 that cost no more than codes of t bits
  // for all symbols would, if there are that many, and are no longer than the
  // total allows. Symbols that do not occur have no codes but to make them two.
  ghost predicate Modest(lens: seq<nat>, w0: seq<nat>, elems: nat, total: nat)
    requires elems <= |w0| && elems <= |lens|
  {
    && (forall t: nat :: t >= 1 && |NonZero(w0, elems)| <= Pow2(t) ==> Dot(w0, lens, elems) <= Mul(t, total))
    && (forall s :: 0 <= s < elems && lens[s] > 1 ==> Fib(lens[s] + 2) <= total)
    && (|NonZero(w0, elems)| >= 2 ==> forall s :: 0 <= s < elems && lens[s] > 0 ==> w0[s] > 0)
    && (forall s :: 3 <= s < elems && w0[s] == 0 ==> lens[s] == 0)
  }

  lemma ManyModest(g: Shape, t0: seq<CtData>, tree: seq<CtData>, w: seq<nat>)
    requires Whole(g) && g.elems + |g.pairs| <= |tree| == |t0| == |w| && Weighs(g, w) && Root(g) < |w|
    requires g.leaves == Used(t0, g.elems) && |g.leaves| >= 2 && forall i :: 0 <= i < g.elems ==> w[i] == t0[i].fc
    requires forall i :: 0 <= i < g.elems && i !in g.leaves ==> tree[i].dl == 0
    requires FlatNoCheaper(g.leaves, Sum(g.leaves, Weighted(w, Lens(tree)), g.elems), w[Root(g)])
    requires LongIsHeavy(g.leaves, Lens(tree), w[Root(g)])
    ensures Modest(Lens(tree), Freqs(t0, g.elems), g.elems, Occurrences(t0, g.elems))
  {
    var n, w0, lens := g.elems, Freqs(t0, g.elems), Lens(tree);
    PositiveUsed(t0, n);
    SumIsDot(Used(t0, n), w0, lens, n);
    RootIsTotal(g, w);
    hide Sum, Dot, Fib, Mul, Pow2, Weighs, Merged, Whole;
    SumSame(g.leaves, Plain(w), Plain(w0), n);
    SumSame(g.leaves, Weighted(w, lens), Weighted(w0, lens), n);
    assert forall s :: 0 <= s < n && lens[s] > 0 ==> s in g.leaves;
  }

  lemma FewModest(s: set<nat>, used: set<nat>, w0: seq<nat>, lens: seq<nat>, m: nat, n: nat)
    requires CompleteLengths(s, lens, m, n) && |s| == 2 && used <= s && n <= |w0| && used == NonZero(w0, n) && |used| < 2
    requires n <= |lens| && (forall i :: 0 <= i < n && i !in s ==> lens[i] == 0)
    requires forall i :: i in s && i !in used ==> i < 3
    ensures Modest(lens, w0, n, Sum(used, Plain(w0), n))
  {
    SumIsDot(used, w0, lens, n);
    hide Sum, Dot, Fib, Mul, Pow2;
    forall x | x in used && x < n ensures Of(Weighted(w0, lens), x) == Of(Plain(w0), x) {
      TwoSymbols(s, lens, m, n, x);
      MulOne(w0[x]);
      MulSwapped(w0[x], 1);
    }
    SumSame(used, Weighted(w0, lens), Plain(w0), n);
    var total := Sum(used, Plain(w0), n);
    forall x | x in s ensures lens[x] == 1 {
      TwoSymbols(s, lens, m, n, x);
    }
    forall t: nat | t >= 1 ensures total <= Mul(t, total) {
      MulLess(1, t, total);
      MulOne(total);
    }
  }

  lemma TreeModest(g: Shape, t0: seq<CtData>, tree: seq<CtData>, w: seq<nat>, m: nat, forced: set<nat>)
    requires Whole(g) && g.elems + |g.pairs| <= |tree| == |t0| == |w| && Weighs(g, w) && Root(g) < |w|
    requires CompleteLengths(g.leaves, Lens(tree), m, g.elems)
    requires g.leaves == Used(t0, g.elems) + forced && forced !! Used(t0, g.elems)
    requires Below(forced, 3) && (forced != {} ==> |g.leaves| == 2)
    requires forall i :: 0 <= i < g.elems ==> w[i] == if i in forced then 1 else t0[i].fc
    requires forall i :: 0 <= i < g.elems && i !in g.leaves ==> tree[i].dl == 0
    requires FlatNoCheaper(g.leaves, Sum(g.leaves, Weighted(w, Lens(tree)), g.elems), w[Root(g)])
    requires LongIsHeavy(g.leaves, Lens(tree), w[Root(g)])
    ensures Modest(Lens(tree), Freqs(t0, g.elems), g.elems, Occurrences(t0, g.elems))
  {
    AtLeastTwo(g);
    PositiveUsed(t0, g.elems);
    hide Sum, Weighs, Merged, Whole, CompleteLengths, Modest, FlatNoCheaper, LongIsHeavy, NonZero, Used, Root;
    if |Used(t0, g.elems)| >= 2 {
      NoneForced(Used(t0, g.elems), forced);
      ManyModest(g, t0, tree, w);
    } else {
      FewModest(g.leaves, Used(t0, g.elems), Freqs(t0, g.elems), Lens(tree), m, g.elems);
    }
  }

  lemma MulSwapped(a: nat, b: nat)
    ensures Mul(a, b) == Mul(b, a)
  {
  }

  lemma AtLeastTwo(g: Shape)
    requires Whole(g)
    ensures |g.leaves| >= 2
  {
  }

  lemma ResultLengths(g: Shape, tree: seq<CtData>, w: seq<nat>, x: seq<nat>, st: seq<nat>, bl_count: seq<nat>,
                      m: nat, opt: int, static_bits: int)
    requires Result(g, tree, w, x, st, bl_count, m, opt, static_bits)
    ensures CompleteLengths(g.leaves, Lens(tree), m, g.elems)
  {
  }

  lemma OneBit(s: set<nat>, w: seq<nat>, n: nat, x: nat)
    requires n <= |w| && x in s && x < n
    ensures Mul(w[x], Fib(2)) <= Sum(s, Plain(w), n)
  {
    assert Fib(2) == 1 && Mul(w[x], 1) == w[x];
    hide Sum;
    SumRemove(s, x, Plain(w), n);
  }

  lemma FewerLeaves(g: Shape, m: nat, b: nat)
    requires Whole(g)
    ensures Upper(m, b, g.elems) ==> Upper(m, b, |g.leaves|)
  {
    LeavesBelow(g);
    BelowSize(g.leaves, g.elems);
  }

  lemma RootIsTotal(g: Shape, w: seq<nat>)
    requires Whole(g) && Weighs(g, w)
    ensures Root(g) < |w| && g.elems <= |w| && w[Root(g)] == Sum(g.leaves, Plain(w), g.elems)
  {
    RootWeight(g, w, 0);
    SumExtend(g.leaves, Plain(w), g.elems, |w|);
  }

  // Two leaves hang from the root.
  lemma TwoIsShallow(g: Shape, m: nat)
    requires Whole(g) && |g.leaves| == 2 && m >= 1
    ensures Shallow(g, m)
  {
    var len: seq<nat> := seq(g.elems + 1, i => if i == g.elems then 0 else 1);
    assert MergedAt(g, 0);
    assert DepthAt(g, len, m, 0);
    assert Depths(g, len, m) && Over(g, len, m, 0) == Over(g, len, m, 1);
  }

  // Build the Huffman tree of the frequencies, and its canonical code.
  // opt and static_bits are what it adds to the lengths of the block in the
  // two encodings; cut says whether codes had to be shortened, because the tree
  // g is too deep.
  method BuildTree(tree: array<CtData>, elems: nat, heap: array<nat>, depth: array<nat>, bl_count: array<nat>,
                   extra: seq<nat>, base: nat, slen: seq<nat>, max_length: nat)
      returns (max_code: nat, opt: int, static_bits: int, ghost cut: bool, ghost g: Shape)
    requires heap != depth && heap != bl_count && heap.Length == depth.Length == HEAP_SIZE
    requires bl_count.Length == MAX_BITS + 1 && 1 <= max_length <= MAX_BITS
    requires 3 <= elems <= Pow2(max_length) && 2 * elems < tree.Length && 2 * elems < HEAP_SIZE
    requires slen == [] || |slen| >= elems
    requires elems <= base + |extra| && forall i :: 0 <= i < 3 ==> ExtraBits(extra, base, elems)[i] == 0
    requires Occurrences(tree[..], elems) + 2 <= 65535
    modifies tree, heap, depth, bl_count
    ensures TreeOk(tree[..], old(Freqs(tree[..], elems)), elems, max_code, max_length)
    ensures !cut && |old(Used(tree[..], elems))| >= 2 ==>
      Optimal(tree[..], old(Freqs(tree[..], elems)), elems) && Shortest(tree[..], old(Freqs(tree[..], elems)), elems)
    ensures TreeOf(g, old(Freqs(tree[..], elems))) && (cut <==> !Shallow(g, max_length))
    ensures forall i :: 0 <= i < elems && i !in g.leaves ==> tree[i].dl == 0
    ensures cut ==> Fib(max_length + 3) <= old(Occurrences(tree[..], elems))
    ensures Modest(Lens(tree[..]), old(Freqs(tree[..], elems)), elems, old(Occurrences(tree[..], elems)))
    ensures forall j :: 1 <= j <= max_length && (cut ==> Upper(max_length, j - 1, elems)) ==>
      SteepFor(tree[..], old(Freqs(tree[..], elems)), elems, old(Occurrences(tree[..], elems)), j)
    ensures var w0, x := old(Freqs(tree[..], elems)), ExtraBits(extra, base, elems);
      && opt == Dot(w0, Lens(tree[..]), elems) + Dot(w0, x, elems)
      && static_bits == Dot(w0, StaticBits(slen, x), elems)
  {
    hide Sum, Dot, Merged, Weighs, Greedy, Listed, Cheapest, Result, Optimal, Pow2, Complete, Count, HasCodes, Whole,
      DadOk, TreeOk, TreeOf, Shallow, Fib, SteepFor, Upper, Occurrences, Steep, ExtraBits, StaticBits, NonZero, Used,
      Below, Modest, FlatNoCheaper, LongIsHeavy, CompleteLengths, Shortest, Heights, Ordered, Depths;
    PositiveUsed(tree[..], elems);
    ghost var t0, w0, x := tree[..], Freqs(tree[..], elems), ExtraBits(extra, base, elems);
    var bits, st_bits, heap_max;
    ghost var forced;
    max_code, bits, st_bits, heap_max, forced, g := BuildShape(tree, elems, heap, depth, slen);
    ghost var w := Freqs(tree[..], tree.Length);
    LeavesPositive(g, t0, w, forced, elems);
    ghost var h := depth[..];
    opt, static_bits, cut :=
      GenBitlen.GenBitlen(tree, heap, bl_count, heap_max, max_code, extra, base, slen, max_length, g, w);
    ghost var t1 := tree[..];
    TreeDone(g, t1, t0, w, x, StaticBits(slen, x), bl_count[..], max_code, max_length, opt, static_bits);
    TreeSums(g, t1, t0, w, x, slen, bl_count[..], max_length, opt, static_bits, forced);
    HuffmanFacts(g, t0, t1, w, x, StaticBits(slen, x), bl_count[..], max_length, opt, static_bits, forced, cut);
    ResultLengths(g, t1, w, x, StaticBits(slen, x), bl_count[..], max_length, opt, static_bits);
    TreeModest(g, t0, t1, w, max_length, forced);
    opt, static_bits := opt + bits, static_bits + st_bits;
    CompleteIsPrefixed(SymbolLens(t1, max_code + 1));
    GenCodes(tree, max_code, bl_count);
    CodesKeep(t1, tree[..], g, w0, elems, Occurrences(t0, elems), max_code, max_length, cut);
    if !cut && |Used(t0, elems)| >= 2 {
      NoneForced(Used(t0, elems), forced);
      UncutOptimal(g, t0, tree[..], w, h, max_length);
    }
  }

  lemma UncutOptimal(g: Shape, t0: seq<CtData>, tree: seq<CtData>, w: seq<nat>, h: seq<nat>, limit: nat)
    requires Whole(g) && g.elems + |g.pairs| <= |tree| == |t0| == |w| && g.leaves == Used(t0, g.elems)
    requires Cheapest(g.leaves, w, Lens(tree)) && forall i :: 0 <= i < g.elems ==> w[i] == t0[i].fc
    requires Weighs(g, w) && Heights(g, h) && Ordered(g, w, h)
    requires Depths(g, Lens(tree), limit) && Over(g, Lens(tree), limit, 0) == 0
    requires forall i :: 0 <= i < g.elems && i !in g.leaves ==> tree[i].dl == 0
    ensures Optimal(tree, Freqs(t0, g.elems), g.elems) && Shortest(tree, Freqs(t0, g.elems), g.elems)
  {
    hide Cheapest, Optimal, Shortest, Weighs, Heights, Ordered, Depths, Over, Whole;
    PositiveUsed(t0, g.elems);
    CheapestOptimal(tree, Freqs(t0, g.elems), w, g.elems);
    HeightsShortest(g, tree, Freqs(t0, g.elems), w, h, limit);
  }

  lemma SymbolsAndRest(before: seq<CtData>, after: seq<CtData>, n: nat)
    requires n <= |before| == |after| && SymbolLens(before, n) == SymbolLens(after, n)
    requires forall i :: n <= i < |after| ==> after[i] == before[i]
    ensures Lens(before) == Lens(after)
  {
    forall i | 0 <= i < |before| ensures before[i].dl == after[i].dl {
      if i < n { assert SymbolLens(before, n)[i] == SymbolLens(after, n)[i]; }
    }
  }

  lemma TreeIsOk(before: seq<CtData>, tree: seq<CtData>, w0: seq<nat>, elems: nat, max_code: nat, max_length: nat)
    requires |before| == |tree| && max_code < elems <= |tree| && elems <= |w0| && Lens(before) == Lens(tree)
    requires Complete(SymbolLens(before, max_code + 1)) && SymbolLens(before, max_code + 1) == SymbolLens(tree, max_code + 1)
    requires HasCodes(tree, SymbolLens(tree, max_code + 1))
    requires before[max_code].dl > 0 && forall i :: max_code < i < elems ==> before[i].dl == 0
    requires forall i :: 0 <= i < elems ==> before[i].dl <= max_length
    requires forall i :: 0 <= i < elems && w0[i] != 0 ==> before[i].dl > 0
    requires forall i, j :: 0 <= i < elems && 0 <= j < elems && 0 < w0[i] < w0[j] ==> before[i].dl >= before[j].dl
    ensures TreeOk(tree, w0, elems, max_code, max_length)
  {
    hide Complete, HasCodes;
    assert forall i :: 0 <= i < elems ==> tree[i].dl == Lens(tree)[i] && before[i].dl == Lens(before)[i];
  }

  // What is known of the lengths stays known when the codes are put in.
  lemma CodesKeep(before: seq<CtData>, tree: seq<CtData>, g: Shape, w0: seq<nat>, elems: nat, total: nat, max_code: nat,
                  m: nat, cut: bool)
    requires max_code < elems <= |before| == |tree| && elems <= |w0|
    requires SymbolLens(before, max_code + 1) == SymbolLens(tree, max_code + 1)
    requires forall i :: max_code + 1 <= i < |tree| ==> tree[i] == before[i]
    requires Complete(SymbolLens(before, max_code + 1)) && HasCodes(tree, SymbolLens(tree, max_code + 1))
    requires before[max_code].dl > 0 && forall i :: max_code < i < elems ==> before[i].dl == 0
    requires forall i :: 0 <= i < elems ==> before[i].dl <= m
    requires forall i :: 0 <= i < elems && w0[i] != 0 ==> before[i].dl > 0
    requires forall i, j :: 0 <= i < elems && 0 <= j < elems && 0 < w0[i] < w0[j] ==> before[i].dl >= before[j].dl
    requires forall i :: 0 <= i < elems && i !in g.leaves ==> before[i].dl == 0
    requires forall j :: 1 <= j <= m && (cut ==> Upper(m, j - 1, elems)) ==> SteepFor(before, w0, elems, total, j)
    ensures TreeOk(tree, w0, elems, max_code, m) && Lens(before) == Lens(tree)
    ensures forall i :: 0 <= i < elems && i !in g.leaves ==> tree[i].dl == 0
    ensures forall j :: 1 <= j <= m && (cut ==> Upper(m, j - 1, elems)) ==> SteepFor(tree, w0, elems, total, j)
  {
    hide Upper, SteepFor, TreeOk, Complete, HasCodes;
    SymbolsAndRest(before, tree, max_code + 1);
    LeavesKept(before, tree, g, elems);
    SteepKept(before, tree, w0, elems, total, m, cut);
    TreeIsOk(before, tree, w0, elems, max_code, m);
  }

  lemma CompleteIsPrefixed(lens: seq<nat>)
    ensures Complete(lens) ==> Prefixed(lens)
  {
  }

  lemma NoneForced(used: set<nat>, forced: set<nat>)
    requires |used| >= 2 && forced !! used && (forced != {} ==> |used + forced| == 2)
    ensures forced == {}
  {
    assert |used + forced| == |used| + |forced|;
  }

  lemma TreeSums(g: Shape, tree: seq<CtData>, t0: seq<CtData>, w: seq<nat>, x: seq<nat>, slen: seq<nat>, bl_count: seq<nat>,
                 max_length: nat, opt: int, static_bits: int, forced: set<nat>)
    requires |x| == g.elems && (slen == [] || |slen| >= g.elems) && 3 <= g.elems <= |tree| == |t0| && |w| == |tree|
    requires forall i :: 0 <= i < 3 ==> x[i] == 0
    requires Result(g, tree, w, x, StaticBits(slen, x), bl_count, max_length, opt, static_bits)
    requires g.leaves == Used(t0, g.elems) + forced && forced !! Used(t0, g.elems)
    requires Below(forced, 3) && (forced != {} ==> |g.leaves| == 2)
    requires forall i :: 0 <= i < g.elems ==> w[i] == if i in forced then 1 else t0[i].fc
    ensures var w0 := Freqs(t0, g.elems);
      && opt == Dot(w0, Lens(tree), g.elems) + |forced| + Dot(w0, x, g.elems)
      && static_bits == Dot(w0, StaticBits(slen, x), g.elems) + Sum(forced, Plain(slen), g.elems)
  {
    hide Sum, Dot, Pow2, CompleteLengths;
    forall i | i in forced ensures Lens(tree)[i] == 1 {
      TwoSymbols(g.leaves, Lens(tree), max_length, g.elems, i);
    }
    TreeCost(g.leaves, forced, Freqs(t0, g.elems), w, Lens(tree), x, slen, g.elems);
  }

  // The code as one for all symbols, also those after max_code.
  lemma AllSymbols(tree: seq<CtData>, w0: seq<nat>, elems: nat, max_code: nat, max_length: nat)
    requires TreeOk(tree, w0, elems, max_code, max_length)
    ensures Complete(SymbolLens(tree, elems)) && HasCodes(tree, SymbolLens(tree, elems))
    ensures elems <= |w0| && forall i :: 0 <= i < elems ==> tree[i].dl <= max_length && (w0[i] != 0 ==> tree[i].dl > 0)
  {
    hide Complete, StreamCode;
    ZerosSame(SymbolLens(tree, max_code + 1), SymbolLens(tree, elems));
  }
}
