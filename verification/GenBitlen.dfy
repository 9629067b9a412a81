// trees.c: gen_bitlen(), the code lengths of a Huffman tree.
module GenBitlen {
  import opened Bits
  import opened Heap
  import opened Huffman
  import opened HuffmanShape
  import opened HuffmanDepth
  import opened RepairCost
  import TreeMerge

  const MAX_BITS: nat := 15

  // ---- The tree nodes in the order of heap[], below the root ----

  function NodeAt(g: Shape, q: nat): nat
    requires q < 2 * |g.pairs|
  {
    var (a, b) := g.pairs[|g.pairs| - 1 - q / 2];
    if q % 2 == 0 then b else a
  }

  function DadAt(g: Shape, q: nat): nat
    requires q < 2 * |g.pairs|
  {
    g.elems + |g.pairs| - 1 - q / 2
  }

  ghost predicate Whole(g: Shape) {
    Merged(g) && |g.pairs| >= 1 && |g.leaves| == |g.pairs| + 1
  }

  // A node comes after its father, and never twice.
  lemma NodeOrder(g: Shape, p: nat, q: nat)
    requires Whole(g) && q <= p < 2 * |g.pairs|
    ensures NodeAt(g, p) < DadAt(g, q)
    ensures q < p ==> NodeAt(g, p) != NodeAt(g, q)
  {
    var t, u := |g.pairs| - 1 - p / 2, |g.pairs| - 1 - q / 2;
    assert MergedAt(g, t);
    if t < u {
      PairsDistinct(g, t, u);
    }
  }

  // The symbols among the first p nodes.
  ghost function SeenLeaves(g: Shape, p: nat): set<nat>
    requires p <= 2 * |g.pairs|
  {
    if p == 0 then {}
    else SeenLeaves(g, p - 1) + (if NodeAt(g, p - 1) < g.elems then {NodeAt(g, p - 1)} else {})
  }

  lemma {:induction false} SeenOld(g: Shape, p: nat, r: nat)
    requires Whole(g) && p <= r < 2 * |g.pairs|
    ensures NodeAt(g, r) !in SeenLeaves(g, p)
  {
    if p > 0 {
      SeenOld(g, p - 1, r);
      NodeOrder(g, r, p - 1);
    }
  }

  lemma NodeIsLeaf(g: Shape, q: nat)
    requires Whole(g) && q < 2 * |g.pairs|
    ensures NodeAt(g, q) < g.elems ==> NodeAt(g, q) in g.leaves
  {
    var t := |g.pairs| - 1 - q / 2;
    assert MergedAt(g, t);
    if NodeAt(g, q) < g.elems {
      ActiveLeaf(g, t, NodeAt(g, q));
    }
  }

  lemma {:induction false} SeenAreLeaves(g: Shape, p: nat)
    requires Whole(g) && p <= 2 * |g.pairs|
    ensures SeenLeaves(g, p) <= g.leaves
    ensures forall q :: 0 <= q < p && NodeAt(g, q) < g.elems ==> NodeAt(g, q) in SeenLeaves(g, p)
  {
    if p > 0 {
      SeenAreLeaves(g, p - 1);
      NodeIsLeaf(g, p - 1);
    }
  }

  // Every symbol is met.
  lemma SeenAll(g: Shape)
    requires Whole(g)
    ensures SeenLeaves(g, 2 * |g.pairs|) == g.leaves
  {
    var n := |g.pairs|;
    SeenAreLeaves(g, 2 * n);
    OneRoot(g);
    forall x | x in g.leaves ensures x in SeenLeaves(g, 2 * n) {
      var t := MergedWhen(g, x, 0, n);
      var q := 2 * (n - 1 - t);
      assert NodeAt(g, q) == g.pairs[t].1 && NodeAt(g, q + 1) == g.pairs[t].0;
    }
  }

  // ---- The first pass: lengths from depths, cut off at max_length ----

  ghost function Lens(tree: seq<CtData>): seq<nat> {
    seq(|tree|, i requires 0 <= i < |tree| => tree[i].dl)
  }

  ghost predicate DepthOk(g: Shape, tree: seq<CtData>, max_length: nat, q: nat)
    requires q < 2 * |g.pairs|
  {
    && NodeAt(g, q) < |tree| && DadAt(g, q) < |tree|
    && tree[NodeAt(g, q)].dl == Clamp(tree[DadAt(g, q)].dl + 1, max_length)
  }

  ghost predicate DadOk(g: Shape, tree: seq<CtData>, q: nat)
    requires q < 2 * |g.pairs|
  {
    NodeAt(g, q) < |tree| && tree[NodeAt(g, q)].dl == DadAt(g, q)
  }

  // The first p nodes have their lengths, the others still their fathers.
  ghost predicate Assigned(g: Shape, tree: seq<CtData>, max_length: nat, p: nat)
    requires p <= 2 * |g.pairs|
  {
    && Whole(g) && g.elems + |g.pairs| <= |tree|
    && tree[g.elems + |g.pairs| - 1].dl == 0
    && (forall q :: 0 <= q < p ==> DepthOk(g, tree, max_length, q))
    && (forall q :: p <= q < 2 * |g.pairs| ==> DadOk(g, tree, q))
  }

  lemma AssignStep(g: Shape, tree: seq<CtData>, max_length: nat, p: nat)
    requires p < 2 * |g.pairs| && Assigned(g, tree, max_length, p)
    ensures NodeAt(g, p) < DadAt(g, p) < |tree| && tree[NodeAt(g, p)].dl == DadAt(g, p)
    ensures var n := NodeAt(g, p);
      Assigned(g, tree[n := tree[n].(dl := Clamp(tree[DadAt(g, p)].dl + 1, max_length))], max_length, p + 1)
  {
    var n := NodeAt(g, p);
    NodeOrder(g, p, p);
    assert DadOk(g, tree, p);
    var after := tree[n := tree[n].(dl := Clamp(tree[DadAt(g, p)].dl + 1, max_length))];
    forall q | 0 <= q < p + 1 ensures DepthOk(g, after, max_length, q) {
      NodeOrder(g, p, q);
      assert q < p ==> DepthOk(g, tree, max_length, q);
    }
    forall q | p + 1 <= q < 2 * |g.pairs| ensures DadOk(g, after, q) {
      NodeOrder(g, q, p);
      assert DadOk(g, tree, q);
    }
    NodeOrder(g, p, 0);
  }

  // In the end the lengths are the depths of the tree, cut off.
  lemma AssignedDepths(g: Shape, tree: seq<CtData>, max_length: nat)
    requires Assigned(g, tree, max_length, 2 * |g.pairs|)
    ensures Depths(g, Lens(tree), max_length)
  {
    forall t | 0 <= t < |g.pairs| ensures DepthAt(g, Lens(tree), max_length, t) {
      var q := 2 * (|g.pairs| - 1 - t);
      assert DepthOk(g, tree, max_length, q) && DepthOk(g, tree, max_length, q + 1);
    }
  }

  // How many of the first p nodes were cut off.
  ghost function CutOff(g: Shape, len: seq<nat>, max_length: nat, p: nat): nat
    requires p <= 2 * |g.pairs| && g.elems + |g.pairs| <= |len|
  {
    if p == 0 then 0
    else CutOff(g, len, max_length, p - 1) + (if len[DadAt(g, p - 1)] + 1 > max_length then 1 else 0)
  }

  lemma {:induction false} CutOffIsOver(g: Shape, len: seq<nat>, max_length: nat, t: nat)
    requires t <= |g.pairs| && g.elems + |g.pairs| <= |len|
    ensures CutOff(g, len, max_length, 2 * (|g.pairs| - t)) == Over(g, len, max_length, t)
    decreases |g.pairs| - t
  {
    if t < |g.pairs| {
      CutOffIsOver(g, len, max_length, t + 1);
      var p := 2 * (|g.pairs| - t);
      assert DadAt(g, p - 1) == DadAt(g, p - 2) == g.elems + t;
      assert CutOff(g, len, max_length, p) == CutOff(g, len, max_length, p - 1) + (if len[g.elems + t] + 1 > max_length then 1 else 0);
    }
  }

  lemma {:induction false} CutOffSame(g: Shape, len: seq<nat>, max_length: nat, p: nat, r: nat, v: nat)
    requires Whole(g) && p <= r + 1 && r < 2 * |g.pairs| && g.elems + |g.pairs| <= |len|
    requires NodeAt(g, r) < |len|
    ensures CutOff(g, len[NodeAt(g, r) := v], max_length, p) == CutOff(g, len, max_length, p)
  {
    if p > 0 {
      CutOffSame(g, len, max_length, p - 1, r, v);
      NodeOrder(g, r, p - 1);
    }
  }

  // What the pass adds up: the numbers of symbols of each length, and the bits
  // that the symbols seen so far will take. w are the frequencies, x the
  // numbers of extra bits, st the lengths of the static tree with extra bits.
  ghost predicate Tallied(s: set<nat>, w: seq<nat>, x: seq<nat>, st: seq<nat>, len: seq<nat>, bl_count: seq<nat>,
                          opt: int, static_bits: int, n: nat)
  {
    && |bl_count| == MAX_BITS + 1
    && (forall b :: 0 <= b <= MAX_BITS ==> bl_count[b] == Sum(s, Level(len, b), n))
    && opt == Sum(s, Weighted(w, len), n) + Sum(s, Weighted(w, x), n)
    && static_bits == Sum(s, Weighted(w, st), n)
  }

  lemma TallyStep(s: set<nat>, w: seq<nat>, x: seq<nat>, st: seq<nat>, len: seq<nat>, bl_count: seq<nat>,
                  opt: int, static_bits: int, n: nat, y: nat, v: nat)
    requires Tallied(s, w, x, st, len, bl_count, opt, static_bits, n)
    requires y !in s && y < n <= |len| && n <= |w| && y < |x| && (st == [] || y < |st|) && v <= MAX_BITS
    ensures Tallied(s + {y}, w, x, st, len[y := v], bl_count[v := bl_count[v] + 1],
                    opt + Mul(w[y], v + x[y]), if st == [] then static_bits else static_bits + Mul(w[y], st[y]), n)
  {
    hide Sum;
    var len2, bl2 := len[y := v], bl_count[v := bl_count[v] + 1];
    forall b | 0 <= b <= MAX_BITS ensures bl2[b] == Sum(s + {y}, Level(len2, b), n) {
      SumSame(s, Level(len, b), Level(len2, b), n);
      SumAdd(s, y, Level(len2, b), n);
    }
    SumSame(s, Weighted(w, len), Weighted(w, len2), n);
    SumAdd(s, y, Weighted(w, len2), n);
    SumAdd(s, y, Weighted(w, x), n);
    SumAdd(s, y, Weighted(w, st), n);
    MulPlus(w[y], v, x[y]);
  }

  lemma MulPlus(a: nat, b: nat, c: nat)
    ensures Mul(a, b + c) == Mul(a, b) + Mul(a, c)
  {
  }

  lemma TallySkip(s: set<nat>, w: seq<nat>, x: seq<nat>, st: seq<nat>, len: seq<nat>, bl_count: seq<nat>,
                  opt: int, static_bits: int, n: nat, y: nat, v: nat)
    requires Tallied(s, w, x, st, len, bl_count, opt, static_bits, n) && y !in s && y < |len|
    ensures Tallied(s, w, x, st, len[y := v], bl_count, opt, static_bits, n)
  {
    hide Sum;
    forall b | 0 <= b <= MAX_BITS ensures bl_count[b] == Sum(s, Level(len[y := v], b), n) {
      SumSame(s, Level(len, b), Level(len[y := v], b), n);
    }
    SumSame(s, Weighted(w, len), Weighted(w, len[y := v]), n);
  }

  // The number of extra bits of each symbol.
  function ExtraBits(extra: seq<nat>, base: nat, n: nat): (x: seq<nat>)
    requires n <= base + |extra|
    ensures |x| == n && forall i :: 0 <= i < n ==> x[i] == if i >= base then extra[i - base] else 0
  {
    if n == 0 then [] else ExtraBits(extra, base, n - 1) + [if n - 1 >= base then extra[n - 1 - base] else 0]
  }

  function AddLens(s: seq<nat>, x: seq<nat>): (r: seq<nat>)
    requires |x| <= |s|
    ensures |r| == |x| && forall i :: 0 <= i < |x| ==> r[i] == s[i] + x[i]
  {
    if |x| == 0 then [] else AddLens(s, x[..|x| - 1]) + [s[|x| - 1] + x[|x| - 1]]
  }

  // The lengths of the static tree with extra bits, if there is a static tree.
  function StaticBits(slen: seq<nat>, x: seq<nat>): (st: seq<nat>)
    requires slen == [] || |slen| >= |x|
  {
    if slen == [] then [] else AddLens(slen, x)
  }

  // heap[] lists the nodes of g below its root, which is before them.
  ghost predicate Listed(g: Shape, heap: seq<nat>) {
    && |g.pairs| >= 1 && 2 * |g.pairs| < |heap|
    && heap[|heap| - 2 * |g.pairs| - 1] == g.elems + |g.pairs| - 1
    && forall q :: 0 <= q < 2 * |g.pairs| ==> heap[|heap| - 2 * |g.pairs| + q] == NodeAt(g, q)
  }

  lemma RecordedListed(g: Shape, tree: seq<CtData>, heap: seq<nat>)
    requires Whole(g) && 2 * |g.pairs| < |heap| && TreeMerge.AllRecorded(g, tree, heap)
    requires heap[|heap| - 2 * |g.pairs| - 1] == g.elems + |g.pairs| - 1
    ensures Listed(g, heap) && forall q :: 0 <= q < 2 * |g.pairs| ==> DadOk(g, tree, q)
  {
    forall q | 0 <= q < 2 * |g.pairs|
      ensures heap[|heap| - 2 * |g.pairs| + q] == NodeAt(g, q) && DadOk(g, tree, q)
    {
      var t := |g.pairs| - 1 - q / 2;
      assert TreeMerge.Recorded(g, tree, heap, t);
      assert q == 2 * (q / 2) + q % 2;
    }
  }

  // State of the first pass before node p.
  ghost predicate Pass(g: Shape, tree: seq<CtData>, w: seq<nat>, x: seq<nat>, st: seq<nat>, bl_count: seq<nat>,
                       max_length: nat, p: nat, overflow: nat, opt: int, static_bits: int)
    requires p <= 2 * |g.pairs|
  {
    && Assigned(g, tree, max_length, p)
    && |tree| <= |w| && (forall i :: 0 <= i < |tree| ==> tree[i].fc == w[i])
    && Tallied(SeenLeaves(g, p), w, x, st, Lens(tree), bl_count, opt, static_bits, g.elems)
    && overflow == CutOff(g, Lens(tree), max_length, p)
  }

  lemma PassLeaf(g: Shape, tree: seq<CtData>, w: seq<nat>, x: seq<nat>, st: seq<nat>, bl_count: seq<nat>,
                 max_length: nat, p: nat, overflow: nat, opt: int, static_bits: int, bits: nat)
    requires p < 2 * |g.pairs| && Pass(g, tree, w, x, st, bl_count, max_length, p, overflow, opt, static_bits)
    requires max_length <= MAX_BITS && |x| == g.elems && (st == [] || |st| == g.elems)
    requires DadAt(g, p) < |tree| && bits == Clamp(tree[DadAt(g, p)].dl + 1, max_length)
    ensures NodeAt(g, p) < |tree| && bits <= MAX_BITS
    ensures var n := NodeAt(g, p);
      var over2 := if tree[DadAt(g, p)].dl + 1 > max_length then overflow + 1 else overflow;
      if n < g.elems then
        Pass(g, tree[n := tree[n].(dl := bits)], w, x, st, bl_count[bits := bl_count[bits] + 1], max_length, p + 1, over2,
             opt + Mul(w[n], bits + x[n]), if st == [] then static_bits else static_bits + Mul(w[n], st[n]))
      else
        Pass(g, tree[n := tree[n].(dl := bits)], w, x, st, bl_count, max_length, p + 1, over2, opt, static_bits)
  {
    hide Sum, CutOff, Assigned, Tallied;
    assert Whole(g) && g.elems + |g.pairs| <= |tree| by { PassWhole(g, tree, max_length, p); }
    AssignStep(g, tree, max_length, p);
    SeenOld(g, p, p);
    var n := NodeAt(g, p);
    var after := tree[n := tree[n].(dl := bits)];
    assert Lens(after) == Lens(tree)[n := bits];
    NodeOrder(g, p, p);
    CutOffSame(g, Lens(tree), max_length, p + 1, p, bits);
    CutOffStep(g, Lens(tree), max_length, p);
    if n < g.elems {
      TallyStep(SeenLeaves(g, p), w, x, st, Lens(tree), bl_count, opt, static_bits, g.elems, n, bits);
    } else {
      assert SeenLeaves(g, p + 1) == SeenLeaves(g, p);
      TallySkip(SeenLeaves(g, p), w, x, st, Lens(tree), bl_count, opt, static_bits, g.elems, n, bits);
    }
  }

  lemma PassWhole(g: Shape, tree: seq<CtData>, max_length: nat, p: nat)
    requires p <= 2 * |g.pairs| && Assigned(g, tree, max_length, p)
    ensures Whole(g) && g.elems + |g.pairs| <= |tree|
  {
  }

  lemma CutOffStep(g: Shape, len: seq<nat>, max_length: nat, p: nat)
    requires p < 2 * |g.pairs| && g.elems + |g.pairs| <= |len|
    ensures CutOff(g, len, max_length, p + 1)
         == CutOff(g, len, max_length, p) + (if len[DadAt(g, p)] + 1 > max_length then 1 else 0)
  {
  }

  method ClearCounts(bl_count: array<nat>)
    requires bl_count.Length == MAX_BITS + 1
    modifies bl_count
    ensures forall b :: 0 <= b <= MAX_BITS ==> bl_count[b] == 0
  {
    var bits := 0;
    while bits <= MAX_BITS
      invariant 0 <= bits <= MAX_BITS + 1 && forall b :: 0 <= b < bits ==> bl_count[b] == 0
    {
      bl_count[bits] := 0;
      bits := bits + 1;
    }
  }

  // The depth of every node, cut off at the limit; overflow counts the cuts.
  method FirstPass(tree: array<CtData>, heap: array<nat>, bl_count: array<nat>, heap_max: nat, max_code: nat,
                   extra: seq<nat>, base: nat, slen: seq<nat>, max_length: nat, ghost g: Shape, ghost w: seq<nat>)
      returns (overflow: nat, opt: int, static_bits: int)
    requires heap != bl_count && bl_count.Length == MAX_BITS + 1 && max_length <= MAX_BITS
    requires Whole(g) && g.elems + |g.pairs| <= tree.Length && Listed(g, heap[..])
    requires forall q :: 0 <= q < 2 * |g.pairs| ==> DadOk(g, tree[..], q)
    requires heap_max == heap.Length - 2 * |g.pairs| - 1
    requires max_code < g.elems && forall s :: s in g.leaves ==> s <= max_code
    requires g.elems <= base + |extra| && (slen == [] || |slen| >= g.elems)
    requires |w| == tree.Length && forall i :: 0 <= i < tree.Length ==> tree[i].fc == w[i]
    modifies tree, bl_count
    ensures var x := ExtraBits(extra, base, g.elems);
      Pass(g, tree[..], w, x, StaticBits(slen, x), bl_count[..], max_length, 2 * |g.pairs|, overflow, opt, static_bits)
    ensures forall i :: 0 <= i < g.elems && i !in g.leaves ==> tree[i] == old(tree[i])
  {
    hide Sum, CutOff, Tallied, Assigned, SeenLeaves, Whole, Pass;
    ghost var x := ExtraBits(extra, base, g.elems);
    ghost var st := StaticBits(slen, x);
    ClearCounts(bl_count);
    overflow, opt, static_bits := 0, 0, 0;
    tree[heap[heap_max]] := tree[heap[heap_max]].(dl := 0);
    FirstPassStart(g, old(tree[..]), tree[..], w, x, st, bl_count[..], max_length);
    var h := heap_max + 1;
    while h < heap.Length
      invariant heap_max + 1 <= h <= heap.Length
      invariant Pass(g, tree[..], w, x, st, bl_count[..], max_length, h - (heap_max + 1), overflow, opt, static_bits)
      invariant heap[..] == old(heap[..])
      invariant forall i :: 0 <= i < g.elems && i !in g.leaves ==> tree[i] == old(tree[i])
    {
      ghost var p := h - (heap_max + 1);
      assert heap[h] == NodeAt(g, p);
      var over, o, sb := PassNode(tree, bl_count, heap[h], max_code, extra, base, slen, max_length, g, w, p, overflow, opt,
                                  static_bits);
      overflow, opt, static_bits := overflow + over, opt + o, static_bits + sb;
      h := h + 1;
    }
  }

  // One node: its length from its father's, and, if it is a symbol, what that
  // adds to the counts.
  method PassNode(tree: array<CtData>, bl_count: array<nat>, n: nat, max_code: nat, extra: seq<nat>, base: nat,
                  slen: seq<nat>, max_length: nat, ghost g: Shape, ghost w: seq<nat>, ghost p: nat, ghost overflow: nat,
                  ghost opt: int, ghost static_bits: int)
      returns (over: nat, o: int, sb: int)
    requires p < 2 * |g.pairs| && n == NodeAt(g, p) && max_length <= MAX_BITS
    requires max_code < g.elems && forall s :: s in g.leaves ==> s <= max_code
    requires g.elems <= base + |extra| && (slen == [] || |slen| >= g.elems)
    requires var x := ExtraBits(extra, base, g.elems);
      Pass(g, tree[..], w, x, StaticBits(slen, x), bl_count[..], max_length, p, overflow, opt, static_bits)
    modifies tree, bl_count
    ensures var x := ExtraBits(extra, base, g.elems);
      Pass(g, tree[..], w, x, StaticBits(slen, x), bl_count[..], max_length, p + 1, overflow + over, opt + o, static_bits + sb)
    ensures forall i :: 0 <= i < g.elems && i !in g.leaves ==> tree[i] == old(tree[i])
  {
    hide Sum, CutOff, Tallied, Assigned, SeenLeaves, Whole, Pass, NodeAt, DadAt, Mul;
    ghost var x := ExtraBits(extra, base, g.elems);
    ghost var before := tree[..];
    over, o, sb := 0, 0, 0;
    NodeFacts(g, before, w, x, StaticBits(slen, x), bl_count[..], max_length, p, overflow, opt, static_bits);
    var bits := tree[tree[n].dl].dl + 1;
    if bits > max_length {
      bits := max_length;
      over := 1;
    }
    PassLeaf(g, before, w, x, StaticBits(slen, x), bl_count[..], max_length, p, overflow, opt, static_bits, bits);
    tree[n] := tree[n].(dl := bits);
    assert tree[..] == before[n := before[n].(dl := bits)];
    if n <= max_code {
      o, sb := CountSymbol(bl_count, n, bits, tree[n].fc, extra, base, slen, g.elems);
    }
  }

  // Count a symbol's length, and the bits it takes.
  method CountSymbol(bl_count: array<nat>, n: nat, bits: nat, f: nat, extra: seq<nat>, base: nat, slen: seq<nat>,
                     ghost elems: nat)
      returns (opt: int, static_bits: int)
    requires bl_count.Length == MAX_BITS + 1 && bits <= MAX_BITS && n < elems
    requires elems <= base + |extra| && (slen == [] || |slen| >= elems)
    modifies bl_count
    ensures bl_count[..] == old(bl_count[..])[bits := old(bl_count[bits]) + 1]
    ensures var x := ExtraBits(extra, base, elems);
      && opt == Mul(f, bits + x[n])
      && static_bits == if StaticBits(slen, x) == [] then 0 else Mul(f, StaticBits(slen, x)[n])
  {
    bl_count[bits] := bl_count[bits] + 1;
    var xbits := 0;
    if n >= base { xbits := extra[n - base]; }
    opt, static_bits := Mul(f, bits + xbits), 0;
    if slen != [] { static_bits := Mul(f, slen[n] + xbits); }
  }

  lemma NodeFacts(g: Shape, tree: seq<CtData>, w: seq<nat>, x: seq<nat>, st: seq<nat>, bl_count: seq<nat>,
                  max_length: nat, p: nat, overflow: nat, opt: int, static_bits: int)
    requires p < 2 * |g.pairs| && Pass(g, tree, w, x, st, bl_count, max_length, p, overflow, opt, static_bits)
    ensures |bl_count| == MAX_BITS + 1
    ensures NodeAt(g, p) < |tree| && tree[NodeAt(g, p)].dl == DadAt(g, p) < |tree|
    ensures NodeAt(g, p) < g.elems ==> NodeAt(g, p) in g.leaves
    ensures NodeAt(g, p) < |w| && tree[NodeAt(g, p)].fc == w[NodeAt(g, p)]
  {
    AssignStep(g, tree, max_length, p);
    NodeIsLeaf(g, p);
  }

  lemma FirstPassStart(g: Shape, before: seq<CtData>, tree: seq<CtData>, w: seq<nat>, x: seq<nat>, st: seq<nat>,
                       bl_count: seq<nat>, max_length: nat)
    requires Whole(g) && g.elems + |g.pairs| <= |before| <= |w|
    requires forall q :: 0 <= q < 2 * |g.pairs| ==> DadOk(g, before, q)
    requires tree == before[g.elems + |g.pairs| - 1 := before[g.elems + |g.pairs| - 1].(dl := 0)]
    requires forall i :: 0 <= i < |before| ==> before[i].fc == w[i]
    requires |bl_count| == MAX_BITS + 1 && forall b :: 0 <= b <= MAX_BITS ==> bl_count[b] == 0
    ensures Pass(g, tree, w, x, st, bl_count, max_length, 0, 0, 0, 0)
  {
    forall q | 0 <= q < 2 * |g.pairs| ensures DadOk(g, tree, q) {
      NodeOrder(g, q, 0);
      assert DadOk(g, before, q);
    }
    forall b | 0 <= b <= MAX_BITS ensures Sum({}, Level(Lens(tree), b), g.elems) == 0 {
      SumEmpty({}, Level(Lens(tree), b), g.elems);
    }
    SumEmpty({}, Weighted(w, Lens(tree)), g.elems);
    SumEmpty({}, Weighted(w, x), g.elems);
    SumEmpty({}, Weighted(w, st), g.elems);
  }

  // ---- The length counts and their Kraft sum ----

  // The Kraft sum, in units of 2 to the -m, that counts of lengths 1..b give.
  function CountKraft(bl: seq<nat>, m: nat, b: nat): nat
    requires b <= m < |bl|
  {
    if b == 0 then 0 else CountKraft(bl, m, b - 1) + Shl(bl[b], m - b)
  }

  function CountTotal(bl: seq<nat>, b: nat): nat
    requires b < |bl|
  {
    if b == 0 then 0 else CountTotal(bl, b - 1) + bl[b]
  }

  lemma {:induction false} CountKraftSet(bl: seq<nat>, m: nat, b: nat, i: nat, v: nat)
    requires b <= m < |bl| && 1 <= i <= m
    ensures i <= b ==>
      CountKraft(bl[i := v], m, b) + Shl(bl[i], m - i) == CountKraft(bl, m, b) + Shl(v, m - i)
    ensures i > b ==> CountKraft(bl[i := v], m, b) == CountKraft(bl, m, b)
  {
    if b > 0 { CountKraftSet(bl, m, b - 1, i, v); }
  }

  lemma {:induction false} CountTotalSet(bl: seq<nat>, b: nat, i: nat, v: nat)
    requires b < |bl| && 1 <= i < |bl|
    ensures i <= b ==> CountTotal(bl[i := v], b) + bl[i] == CountTotal(bl, b) + v
    ensures i > b ==> CountTotal(bl[i := v], b) == CountTotal(bl, b)
  {
    if b > 0 { CountTotalSet(bl, b - 1, i, v); }
  }

  ghost predicate CountsLevels(s: set<nat>, len: seq<nat>, bl: seq<nat>, m: nat, n: nat) {
    m < |bl| && forall b :: 0 <= b <= m ==> bl[b] == Sum(s, Level(len, b), n)
  }

  // Counting by length gives the same Kraft sum and the same total.
  lemma {:induction false} LevelsKraft(s: set<nat>, len: seq<nat>, bl: seq<nat>, m: nat, n: nat)
    requires m < |bl| && n <= |len| && CountsLevels(s, len, bl, m, n)
    requires forall x :: x in s && x < n ==> 1 <= len[x] <= m
    ensures CountKraft(bl, m, m) == Sum(s, Units(len, m), n)
    ensures CountTotal(bl, m) == |set x | x in s && x < n|
    decreases n
  {
    if n == 0 {
      NoCounts(bl, m, m);
      assert (set x | x in s && x < 0) == {};
    } else {
      var members, fewer := set x | x in s && x < n, set x | x in s && x < n - 1;
      if n - 1 in s {
        var v := len[n - 1];
        assert bl[v] == Sum(s, Level(len, v), n - 1) + 1;
        var bl2 := bl[v := bl[v] - 1];
        assert CountsLevels(s, len, bl2, m, n - 1);
        LevelsKraft(s, len, bl2, m, n - 1);
        CountKraftSet(bl, m, m, v, bl[v] - 1);
        CountTotalSet(bl, m, v, bl[v] - 1);
        ShlAdd(bl[v] - 1, 1, m - v);
        ShlOne(m - v);
        assert members == fewer + {n - 1};
      } else {
        assert CountsLevels(s, len, bl, m, n - 1);
        LevelsKraft(s, len, bl, m, n - 1);
        assert members == fewer;
      }
    }
  }

  lemma {:induction false} NoCounts(bl: seq<nat>, m: nat, b: nat)
    requires b <= m < |bl| && forall i :: 0 <= i <= m ==> bl[i] == 0
    ensures CountKraft(bl, m, b) == 0 && CountTotal(bl, b) == 0
  {
    if b > 0 {
      NoCounts(bl, m, b - 1);
      ShlZero(m - b);
    }
  }

  // ---- The repair of over-long codes ----

  // The counts give a Kraft sum that is too large by overflow / 2 units; there
  // are total symbols, few enough to fit, and enough of them are at the limit.
  ghost predicate Repairing(bl: seq<nat>, m: nat, overflow: int, total: nat) {
    && 1 <= m < |bl| && bl[0] == 0 && overflow >= 0
    && 2 * CountKraft(bl, m, m) == 2 * Pow2(m) + overflow
    && CountTotal(bl, m) == total <= Pow2(m)
    && 2 * bl[m] >= overflow
  }

  // Symbols stay at the limit.
  ghost predicate AtLimit(bl: seq<nat>, m: nat, overflow: int) {
    m < |bl| && 2 * bl[m] >= overflow + 2
  }

  // Then some symbol has a code shorter than the limit.
  lemma ShorterExists(bl: seq<nat>, m: nat, overflow: int, total: nat) returns (b: nat)
    requires Repairing(bl, m, overflow, total) && overflow > 0
    ensures 1 <= b < m && bl[b] > 0
  {
    b := FirstNonZero(bl, m, m - 1);
    assert Shl(bl[m], 0) == bl[m];
  }

  lemma {:induction false} FirstNonZero(bl: seq<nat>, m: nat, b: nat) returns (i: nat)
    requires b < m < |bl|
    ensures (CountKraft(bl, m, b) == 0 && CountTotal(bl, b) == 0) || (1 <= i <= b && bl[i] > 0)
  {
    if b == 0 || bl[b] > 0 {
      i := b;
    } else {
      i := FirstNonZero(bl, m, b - 1);
      ShlZero(m - b);
    }
  }

  // A level is repaired only when those between it and the limit are empty, and
  // then it takes more symbols than fit below it to fill the code.
  lemma TouchedLevel(bl: seq<nat>, m: nat, overflow: int, total: nat, b: nat)
    requires Repairing(bl, m, overflow, total) && AtLimit(bl, m, overflow) && overflow > 0
    requires 1 <= b < m && forall i :: b < i < m ==> bl[i] == 0
    ensures Pow2(m - b) < total
  {
    hide Pow2, Shl;
    var x := CountKraft(bl, b, b);
    EmptyLevels(bl, m, b, m - 1);
    KraftScales(bl, b, m, b);
    ShlPow2(b, m - b);
    ShlMono(Pow2(b), x, m - b);
    ShlMono(x, Pow2(b), m - b);
    assert Shl(bl[m], 0) == bl[m] by { ShlNone(bl[m]); }
    TotalAtLeast(bl, m);
  }

  lemma ShlNone(x: nat)
    ensures Shl(x, 0) == x
  {
  }

  lemma TotalAtLeast(bl: seq<nat>, m: nat)
    requires 1 <= m < |bl|
    ensures CountTotal(bl, m) >= bl[m]
  {
  }

  lemma {:induction false} EmptyLevels(bl: seq<nat>, m: nat, b: nat, c: nat)
    requires b <= c <= m < |bl| && forall i :: b < i <= c ==> bl[i] == 0
    ensures CountKraft(bl, m, c) == CountKraft(bl, m, b)
    decreases c
  {
    if c > b {
      EmptyLevels(bl, m, b, c - 1);
      ShlZero(m - c);
    }
  }

  lemma {:induction false} KraftScales(bl: seq<nat>, m: nat, n: nat, b: nat)
    requires b <= m <= n < |bl|
    ensures CountKraft(bl, n, b) == Shl(CountKraft(bl, m, b), n - m)
  {
    if b == 0 {
      ShlZero(n - m);
    } else {
      KraftScales(bl, m, n, b - 1);
      ShlShl(bl[b], m - b, n - m);
      ShlAdd(CountKraft(bl, m, b - 1), Shl(bl[b], m - b), n - m);
    }
  }

  // Levels so far up that all symbols fit between them and the limit.
  ghost predicate Upper(m: nat, b: nat, total: nat) {
    b < m && Pow2(m - b) >= total
  }

  lemma UpperMono(m: nat, a: nat, b: nat, total: nat)
    requires Upper(m, b, total) && a <= b
    ensures Upper(m, a, total)
  {
    Pow2Mono(m - b, m - a);
  }

  // The level counts after one repair: a leaf of level b becomes two of b + 1.
  ghost function Repaired(bl: seq<nat>, m: nat, b: nat): seq<nat>
    requires 1 <= b < m < |bl| && bl[b] > 0 && bl[m] > 0
  {
    var x := bl[b := bl[b] - 1];
    var y := x[b + 1 := x[b + 1] + 2];
    y[m := y[m] - 1]
  }

  lemma RepairStep(bl: seq<nat>, m: nat, overflow: int, total: nat, b: nat)
    requires Repairing(bl, m, overflow, total) && overflow > 0 && 1 <= b < m && bl[b] > 0
    ensures bl[m] > 0 && overflow >= 2 && Repairing(Repaired(bl, m, b), m, overflow - 2, total)
    ensures AtLimit(bl, m, overflow) ==> AtLimit(Repaired(bl, m, b), m, overflow - 2)
  {
    hide CountKraft, CountTotal, Pow2;
    var x := bl[b := bl[b] - 1];
    var y := x[b + 1 := x[b + 1] + 2];
    var z := y[m := y[m] - 1];
    CountKraftSet(bl, m, m, b, bl[b] - 1);
    CountKraftSet(x, m, m, b + 1, x[b + 1] + 2);
    CountKraftSet(y, m, m, m, y[m] - 1);
    CountTotalSet(bl, m, b, bl[b] - 1);
    CountTotalSet(x, m, b + 1, x[b + 1] + 2);
    CountTotalSet(y, m, m, y[m] - 1);
    ShlAdd(bl[b] - 1, 1, m - b);
    ShlAdd(x[b + 1], 2, m - (b + 1));
    ShlShl(1, 1, m - (b + 1));
    assert Shl(1, 1) == 2;
    assert Shl(y[m], 0) == y[m] && Shl(y[m] - 1, 0) == y[m] - 1;
  }

  lemma NotUpper(m: nat, b: nat, total: nat)
    requires b < m && Pow2(m - b) < total
    ensures !Upper(m, b, total) && !Upper(m, b + 1, total)
  {
    if b + 1 < m { Pow2Mono(m - (b + 1), m - b); }
  }

  lemma RepairBounds(bl: seq<nat>, m: nat, overflow: int, total: nat)
    requires Repairing(bl, m, overflow, total)
    ensures 1 <= m < |bl|
  {
  }

  // Lengths of the symbols s that the level counts describe while they are
  // repaired; d are the depths without a limit.
  ghost predicate Traced(s: set<nat>, d: seq<nat>, len: seq<nat>, bl: seq<nat>, m: nat, k: nat, n: nat) {
    && n <= |len| == |d| && Below(s, n) && m <= k && (forall x :: x in s ==> d[x] + m <= k)
    && Sum(s, Units(d, k), |d|) == Pow2(k)
    && Orderly(s, d, len, m, k) && CountsLevels(s, len, bl, m, n)
  }

  // They need as much code space as the counts say.
  lemma TracedKraft(s: set<nat>, d: seq<nat>, len: seq<nat>, bl: seq<nat>, m: nat, k: nat, n: nat, overflow: int, total: nat)
    requires Traced(s, d, len, bl, m, k, n) && Repairing(bl, m, overflow, total)
    ensures Codes(s, d, len, m, k)
    ensures overflow > 0 ==> Sum(s, Units(len, k), |len|) > Pow2(k)
    ensures overflow == 0 ==> Sum(s, Units(len, k), |len|) == Pow2(k)
  {
    hide Sum, Pow2, Shl, CountKraft, Orderly;
    assert forall x :: x in s ==> 1 <= len[x] <= m by { OrderlyRange(s, d, len, m, k); }
    LevelsKraft(s, len, bl, m, n);
    SumExtend(s, Units(len, m), n, |len|);
    UnitsScale(s, len, m, k, |len|);
    ShlPow2(m, k - m);
    ShlMono(Pow2(m), Sum(s, Units(len, m), |len|), k - m);
    assert Pow2(k - m) >= 1;
  }

  lemma {:induction false} UnitsScale(s: set<nat>, l: seq<nat>, a: nat, b: nat, n: nat)
    requires a <= b && n <= |l| && forall x :: x in s && x < n ==> l[x] <= a
    ensures Sum(s, Units(l, b), n) == Shl(Sum(s, Units(l, a), n), b - a)
  {
    if n == 0 {
      ShlZero(b - a);
    } else {
      UnitsScale(s, l, a, b, n - 1);
      if n - 1 in s {
        ShlAdd(Sum(s, Units(l, a), n - 1), Pow2(a - l[n - 1]), b - a);
        ShlPow2(a - l[n - 1], b - a);
      }
    }
  }

  lemma OrderlyRange(s: set<nat>, d: seq<nat>, len: seq<nat>, m: nat, k: nat)
    requires Orderly(s, d, len, m, k)
    ensures |d| == |len| && forall x :: x in s ==> x < |len| && 1 <= len[x] <= m
  {
  }

  lemma LevelCounted(s: set<nat>, len: seq<nat>, bl: seq<nat>, m: nat, n: nat, x: nat)
    requires CountsLevels(s, len, bl, m, n) && x in s && x < n <= |len| && len[x] <= m
    ensures bl[len[x]] > 0
  {
    hide Sum;
    SumMember(s, x, Level(len, len[x]), n);
  }

  // A symbol moved down with another one beside it is what the counts record.
  lemma MovedCounts(s: set<nat>, len: seq<nat>, bl: seq<nat>, m: nat, n: nat, b: nat, z: nat, y: nat)
    requires CountsLevels(s, len, bl, m, n) && Below(s, n) && n <= |len| && 1 <= b < m && bl[b] > 0 && bl[m] > 0
    requires z in s && y in s && z != y && len[z] == b && len[y] == m
    ensures CountsLevels(s, MoveDown(len, z, y, b), Repaired(bl, m, b), m, n)
  {
    hide Sum;
    var r := MoveDown(len, z, y, b);
    forall i | 0 <= i <= m ensures Repaired(bl, m, b)[i] == Sum(s, Level(r, i), n) {
      SumSwapped(s, z, y, Level(len, i), Level(r, i), n);
    }
  }

  lemma TracedStep(s: set<nat>, d: seq<nat>, len: seq<nat>, bl: seq<nat>, m: nat, k: nat, n: nat, overflow: int, total: nat,
                   b: nat) returns (r: seq<nat>)
    requires Traced(s, d, len, bl, m, k, n) && Repairing(bl, m, overflow, total) && overflow > 0
    requires 1 <= b < m && bl[b] > 0 && bl[m] > 0 && forall i :: b < i < m ==> bl[i] == 0
    ensures Traced(s, d, r, Repaired(bl, m, b), m, k, n)
  {
    TracedKraft(s, d, len, bl, m, k, n, overflow, total);
    OrderlyRange(s, d, len, m, k);
    hide Sum, Pow2, Orderly, Codes, Repairing, Repaired;
    var x0 := SumLevel(s, len, b, n);
    forall i | i in s ensures len[i] <= b || len[i] == m {
      LevelCounted(s, len, bl, m, n, i);
    }
    var z, y := RepairLens(s, d, len, m, k, b, x0);
    MovedCounts(s, len, bl, m, n, b, z, y);
    r := MoveDown(len, z, y, b);
  }

  // Repair the level counts step by step, always as far down as possible. len
  // are lengths that the repaired counts describe.
  method Repair(bl_count: array<nat>, max_length: nat, overflow0: nat, ghost total: nat,
                ghost s: set<nat>, ghost d: seq<nat>, ghost first: seq<nat>, ghost k: nat, ghost n: nat)
      returns (ghost len: seq<nat>)
    requires bl_count.Length == MAX_BITS + 1 && max_length <= MAX_BITS && overflow0 > 0
    requires Repairing(bl_count[..], max_length, overflow0, total) && AtLimit(bl_count[..], max_length, overflow0)
    requires Traced(s, d, first, bl_count[..], max_length, k, n)
    modifies bl_count
    ensures Repairing(bl_count[..], max_length, 0, total) && Traced(s, d, len, bl_count[..], max_length, k, n)
    ensures forall b :: max_length < b <= MAX_BITS ==> bl_count[b] == old(bl_count[b])
    ensures forall b :: 0 <= b < max_length && Upper(max_length, b, total) ==> bl_count[b] == old(bl_count[b])
  {
    hide Repairing, Upper, AtLimit, Pow2, Traced;
    RepairBounds(bl_count[..], max_length, overflow0, total);
    var overflow: int := overflow0;
    len := first;
    while overflow > 0
      invariant overflow >= 0 && Repairing(bl_count[..], max_length, overflow, total)
      invariant AtLimit(bl_count[..], max_length, overflow)
      invariant Traced(s, d, len, bl_count[..], max_length, k, n)
      invariant forall b :: max_length < b <= MAX_BITS ==> bl_count[b] == old(bl_count[b])
      invariant forall b :: 0 <= b < max_length && Upper(max_length, b, total) ==> bl_count[b] == old(bl_count[b])
      decreases overflow
    {
      ghost var bl := bl_count[..];
      ghost var shorter := ShorterExists(bl, max_length, overflow, total);
      var bits := max_length - 1;
      while bl_count[bits] == 0
        invariant shorter <= bits < max_length && forall i :: bits < i < max_length ==> bl_count[i] == 0
        decreases bits
      {
        bits := bits - 1;
      }
      TouchedLevel(bl, max_length, overflow, total, bits);
      NotUpper(max_length, bits, total);
      RepairStep(bl, max_length, overflow, total, bits);
      len := TracedStep(s, d, len, bl, max_length, k, n, overflow, total, bits);
      bl_count[bits] := bl_count[bits] - 1;
      bl_count[bits + 1] := bl_count[bits + 1] + 2;
      bl_count[max_length] := bl_count[max_length] - 1;
      assert bl_count[..] == Repaired(bl, max_length, bits);
      overflow := overflow - 2;
    }
  }

  // ---- Handing out the repaired lengths ----

  // The symbols from node q on, in the order of heap[].
  ghost function TailLeaves(g: Shape, q: nat): set<nat>
    requires q <= 2 * |g.pairs|
  {
    g.leaves - SeenLeaves(g, q)
  }

  // Symbols from node q on have lengths from bits to m that do not decrease.
  ghost predicate Rising(g: Shape, len: seq<nat>, bits: nat, m: nat, q: nat) {
    forall i, j :: q <= i <= j < 2 * |g.pairs| && NodeAt(g, i) < g.elems <= |len| && NodeAt(g, j) < g.elems
      ==> bits <= len[NodeAt(g, i)] <= len[NodeAt(g, j)] <= m
  }

  // Symbols from node q on have been given the longest lengths; n of length
  // bits are still to be given, then the shorter ones.
  ghost predicate Handing(g: Shape, len: seq<nat>, bl: seq<nat>, m: nat, bits: nat, n: nat, q: nat) {
    && Whole(g) && g.elems + |g.pairs| <= |len| && q <= 2 * |g.pairs|
    && 1 <= bits <= m < |bl| && n <= bl[bits]
    && |SeenLeaves(g, q)| == CountTotal(bl, bits - 1) + n
    && (forall b :: 1 <= b <= m ==>
         Sum(TailLeaves(g, q), Level(len, b), g.elems) == if b > bits then bl[b] else if b == bits then bl[b] - n else 0)
    && Rising(g, len, bits, m, q)
  }

  lemma HandingStart(g: Shape, len: seq<nat>, bl: seq<nat>, m: nat)
    requires Whole(g) && g.elems + |g.pairs| <= |len| && 1 <= m < |bl| && CountTotal(bl, m) == |g.leaves|
    ensures Handing(g, len, bl, m, m, bl[m], 2 * |g.pairs|)
  {
    SeenAll(g);
    assert TailLeaves(g, 2 * |g.pairs|) == {};
    forall b | 1 <= b <= m ensures Sum({}, Level(len, b), g.elems) == 0 {
      SumEmpty({}, Level(len, b), g.elems);
    }
  }

  lemma HandingNextLength(g: Shape, len: seq<nat>, bl: seq<nat>, m: nat, bits: nat, q: nat)
    requires Handing(g, len, bl, m, bits, 0, q) && bits >= 2
    ensures Handing(g, len, bl, m, bits - 1, bl[bits - 1], q)
  {
  }

  lemma HandingSkip(g: Shape, len: seq<nat>, bl: seq<nat>, m: nat, bits: nat, n: nat, q: nat)
    requires Handing(g, len, bl, m, bits, n, q) && q > 0 && NodeAt(g, q - 1) >= g.elems
    ensures Handing(g, len, bl, m, bits, n, q - 1)
  {
    assert SeenLeaves(g, q) == SeenLeaves(g, q - 1);
  }

  lemma SeenStep(g: Shape, q: nat)
    requires Whole(g) && 0 < q <= 2 * |g.pairs| && NodeAt(g, q - 1) < g.elems
    ensures var y := NodeAt(g, q - 1);
      && y !in TailLeaves(g, q) && TailLeaves(g, q - 1) == TailLeaves(g, q) + {y}
      && |SeenLeaves(g, q)| == |SeenLeaves(g, q - 1)| + 1
  {
    SeenOld(g, q - 1, q - 1);
    NodeIsLeaf(g, q - 1);
  }

  lemma HandingGive(g: Shape, len: seq<nat>, bl: seq<nat>, m: nat, bits: nat, n: nat, q: nat)
    requires Handing(g, len, bl, m, bits, n, q) && q > 0 && n > 0 && NodeAt(g, q - 1) < g.elems
    ensures Handing(g, len[NodeAt(g, q - 1) := bits], bl, m, bits, n - 1, q - 1)
  {
    hide Sum, CountTotal, SeenLeaves, TailLeaves, Whole, Rising, NodeAt;
    var y := NodeAt(g, q - 1);
    var len2 := len[y := bits];
    SeenStep(g, q);
    forall b | 1 <= b <= m
      ensures Sum(TailLeaves(g, q - 1), Level(len2, b), g.elems)
           == if b > bits then bl[b] else if b == bits then bl[b] - (n - 1) else 0
    {
      SumSame(TailLeaves(g, q), Level(len, b), Level(len2, b), g.elems);
      SumAdd(TailLeaves(g, q), y, Level(len2, b), g.elems);
    }
    RisingStep(g, len, bits, m, q);
  }

  lemma RisingStep(g: Shape, len: seq<nat>, bits: nat, m: nat, q: nat)
    requires bits <= m && Whole(g) && 0 < q <= 2 * |g.pairs| && Rising(g, len, bits, m, q) && NodeAt(g, q - 1) < |len|
    requires g.elems <= |len|
    ensures Rising(g, len[NodeAt(g, q - 1) := bits], bits, m, q - 1)
  {
    var len2 := len[NodeAt(g, q - 1) := bits];
    forall i | q <= i < 2 * |g.pairs| && NodeAt(g, i) < |len| ensures len2[NodeAt(g, i)] == len[NodeAt(g, i)] {
      NodeOrder(g, i, q - 1);
    }
  }

  lemma HandingEnd(g: Shape, len: seq<nat>, bl: seq<nat>, m: nat, q: nat)
    requires Handing(g, len, bl, m, 1, 0, q)
    ensures forall b :: 1 <= b <= m ==> Sum(g.leaves, Level(len, b), g.elems) == bl[b]
    ensures Rising(g, len, 1, m, 0)
  {
    assert SeenLeaves(g, q) == {};
    assert TailLeaves(g, q) == g.leaves;
    SeenAreLeaves(g, q);
  }

  lemma CostChange(s: set<nat>, w: seq<nat>, len: seq<nat>, y: nat, v: nat, n: nat)
    requires y in s && y < n <= |len| && n <= |w|
    ensures Sum(s, Weighted(w, len[y := v]), n) + Mul(w[y], len[y]) == Sum(s, Weighted(w, len), n) + Mul(w[y], v)
  {
    hide Sum, Mul;
    SumChange(s, y, Weighted(w, len), Weighted(w, len[y := v]), n);
  }

  lemma MulDiff(a: nat, b: int, c: int)
    requires b >= 0 && c >= 0
    ensures (b - c) * a == Mul(a, b) - Mul(a, c)
  {
  }

  // Give out the repaired lengths, the longest ones to the rarest symbols.
  method Reassign(tree: array<CtData>, heap: array<nat>, bl_count: array<nat>, max_code: nat, max_length: nat,
                  ghost g: Shape, ghost w: seq<nat>)
      returns (opt: int)
    requires heap != bl_count && bl_count.Length == MAX_BITS + 1 && 1 <= max_length <= MAX_BITS
    requires Whole(g) && g.elems + |g.pairs| <= tree.Length == |w| && Listed(g, heap[..])
    requires max_code < g.elems && forall s :: s in g.leaves ==> s <= max_code
    requires forall i :: 0 <= i < tree.Length ==> tree[i].fc == w[i]
    requires CountTotal(bl_count[..], max_length) == |g.leaves|
    modifies tree
    ensures Sum(g.leaves, Weighted(w, Lens(tree[..])), g.elems)
         == Sum(g.leaves, Weighted(w, Lens(old(tree[..]))), g.elems) + opt
    ensures forall b :: 1 <= b <= max_length ==> Sum(g.leaves, Level(Lens(tree[..]), b), g.elems) == bl_count[b]
    ensures Rising(g, Lens(tree[..]), 1, max_length, 0)
    ensures forall i :: 0 <= i < tree.Length ==> tree[i].fc == w[i]
    ensures forall i :: 0 <= i < g.elems && i !in g.leaves ==> tree[i] == old(tree[i])
  {
    hide Sum, Handing, Rising, Whole, CountTotal;
    opt := 0;
    var h := heap.Length;
    var bits := max_length;
    ghost var bl := bl_count[..];
    ghost var first := heap.Length - 2 * |g.pairs|;
    ghost var cost := Sum(g.leaves, Weighted(w, Lens(tree[..])), g.elems);
    HandingStart(g, Lens(tree[..]), bl, max_length);
    var n := bl_count[bits];
    while bits != 0
      invariant 0 <= bits <= max_length && first <= h <= heap.Length
      invariant bits > 0 ==> n == bl[bits] && Handing(g, Lens(tree[..]), bl, max_length, bits, n, h - first)
      invariant bits == 0 ==> Handing(g, Lens(tree[..]), bl, max_length, 1, 0, h - first)
      invariant Sum(g.leaves, Weighted(w, Lens(tree[..])), g.elems) == cost + opt
      invariant bl_count[..] == bl
      invariant forall i :: 0 <= i < tree.Length ==> tree[i].fc == w[i]
      invariant forall i :: 0 <= i < g.elems && i !in g.leaves ==> tree[i] == old(tree[i])
      decreases bits
    {
      while n != 0
        invariant first <= h <= heap.Length
        invariant Handing(g, Lens(tree[..]), bl, max_length, bits, n, h - first)
        invariant Sum(g.leaves, Weighted(w, Lens(tree[..])), g.elems) == cost + opt
        invariant bl_count[..] == bl
        invariant forall i :: 0 <= i < tree.Length ==> tree[i].fc == w[i]
        invariant forall i :: 0 <= i < g.elems && i !in g.leaves ==> tree[i] == old(tree[i])
        decreases h
      {
        ghost var before := tree[..];
        HandingMore(g, Lens(before), bl, max_length, bits, n, h - first);
        h := h - 1;
        ghost var q := h - first;
        assert heap[h] == NodeAt(g, q);
        NodeIsLeaf(g, q);
        var m := heap[h];
        if m > max_code {
          HandingSkip(g, Lens(before), bl, max_length, bits, n, q + 1);
          continue;
        }
        HandingGive(g, Lens(before), bl, max_length, bits, n, q + 1);
        CostChange(g.leaves, w, Lens(before), m, bits, g.elems);
        MulDiff(w[m], bits, before[m].dl);
        if tree[m].dl != bits {
          opt := opt + (bits - tree[m].dl) * tree[m].fc;
          tree[m] := tree[m].(dl := bits);
        }
        assert Lens(tree[..]) == Lens(before)[m := bits];
        n := n - 1;
      }
      if bits > 1 {
        HandingNextLength(g, Lens(tree[..]), bl, max_length, bits, h - first);
        n := bl_count[bits - 1];
      }
      bits := bits - 1;
    }
    HandingEnd(g, Lens(tree[..]), bl, max_length, h - first);
  }

  // While a length is still to be given there is a symbol left to take it.
  lemma HandingMore(g: Shape, len: seq<nat>, bl: seq<nat>, m: nat, bits: nat, n: nat, q: nat)
    requires Handing(g, len, bl, m, bits, n, q) && n > 0
    ensures q > 0 && Whole(g) && g.elems <= |len|
  {
  }

  // ---- gen_bitlen() as a whole ----

  // Lengths of a complete prefix code for the symbols s, none over max_length.
  ghost predicate CompleteLengths(s: set<nat>, len: seq<nat>, max_length: nat, n: nat) {
    && n <= |len| && Below(s, n)
    && (forall x :: x in s ==> 1 <= len[x] <= max_length)
    && Sum(s, Units(len, max_length), n) == Pow2(max_length)
  }

  // No code lengths for s cost less.
  ghost predicate Cheapest(s: set<nat>, w: seq<nat>, len: seq<nat>) {
    forall l: seq<nat>, m: nat :: |l| == |len| && PrefixLengths(s, l, m) ==> Cost(s, w, len) <= Cost(s, w, l)
  }

  lemma LeafPosition(g: Shape, x: nat) returns (q: nat, t: nat)
    requires Whole(g) && x in g.leaves
    ensures t < |g.pairs| && q < 2 * |g.pairs| && q / 2 == |g.pairs| - 1 - t && NodeAt(g, q) == x < g.elems
    ensures x == g.pairs[t].0 || x == g.pairs[t].1
  {
    OneRoot(g);
    t := MergedWhen(g, x, 0, |g.pairs|);
    q := if x == g.pairs[t].1 then 2 * (|g.pairs| - 1 - t) else 2 * (|g.pairs| - 1 - t) + 1;
  }

  lemma RisingIsRarer(g: Shape, w: seq<nat>, len: seq<nat>, m: nat)
    requires Whole(g) && Weighs(g, w) && Greedy(g, w) && g.elems <= |len| && Rising(g, len, 1, m, 0)
    ensures RarerNoShorter(g.leaves, w, len)
  {
    forall x, y | x in g.leaves && y in g.leaves && x < |w| && y < |w| && w[x] < w[y] ensures len[x] >= len[y] {
      var p, t := LeafPosition(g, x);
      var q, u := LeafPosition(g, y);
      assert LightestAt(g, w, t);
      if u < t {
        assert MergedAt(g, t) && LightestAt(g, w, u);
        WeightOrder(g, w, u, t);
      }
      assert q <= p;
    }
  }

  lemma MulSwapStrict(wa: nat, wx: nat, la: nat, lx: nat)
    requires wa < wx && la < lx
    ensures Mul(wa, lx) + Mul(wx, la) < Mul(wa, la) + Mul(wx, lx)
  {
    MulSwap(wa, wx - 1, la, lx);
    MulSplitAdd(wx - 1, la);
    MulSplitAdd(wx - 1, lx);
  }

  lemma MulSplitAdd(a: nat, l: nat)
    ensures Mul(a + 1, l) == Mul(a, l) + l
  {
  }

  lemma CheapestIsRarer(s: set<nat>, w: seq<nat>, len: seq<nat>, m: nat)
    requires PrefixLengths(s, len, m) && Cheapest(s, w, len) && |w| == |len|
    ensures RarerNoShorter(s, w, len)
  {
    forall x, y | x in s && y in s && w[x] < w[y] ensures len[x] >= len[y] {
      if len[x] < len[y] {
        var l := len[x := len[y]][y := len[x]];
        SwapCheaper(s, w, len, m, x, y);
        SwapCheaperStrict(s, w, len, x, y);
      }
    }
  }

  lemma SwapCheaperStrict(s: set<nat>, w: seq<nat>, len: seq<nat>, x: nat, y: nat)
    requires Below(s, |len|) && |w| == |len| && x in s && y in s && w[x] < w[y] && len[x] < len[y]
    ensures Cost(s, w, len[x := len[y]][y := len[x]]) < Cost(s, w, len)
  {
    hide Mul, Sum;
    var l := len[x := len[y]][y := len[x]];
    SumSwapped(s, x, y, Weighted(w, len), Weighted(w, l), |len|);
    MulSwapStrict(w[x], w[y], len[x], len[y]);
  }

  // The counts of the first pass, ready for the repair.
  lemma PassDone(g: Shape, tree: seq<CtData>, w: seq<nat>, x: seq<nat>, st: seq<nat>, bl_count: seq<nat>,
                 max_length: nat, overflow: nat, opt: int, static_bits: int)
    requires Pass(g, tree, w, x, st, bl_count, max_length, 2 * |g.pairs|, overflow, opt, static_bits)
    requires 1 <= max_length <= MAX_BITS && g.elems <= Pow2(max_length)
    ensures Whole(g) && g.elems + |g.pairs| <= |tree| && Depths(g, Lens(tree), max_length)
    ensures overflow == Over(g, Lens(tree), max_length, 0)
    ensures forall y :: y in g.leaves ==> y < g.elems && 1 <= Lens(tree)[y] <= max_length
    ensures CountsLevels(g.leaves, Lens(tree), bl_count, max_length, g.elems)
    ensures Repairing(bl_count, max_length, overflow, |g.leaves|)
    ensures overflow > 0 ==> AtLimit(bl_count, max_length, overflow)
    ensures forall b :: 0 <= b <= MAX_BITS && (b == 0 || b > max_length) ==> bl_count[b] == 0
  {
    var len := Lens(tree);
    AssignedDepths(g, tree, max_length);
    CutOffIsOver(g, len, max_length, 0);
    SeenAll(g);
    DepthsBounded(g, len, max_length, 0);
    LeavesDeep(g, len, max_length);
    forall b | 0 <= b <= MAX_BITS && (b == 0 || b > max_length) ensures bl_count[b] == 0 {
      NoneAtLevel(g.leaves, len, b, g.elems);
    }
    assert (set y | y in g.leaves && y < g.elems) == g.leaves;
    LevelsKraft(g.leaves, len, bl_count, max_length, g.elems);
    DepthsKraft(g, len, max_length, 0);
    DepthsAtLimit(g, len, max_length, 0);
    SumExtend(g.leaves, Units(len, max_length), g.elems, |len|);
    SumExtend(g.leaves, Level(len, max_length), g.elems, |len|);
    BelowSize(g.leaves, g.elems);
  }

  lemma {:induction false} BelowSize(s: set<nat>, n: nat)
    requires Below(s, n)
    ensures |s| <= n
  {
    if n == 0 {
      assert s == {};
    } else {
      BelowSize(s - {n - 1}, n - 1);
      assert |s| <= |s - {n - 1}| + 1;
    }
  }

  lemma LeavesDeep(g: Shape, len: seq<nat>, max_length: nat)
    requires Whole(g) && Depths(g, len, max_length) && max_length >= 1
    ensures forall y :: y in g.leaves ==> y < |len| && len[y] >= 1
  {
    forall y | y in g.leaves ensures y < |len| && len[y] >= 1 {
      var q, t := LeafPosition(g, y);
      assert DepthAt(g, len, max_length, t);
    }
  }

  lemma {:induction false} NoneAtLevel(s: set<nat>, len: seq<nat>, b: nat, n: nat)
    requires forall y :: y in s && y < n && y < |len| ==> len[y] != b
    ensures Sum(s, Level(len, b), n) == 0
  {
    if n > 0 { NoneAtLevel(s, len, b, n - 1); }
  }

  // What gen_bitlen() leaves: lengths of a complete code, the symbols counted
  // by length, and the numbers of bits that all symbols take.
  ghost predicate Result(g: Shape, tree: seq<CtData>, w: seq<nat>, x: seq<nat>, st: seq<nat>, bl_count: seq<nat>,
                         max_length: nat, opt: int, static_bits: int)
  {
    && CompleteLengths(g.leaves, Lens(tree), max_length, g.elems)
    && |bl_count| == MAX_BITS + 1
    && (forall b :: 1 <= b <= max_length && b <= MAX_BITS ==> bl_count[b] == Sum(g.leaves, Level(Lens(tree), b), g.elems))
    && (forall b :: 0 <= b <= MAX_BITS && (b == 0 || b > max_length) ==> bl_count[b] == 0)
    && opt == Sum(g.leaves, Weighted(w, Lens(tree)), g.elems) + Sum(g.leaves, Weighted(w, x), g.elems)
    && static_bits == Sum(g.leaves, Weighted(w, st), g.elems)
    && RarerNoShorter(g.leaves, w, Lens(tree))
  }

  lemma NoOverflow(g: Shape, tree: seq<CtData>, w: seq<nat>, x: seq<nat>, st: seq<nat>, bl_count: seq<nat>,
                   max_length: nat, opt: int, static_bits: int)
    requires Pass(g, tree, w, x, st, bl_count, max_length, 2 * |g.pairs|, 0, opt, static_bits)
    requires Weighs(g, w) && Greedy(g, w) && |w| == |tree|
    requires 1 <= max_length <= MAX_BITS && g.elems <= Pow2(max_length)
    ensures Result(g, tree, w, x, st, bl_count, max_length, opt, static_bits)
    ensures Cheapest(g.leaves, w, Lens(tree)) && Depths(g, Lens(tree), max_length) && Over(g, Lens(tree), max_length, 0) == 0
  {
    var len := Lens(tree);
    PassDone(g, tree, w, x, st, bl_count, max_length, 0, opt, static_bits);
    SeenAll(g);
    DepthsCost(g, w, len, max_length, 0);
    DepthsKraft(g, len, max_length, 0);
    SumExtend(g.leaves, Units(len, max_length), g.elems, |len|);
    hide Sum, Merged, Depths, Assigned, Pass;
    forall l: seq<nat>, m: nat | |l| == |len| && PrefixLengths(g.leaves, l, m)
      ensures Cost(g.leaves, w, len) <= Cost(g.leaves, w, l)
    {
      HuffmanOptimal(g, w, l, m);
    }
    CheapestIsRarer(g.leaves, w, len, max_length);
  }

  lemma AfterRepair(g: Shape, w: seq<nat>, len: seq<nat>, bl_count: seq<nat>, max_length: nat)
    requires Whole(g) && Weighs(g, w) && Greedy(g, w) && g.elems <= |len|
    requires Repairing(bl_count, max_length, 0, |g.leaves|) && max_length <= MAX_BITS
    requires forall b :: 1 <= b <= max_length ==> Sum(g.leaves, Level(len, b), g.elems) == bl_count[b]
    requires Rising(g, len, 1, max_length, 0)
    ensures CompleteLengths(g.leaves, len, max_length, g.elems)
    ensures RarerNoShorter(g.leaves, w, len)
  {
    forall y | y in g.leaves ensures y < g.elems && 1 <= len[y] <= max_length {
      var q, t := LeafPosition(g, y);
    }
    assert (set y | y in g.leaves && y < g.elems) == g.leaves;
    NoneAtLevel(g.leaves, len, 0, g.elems);
    LevelsKraft(g.leaves, len, bl_count, max_length, g.elems);
    RisingIsRarer(g, w, len, max_length);
  }

  // ---- Long codes are for rare symbols ----

  // A symbol with a code of j bits or more is so rare that the Fibonacci number
  // of j + 1 such symbols weigh no more than all symbols do.
  ghost predicate Steep(s: set<nat>, w: seq<nat>, len: seq<nat>, total: nat, j: nat) {
    forall x :: x in s && x < |w| && x < |len| && len[x] >= j ==> Mul(w[x], Fib(j + 1)) <= total
  }

  lemma DepthsAreSteep(g: Shape, w: seq<nat>, len: seq<nat>, limit: nat, j: nat)
    requires Whole(g) && Weighs(g, w) && Greedy(g, w) && Depths(g, len, limit)
    ensures Steep(g.leaves, w, len, w[Root(g)], j)
  {
    AllLight(g, w, len, limit, 0);
    hide Mul, Fib;
    forall x | x in g.leaves && x < |w| && x < |len| && len[x] >= j ensures Mul(w[x], Fib(j + 1)) <= w[Root(g)] {
      assert Light(g, w, w[Root(g)], x, len[x]);
      FibMono(j + 1, len[x] + 1);
      MulMono(w[x], Fib(j + 1), Fib(len[x] + 1));
    }
  }

  lemma FirstIsSteep(g: Shape, tree: seq<CtData>, w: seq<nat>, x: seq<nat>, st: seq<nat>, bl_count: seq<nat>,
                     max_length: nat, overflow: nat, opt: int, static_bits: int)
    requires Pass(g, tree, w, x, st, bl_count, max_length, 2 * |g.pairs|, overflow, opt, static_bits)
    requires 1 <= max_length <= MAX_BITS && g.elems <= Pow2(max_length) && Weighs(g, w) && Greedy(g, w) && Whole(g)
    requires forall y :: y in g.leaves ==> y < |w| && w[y] >= 1
    ensures overflow == 0 <==> Shallow(g, max_length)
    ensures overflow > 0 ==> Fib(max_length + 3) <= w[Root(g)]
    ensures forall j: nat :: Steep(g.leaves, w, Lens(tree), w[Root(g)], j)
  {
    RootWeighs(g, w);
    hide Pass, Steep, Shallow, Weighs, Greedy, Repairing, CountsLevels, AtLimit, Pow2, Fib;
    PassDone(g, tree, w, x, st, bl_count, max_length, overflow, opt, static_bits);
    var len := Lens(tree);
    WholeIs(g);
    ShallowIff(g, len, max_length);
    if overflow > 0 { DeepIsHeavy(g, w, len, max_length, 0); }
    forall j: nat ensures Steep(g.leaves, w, len, w[Root(g)], j) {
      DepthsAreSteep(g, w, len, max_length, j);
    }
  }

  lemma RootWeighs(g: Shape, w: seq<nat>)
    requires Whole(g) && Weighs(g, w)
    ensures Root(g) < |w|
  {
  }

  lemma WholeIs(g: Shape)
    requires Whole(g)
    ensures Merged(g) && |g.pairs| == |g.leaves| - 1 && |g.pairs| >= 1
  {
  }

  // Which nodes have lengths from 1 to i.
  function Marks(len: seq<nat>, i: nat): (s: seq<nat>)
    ensures |s| == |len| && forall x :: 0 <= x < |s| ==> s[x] == if 1 <= len[x] <= i then 1 else 0
  {
    seq(|len|, x requires 0 <= x < |len| => if 1 <= len[x] <= i then 1 else 0)
  }

  lemma {:induction false} MarksStep(s: set<nat>, len: seq<nat>, i: nat, n: nat)
    requires n <= |len| && i >= 1
    ensures Sum(s, Plain(Marks(len, i)), n) == Sum(s, Plain(Marks(len, i - 1)), n) + Sum(s, Level(len, i), n)
  {
    if n > 0 { MarksStep(s, len, i, n - 1); }
  }

  lemma {:induction false} NoMarks(s: set<nat>, len: seq<nat>, n: nat)
    requires n <= |len|
    ensures Sum(s, Plain(Marks(len, 0)), n) == 0
  {
    if n > 0 { NoMarks(s, len, n - 1); }
  }

  lemma {:induction false} MarksSame(s: set<nat>, a: seq<nat>, b: seq<nat>, i: nat, n: nat)
    requires n <= |a| && n <= |b| && forall j :: 1 <= j <= i ==> Sum(s, Level(a, j), n) == Sum(s, Level(b, j), n)
    ensures Sum(s, Plain(Marks(a, i)), n) == Sum(s, Plain(Marks(b, i)), n)
  {
    hide Sum;
    if i == 0 {
      NoMarks(s, a, n);
      NoMarks(s, b, n);
    } else {
      MarksSame(s, a, b, i - 1, n);
      MarksStep(s, a, i, n);
      MarksStep(s, b, i, n);
    }
  }

  // Where as many are marked in b as in a, and x only in a, some y is marked
  // only in b.
  lemma {:induction false} MarksLess(s: set<nat>, a: seq<nat>, b: seq<nat>, i: nat, n: nat)
    requires n <= |a| && n <= |b|
    requires forall y :: y in s && y < n && Marks(b, i)[y] == 1 ==> Marks(a, i)[y] == 1
    ensures Sum(s, Plain(Marks(b, i)), n) <= Sum(s, Plain(Marks(a, i)), n)
    ensures forall x :: x in s && x < n && Marks(a, i)[x] == 1 && Marks(b, i)[x] == 0 ==>
      Sum(s, Plain(Marks(b, i)), n) < Sum(s, Plain(Marks(a, i)), n)
  {
    if n > 0 { MarksLess(s, a, b, i, n - 1); }
  }

  lemma Exchanged(s: set<nat>, a: seq<nat>, b: seq<nat>, i: nat, n: nat, x: nat) returns (y: nat)
    requires n <= |a| && n <= |b| && forall j :: 1 <= j <= i ==> Sum(s, Level(a, j), n) == Sum(s, Level(b, j), n)
    requires x in s && x < n && 1 <= a[x] <= i && b[x] > i && forall z :: z in s && z < n ==> a[z] >= 1
    ensures y in s && y < n && a[y] > i && b[y] <= i
  {
    hide Sum;
    MarksSame(s, a, b, i, n);
    assert Marks(a, i)[x] == 1 && Marks(b, i)[x] == 0;
    if z :| z in s && z < n && Marks(b, i)[z] == 1 && Marks(a, i)[z] == 0 {
      y := z;
    } else {
      MarksLess(s, a, b, i, n);
      assert false;
      y := x;
    }
  }

  // The repair leaves the lengths steep in the levels that it does not reach.
  lemma SteepAfterRepair(g: Shape, w: seq<nat>, first: seq<nat>, len: seq<nat>, before: seq<nat>, after: seq<nat>, m: nat)
    requires Whole(g) && g.elems <= |first| && g.elems <= |len| && g.elems <= |w| && Root(g) < |w| && m < |after|
    requires forall j: nat :: Steep(g.leaves, w, first, w[Root(g)], j)
    requires CountsLevels(g.leaves, first, before, m, g.elems) && RarerNoShorter(g.leaves, w, len)
    requires forall b :: 1 <= b <= m ==> Sum(g.leaves, Level(len, b), g.elems) == after[b]
    requires forall b :: 0 <= b < m && Upper(m, b, |g.leaves|) ==> after[b] == before[b]
    requires forall z :: z in g.leaves ==> first[z] >= 1
    ensures forall j :: 1 <= j <= m && Upper(m, j - 1, |g.leaves|) ==> Steep(g.leaves, w, len, w[Root(g)], j)
  {
    hide Sum, Upper, Fib, Mul, Merged;
    forall j | 1 <= j <= m && Upper(m, j - 1, |g.leaves|) ensures Steep(g.leaves, w, len, w[Root(g)], j) {
      assert Steep(g.leaves, w, first, w[Root(g)], j);
      assert Below(g.leaves, g.elems) by { WholeIs(g); LeavesBelow(g); }
      forall b | 1 <= b <= j - 1 ensures Sum(g.leaves, Level(first, b), g.elems) == Sum(g.leaves, Level(len, b), g.elems) {
        UpperMono(m, b, j - 1, |g.leaves|);
      }
      forall x | x in g.leaves && len[x] >= j ensures Mul(w[x], Fib(j + 1)) <= w[Root(g)] {
        if first[x] < j {
          var y := Exchanged(g.leaves, first, len, j - 1, g.elems, x);
          MulLess(w[x], w[y], Fib(j + 1));
        }
      }
    }
  }

  // ---- What the lengths cost, and how long they are ----

  // With t bits for every symbol the total would be no less, if there are that
  // many codes of t bits.
  ghost predicate FlatNoCheaper(s: set<nat>, cost: nat, total: nat) {
    forall t: nat :: |s| <= Pow2(t) ==> cost <= Mul(t, total)
  }

  lemma CheapestFlat(s: set<nat>, w: seq<nat>, len: seq<nat>, total: nat)
    requires Cheapest(s, w, len) && |len| == |w| && Below(s, |w|) && total == Sum(s, Plain(w), |w|)
    ensures FlatNoCheaper(s, Cost(s, w, len), total)
  {
    hide Sum, Pow2, Mul;
    forall t: nat | |s| <= Pow2(t) ensures Cost(s, w, len) <= Mul(t, total) {
      var l := Flat(t, |w|);
      FlatUnits(s, t, |w|);
      assert PrefixLengths(s, l, t);
      PlainIsFlat(s, w, t, |w|);
    }
  }

  lemma FlatUnits(s: set<nat>, t: nat, n: nat)
    requires Below(s, n)
    ensures Sum(s, Units(Flat(t, n), t), n) == |s|
  {
    hide Sum;
    forall x | x in s && x < n ensures Of(Units(Flat(t, n), t), x) == Of(Plain(Flat(1, n)), x) {
      assert Pow2(0) == 1;
    }
    SumSame(s, Units(Flat(t, n), t), Plain(Flat(1, n)), n);
    SumFlat(s, 1, n);
    assert Mul(|s|, 1) == |s|;
  }

  // The lengths of the first pass, as those to be repaired.
  lemma FirstTraced(g: Shape, len: seq<nat>, bl: seq<nat>, m: nat, k: nat) returns (d: seq<nat>)
    requires Whole(g) && Depths(g, len, m) && k == |g.pairs| + m && m >= 1
    requires CountsLevels(g.leaves, len, bl, m, g.elems) && forall y :: y in g.leaves ==> y < |len| && 1 <= len[y] <= m
    ensures FullDepths(g, d, k) && |d| == |len| && Traced(g.leaves, d, len, bl, m, k, g.elems)
  {
    WholeIs(g);
    LeavesBelow(g);
    d := FullDepthsExist(g, k, |len|);
    ClampedDepths(g, d, k, len, m, 0);
    DepthsKraft(g, d, k, 0);
    LeavesDeep(g, d, k);
    hide Sum, Over, Merged, Pow2, Depths;
    assert Hung(g.leaves, d, len, m) == {};
  }

  // The repaired lengths, and those handed out for the same counts.
  lemma RepairedFlat(g: Shape, w: seq<nat>, d: seq<nat>, len: seq<nat>, given: seq<nat>, bl: seq<nat>, m: nat, k: nat)
    requires Whole(g) && Weighs(g, w) && Greedy(g, w) && FullDepths(g, d, k) && |d| == |len| == |given| == |w|
    requires Traced(g.leaves, d, len, bl, m, k, g.elems) && Repairing(bl, m, 0, |g.leaves|)
    requires CompleteLengths(g.leaves, given, m, g.elems) && RarerNoShorter(g.leaves, w, given)
    requires forall b :: 1 <= b <= m ==> Sum(g.leaves, Level(given, b), g.elems) == bl[b]
    ensures FlatNoCheaper(g.leaves, Sum(g.leaves, Weighted(w, given), g.elems), Sum(g.leaves, Plain(w), |w|))
  {
    WholeIs(g);
    TracedKraft(g.leaves, d, len, bl, m, k, g.elems, 0, |g.leaves|);
    OrderlyRange(g.leaves, d, len, m, k);
    LevelsAgree(g.leaves, given, len, bl, m, g.elems);
    RarerCheapest(g.leaves, w, given, len, g.elems);
    hide Sum, Pow2, Mul, Merged, Weighs, Greedy, FullDepths, Orderly, Codes, RarerNoShorter, CountsLevels;
    SumExtend(g.leaves, Weighted(w, len), g.elems, |w|);
    forall t: nat | |g.leaves| <= Pow2(t)
      ensures Sum(g.leaves, Weighted(w, given), g.elems) <= Mul(t, Sum(g.leaves, Plain(w), |w|))
    {
      RepairedCost(g, w, d, len, m, k, t);
    }
  }

  lemma LevelsAgree(s: set<nat>, a: seq<nat>, b: seq<nat>, bl: seq<nat>, m: nat, n: nat)
    requires Below(s, n) && n <= |a| && n <= |b| && CountsLevels(s, b, bl, m, n)
    requires forall x :: x in s ==> 1 <= a[x] <= m && 1 <= b[x] <= m
    requires forall i :: 1 <= i <= m ==> Sum(s, Level(a, i), n) == bl[i]
    ensures SameLevels(s, a, b, n)
  {
    hide Sum;
    forall i: nat ensures Sum(s, Level(a, i), n) == Sum(s, Level(b, i), n) {
      if i == 0 || i > m {
        NoneAtLevel(s, a, i, n);
        NoneAtLevel(s, b, i, n);
      }
    }
  }

  // A code of l bits takes as many symbols as the Fibonacci number of l + 2.
  ghost predicate LongIsHeavy(s: set<nat>, len: seq<nat>, total: nat) {
    forall x :: x in s && x < |len| ==> Fib(len[x] + 2) <= total
  }

  lemma DepthsHeavy(g: Shape, w: seq<nat>, len: seq<nat>, limit: nat)
    requires Whole(g) && Weighs(g, w) && Greedy(g, w) && Depths(g, len, limit)
    requires forall x :: x in g.leaves ==> x < |w| && w[x] >= 1
    ensures Root(g) < |w| && LongIsHeavy(g.leaves, len, w[Root(g)])
  {
    RootWeighs(g, w);
    forall x | x in g.leaves && x < |len| ensures Fib(len[x] + 2) <= w[Root(g)] {
      var q, t := LeafPosition(g, x);
      FatherHeavy(g, w, len, limit, t);
      assert DepthAt(g, len, limit, t);
      FibMono(len[x] + 2, len[g.elems + t] + 3);
    }
  }

  lemma FatherHeavy(g: Shape, w: seq<nat>, len: seq<nat>, limit: nat, t: nat)
    requires Whole(g) && Weighs(g, w) && Greedy(g, w) && Depths(g, len, limit) && t < |g.pairs| && Root(g) < |w|
    requires forall x :: x in g.leaves ==> x < |w| && w[x] >= 1
    ensures Fib(len[g.elems + t] + 3) <= w[Root(g)]
  {
    WholeIs(g);
    AllLight(g, w, len, limit, t + 1);
    ActiveStep(g, t);
    AllPositive(g, w, t);
    assert WeighsAt(g, w, t);
    FatherHeavier(g, w, t);
    hide Active, Mul, Fib, Heavier;
    var p := g.elems + t;
    assert Light(g, w, w[Root(g)], p, len[p]);
    TwoAndOne(w[p], w[g.pairs[t].1], len[p], w[Root(g)]);
  }

  lemma LimitHeavy(s: set<nat>, len: seq<nat>, m: nat, total: nat)
    requires (forall x :: x in s && x < |len| ==> len[x] <= m) && Fib(m + 3) <= total
    ensures LongIsHeavy(s, len, total)
  {
    forall x | x in s && x < |len| ensures Fib(len[x] + 2) <= total {
      FibMono(len[x] + 2, m + 3);
    }
  }

  lemma LeavesBelow(g: Shape)
    requires Merged(g)
    ensures Below(g.leaves, g.elems)
  {
  }

  // The code lengths of the tree g, none above max_length, and what they add to
  // the sizes of the block. cut says that the tree is deeper than the limit.
  method GenBitlen(tree: array<CtData>, heap: array<nat>, bl_count: array<nat>, heap_max: nat, max_code: nat,
                   extra: seq<nat>, base: nat, slen: seq<nat>, max_length: nat, ghost g: Shape, ghost w: seq<nat>)
      returns (opt: int, static_bits: int, ghost cut: bool)
    requires heap != bl_count && bl_count.Length == MAX_BITS + 1 && 1 <= max_length <= MAX_BITS
    requires Whole(g) && g.elems + |g.pairs| <= tree.Length && Listed(g, heap[..]) && g.elems <= Pow2(max_length)
    requires forall q :: 0 <= q < 2 * |g.pairs| ==> DadOk(g, tree[..], q)
    requires heap_max == heap.Length - 2 * |g.pairs| - 1
    requires max_code < g.elems && forall s :: s in g.leaves ==> s <= max_code
    requires g.elems <= base + |extra| && (slen == [] || |slen| >= g.elems)
    requires |w| == tree.Length && forall i :: 0 <= i < tree.Length ==> tree[i].fc == w[i]
    requires Weighs(g, w) && Greedy(g, w) && forall x :: x in g.leaves ==> w[x] >= 1
    modifies tree, bl_count
    ensures var x := ExtraBits(extra, base, g.elems);
      Result(g, tree[..], w, x, StaticBits(slen, x), bl_count[..], max_length, opt, static_bits)
    ensures !cut ==> Cheapest(g.leaves, w, Lens(tree[..]))
    ensures !cut ==> Depths(g, Lens(tree[..]), max_length) && Over(g, Lens(tree[..]), max_length, 0) == 0
    ensures cut <==> !Shallow(g, max_length)
    ensures cut ==> Fib(max_length + 3) <= w[Root(g)]
    ensures forall j :: 1 <= j <= max_length && (cut ==> Upper(max_length, j - 1, |g.leaves|)) ==>
      Steep(g.leaves, w, Lens(tree[..]), w[Root(g)], j)
    ensures FlatNoCheaper(g.leaves, Sum(g.leaves, Weighted(w, Lens(tree[..])), g.elems), w[Root(g)])
    ensures LongIsHeavy(g.leaves, Lens(tree[..]), w[Root(g)])
    ensures forall i :: 0 <= i < tree.Length ==> tree[i].fc == w[i]
    ensures forall i :: 0 <= i < g.elems && i !in g.leaves ==> tree[i] == old(tree[i])
  {
    hide Sum, Assigned, Tallied, Merged, Weighs, Greedy, CutOff, Repairing, Cheapest, Pow2, SeenLeaves, Traced,
      FullDepths, Depths, FlatNoCheaper, LongIsHeavy, CountsLevels, Fib;
    ghost var x := ExtraBits(extra, base, g.elems);
    ghost var st := StaticBits(slen, x);
    var overflow;
    overflow, opt, static_bits :=
      FirstPass(tree, heap, bl_count, heap_max, max_code, extra, base, slen, max_length, g, w);
    cut := overflow != 0;
    FirstIsSteep(g, tree[..], w, x, st, bl_count[..], max_length, overflow, opt, static_bits);
    ghost var first, before := Lens(tree[..]), bl_count[..];
    PassDone(g, tree[..], w, x, st, bl_count[..], max_length, overflow, opt, static_bits);
    RootTotal(g, w);
    if overflow == 0 {
      NoOverflow(g, tree[..], w, x, st, bl_count[..], max_length, opt, static_bits);
      DepthsHeavy(g, w, first, max_length);
      UncutFlat(g, w, first);
      return;
    }
    PassSums(g, tree[..], w, x, st, bl_count[..], max_length, overflow, opt, static_bits);
    ghost var k := |g.pairs| + max_length;
    ghost var d := FirstTraced(g, first, before, max_length, k);
    ghost var len := Repair(bl_count, max_length, overflow, |g.leaves|, g.leaves, d, first, k, g.elems);
    ghost var counts := bl_count[..];
    RepairedTotal(counts, max_length, |g.leaves|);
    var more := Reassign(tree, heap, bl_count, max_code, max_length, g, w);
    opt := opt + more;
    AfterRepair(g, w, Lens(tree[..]), counts, max_length);
    SteepAfterRepair(g, w, first, Lens(tree[..]), before, counts, max_length);
    TracedSize(g.leaves, d, len, counts, max_length, k, g.elems);
    RepairedFlat(g, w, d, len, Lens(tree[..]), counts, max_length, k);
    LimitHeavy(g.leaves, Lens(tree[..]), max_length, w[Root(g)]);
  }

  lemma TracedSize(s: set<nat>, d: seq<nat>, len: seq<nat>, bl: seq<nat>, m: nat, k: nat, n: nat)
    requires Traced(s, d, len, bl, m, k, n)
    ensures |d| == |len|
  {
  }

  lemma RootTotal(g: Shape, w: seq<nat>)
    requires Whole(g) && Weighs(g, w)
    ensures Root(g) < |w| && w[Root(g)] == Sum(g.leaves, Plain(w), |w|)
  {
    RootWeight(g, w, 0);
  }

  lemma UncutFlat(g: Shape, w: seq<nat>, len: seq<nat>)
    requires Whole(g) && Cheapest(g.leaves, w, len) && |len| == |w| && g.elems <= |w|
    ensures FlatNoCheaper(g.leaves, Sum(g.leaves, Weighted(w, len), g.elems), Sum(g.leaves, Plain(w), |w|))
  {
    hide Sum, Cheapest, FlatNoCheaper;
    LeavesBelow(g);
    CheapestFlat(g.leaves, w, len, Sum(g.leaves, Plain(w), |w|));
    SumExtend(g.leaves, Weighted(w, len), g.elems, |w|);
  }

  lemma PassSums(g: Shape, tree: seq<CtData>, w: seq<nat>, x: seq<nat>, st: seq<nat>, bl_count: seq<nat>,
                 max_length: nat, overflow: nat, opt: int, static_bits: int)
    requires Pass(g, tree, w, x, st, bl_count, max_length, 2 * |g.pairs|, overflow, opt, static_bits)
    ensures opt == Sum(g.leaves, Weighted(w, Lens(tree)), g.elems) + Sum(g.leaves, Weighted(w, x), g.elems)
    ensures static_bits == Sum(g.leaves, Weighted(w, st), g.elems)
  {
    SeenAll(g);
  }

  lemma RepairedTotal(bl: seq<nat>, m: nat, total: nat)
    requires Repairing(bl, m, 0, total)
    ensures CountTotal(bl, m) == total && bl[0] == 0
  {
  }
}
