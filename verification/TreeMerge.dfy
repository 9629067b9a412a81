// trees.c: build_tree() up to the point where the tree's shape is known.
module TreeMerge {
  import opened Heap
  import opened Huffman
  import opened HuffmanShape
  import opened HuffmanHeight

  const HEAP_SIZE: nat := 573

  // The frequencies of the first n nodes.
  ghost function Freqs(tree: seq<CtData>, n: nat): seq<nat>
    requires n <= |tree|
  {
    seq(n, i requires 0 <= i < n => tree[i].fc)
  }

  // The symbols that occur.
  ghost function Used(tree: seq<CtData>, n: nat): set<nat>
    requires n <= |tree|
  {
    set i | 0 <= i < n && tree[i].fc != 0
  }

  lemma SetHeapEnd(heap: seq<nat>, len: nat, n: nat)
    requires len + 1 < |heap| && Distinct(heap, len) && n !in Members(heap, len)
    ensures Distinct(heap[len + 1 := n], len + 1)
    ensures Members(heap[len + 1 := n], len + 1) == Members(heap, len) + {n}
  {
    var h := heap[len + 1 := n];
    forall x | x in Members(heap, len) + {n} ensures x in Members(h, len + 1) {
      if x != n {
        var k :| 1 <= k <= len && heap[k] == x;
        assert h[k] == x;
      } else {
        assert h[len + 1] == x;
      }
    }
    forall i, j | 1 <= i < j <= len + 1 ensures h[i] != h[j] {
      assert j <= len ==> heap[i] != heap[j];
      assert i <= len ==> heap[i] in Members(heap, len);
    }
  }

  lemma DropTop(heap: seq<nat>, len: nat)
    requires 1 <= len < |heap| && Distinct(heap, len)
    ensures Distinct(heap[1 := heap[len]], len - 1)
    ensures Members(heap[1 := heap[len]], len - 1) == Members(heap, len) - {heap[1]}
  {
    var h := heap[1 := heap[len]];
    forall x | x in Members(heap, len) - {heap[1]} ensures x in Members(h, len - 1) {
      var k :| 1 <= k <= len && heap[k] == x;
      assert k == len ==> h[1] == x;
      assert k < len ==> h[k] == x;
    }
    forall x | x in Members(h, len - 1) ensures x in Members(heap, len) - {heap[1]} {
      var k :| 1 <= k <= len - 1 && h[k] == x;
      assert k == 1 ==> x == heap[len];
    }
  }

  lemma ReplaceTop(heap: seq<nat>, len: nat, n: nat)
    requires 1 <= len < |heap| && Distinct(heap, len) && n !in Members(heap, len)
    ensures Distinct(heap[1 := n], len)
    ensures Members(heap[1 := n], len) == Members(heap, len) - {heap[1]} + {n}
  {
    var h := heap[1 := n];
    forall x | x in Members(heap, len) - {heap[1]} + {n} ensures x in Members(h, len) {
      if x == n {
        assert h[1] == x;
      } else {
        var k :| 1 <= k <= len && heap[k] == x;
        assert h[k] == x;
      }
    }
    forall j | 1 < j <= len ensures h[j] != n && h[j] in Members(heap, len) {
      assert heap[j] in Members(heap, len);
    }
  }

  // heap[1..len] holds different symbols; max is the largest, or -1.
  ghost predicate Symbols(heap: seq<nat>, len: nat, elems: nat, max: int) {
    && len <= elems && Nodes(heap, len, elems) && Distinct(heap, len)
    && -1 <= max < elems
    && (len == 0 ==> max == -1)
    && (len > 0 ==> max >= 0 && max in Members(heap, len))
    && (forall x :: x in Members(heap, len) ==> x <= max)
    && (len == 1 ==> Members(heap, len) == {max})
  }

  lemma SymbolsAdd(heap: seq<nat>, len: nat, elems: nat, max: int, n: nat)
    requires Symbols(heap, len, elems, max) && len + 1 < |heap| && len < elems && n < elems
    requires n > max || (len == 1 && n < max)
    ensures n !in Members(heap, len)
    ensures Members(heap[len + 1 := n], len + 1) == Members(heap, len) + {n}
    ensures Symbols(heap[len + 1 := n], len + 1, elems, if n > max then n else max)
  {
    SetHeapEnd(heap, len, n);
  }

  lemma NoneYet(tree: seq<CtData>, heap: seq<nat>, elems: nat)
    requires |heap| > 0
    ensures Used(tree, 0) == {} == Members(heap, 0) && Symbols(heap, 0, elems, -1)
  {
  }

  lemma UsedStep(tree: seq<CtData>, n: nat)
    requires n < |tree|
    ensures Used(tree, n + 1) == Used(tree, n) + if tree[n].fc != 0 then {n} else {}
  {
  }

  // Leaves have no height.
  ghost predicate Flat(depth: seq<nat>, s: set<nat>) {
    forall x :: x in s ==> x < |depth| && depth[x] == 0
  }

  // Construct the initial heap: all symbols that occur, in order.
  method InitHeap(tree: array<CtData>, elems: nat, heap: array<nat>, depth: array<nat>)
      returns (heap_len: nat, max_code: int)
    requires heap != depth && elems < heap.Length && elems <= depth.Length && elems <= tree.Length
    modifies tree, heap, depth
    ensures Symbols(heap[..], heap_len, elems, max_code)
    ensures Members(heap[..], heap_len) == old(Used(tree[..], elems))
    ensures forall i :: 0 <= i < tree.Length ==> tree[i].fc == old(tree[i].fc)
    ensures forall i :: 0 <= i < elems && tree[i].fc == 0 ==> tree[i].dl == 0
    ensures Flat(depth[..], old(Used(tree[..], elems)))
  {
    hide Symbols, Members, Used, Distinct, Nodes;
    heap_len, max_code := 0, -1;
    var n: nat := 0;
    NoneYet(tree[..], heap[..], elems);
    while n < elems
      invariant n <= elems && heap_len <= n && max_code < n
      invariant Symbols(heap[..], heap_len, elems, max_code)
      invariant Members(heap[..], heap_len) == old(Used(tree[..], n))
      invariant forall i :: 0 <= i < tree.Length ==> tree[i].fc == old(tree[i].fc)
      invariant forall i :: 0 <= i < n && tree[i].fc == 0 ==> tree[i].dl == 0
      invariant Flat(depth[..], old(Used(tree[..], n)))
    {
      UsedStep(old(tree[..]), n);
      if tree[n].fc != 0 {
        SymbolsAdd(heap[..], heap_len, elems, max_code, n);
        ghost var h := heap[..];
        heap_len := heap_len + 1;
        heap[heap_len] := n;
        assert heap[..] == h[heap_len := n];
        max_code := n;
        depth[n] := 0;
      } else {
        tree[n] := tree[n].(dl := 0);
      }
      n := n + 1;
    }
  }

  // The tree with the frequencies of the forced symbols set to one.
  ghost predicate Forced(before: seq<CtData>, after: seq<CtData>, forced: set<nat>) {
    && |before| == |after|
    && forall i :: 0 <= i < |after| ==> after[i] == if i in forced then before[i].(fc := 1) else before[i]
  }

  // Give a symbol that does not occur a code.
  method ForceOne(tree: array<CtData>, elems: nat, heap: array<nat>, depth: array<nat>, len: nat, max0: int)
      returns (node: nat, max: int)
    requires heap != depth && 3 <= elems < heap.Length && elems <= depth.Length && elems <= tree.Length
    requires len < 2 && Symbols(heap[..], len, elems, max0)
    modifies tree, heap, depth
    ensures node < 3 && node !in old(Members(heap[..], len)) && node == if max0 < 2 then max0 + 1 else 0
    ensures max == if max0 < 2 then max0 + 1 else max0
    ensures Symbols(heap[..], len + 1, elems, max)
    ensures Members(heap[..], len + 1) == old(Members(heap[..], len)) + {node}
    ensures tree[..] == old(tree[..])[node := old(tree[node]).(fc := 1)]
    ensures depth[..] == old(depth[..])[node := 0]
  {
    hide Distinct, Members, Nodes;
    max := max0;
    if max < 2 {
      max := max + 1;
      node := max;
    } else {
      node := 0;
    }
    SymbolsAdd(heap[..], len, elems, max0, node);
    ghost var h := heap[..];
    heap[len + 1] := node;
    assert heap[..] == h[len + 1 := node];
    tree[node] := tree[node].(fc := 1);
    depth[node] := 0;
  }

  // The symbols that make two of fewer: the first ones behind the one there is,
  // or symbol zero if that is greater than one.
  ghost function Second(used: set<nat>): set<nat> {
    if used == {} then {0, 1}
    else if used == {0} then {1}
    else if used == {1} then {2}
    else {0}
  }

  // The symbols forced so far, until there are len of them.
  ghost predicate Forcing(s: set<nat>, forced: set<nat>, len0: nat, len: nat, max0: int, max: int) {
    && len == len0 + |forced|
    && if forced == {} then max == max0
       else len0 < 2 && if len == 1 then forced == {0} && max == 0 && s == {} else len == 2 && forced == Second(s)
  }

  lemma ForcingStart(heap: seq<nat>, len: nat, elems: nat, max: int)
    requires Symbols(heap, len, elems, max)
    ensures Forcing(Members(heap, len), {}, len, len, max, max)
  {
  }

  lemma ForcingStep(heap: seq<nat>, len0: nat, elems: nat, max0: int, forced: set<nat>, len: nat, max: int, node: nat, max2: int)
    requires Symbols(heap, len0, elems, max0) && Forcing(Members(heap, len0), forced, len0, len, max0, max) && len < 2
    requires node == (if max < 2 then max + 1 else 0) && max2 == (if max < 2 then max + 1 else max) && node !in forced
    ensures Forcing(Members(heap, len0), forced + {node}, len0, len + 1, max0, max2)
  {
    if len0 == 0 { assert Members(heap, 0) == {}; }
    assert |forced + {node}| == |forced| + 1;
  }

  lemma ForcingEnd(s: set<nat>, forced: set<nat>, len0: nat, len: nat, max0: int, max: int)
    requires Forcing(s, forced, len0, len, max0, max) && len >= 2
    ensures forced == if len0 >= 2 then {} else Second(s)
  {
  }

  // Add symbols to the heap until there are two. bits and static_bits are
  // what is to be added to opt_len and static_len.
  method ForceTwo(tree: array<CtData>, elems: nat, heap: array<nat>, depth: array<nat>, slen: seq<nat>,
                  len0: nat, max0: int)
      returns (heap_len: nat, max_code: nat, bits: int, static_bits: int, ghost forced: set<nat>)
    requires heap != depth && 3 <= elems < heap.Length && elems <= depth.Length && elems <= tree.Length
    requires slen == [] || |slen| >= elems
    requires Symbols(heap[..], len0, elems, max0) && Flat(depth[..], Members(heap[..], len0))
    modifies tree, heap, depth
    ensures 2 <= heap_len && Symbols(heap[..], heap_len, elems, max_code)
    ensures Members(heap[..], heap_len) == old(Members(heap[..], len0)) + forced
    ensures forced !! old(Members(heap[..], len0)) && (forced != {} ==> heap_len == 2) && Below(forced, 3)
    ensures Forced(old(tree[..]), tree[..], forced)
    ensures forced == if len0 >= 2 then {} else Second(old(Members(heap[..], len0)))
    ensures bits + |forced| == 0 && static_bits + Sum(forced, Plain(slen), elems) == 0
    ensures Flat(depth[..], Members(heap[..], heap_len))
  {
    hide Sum, Distinct, Members, Nodes, Flat, Second, Forcing;
    ForcingStart(heap[..], len0, elems, max0);
    heap_len, bits, static_bits, forced := len0, 0, 0, {};
    var max: int := max0;
    SumEmpty({}, Plain(slen), elems);
    while heap_len < 2
      invariant Symbols(heap[..], heap_len, elems, max) && (heap_len > 2 ==> forced == {})
      invariant Members(heap[..], heap_len) == old(Members(heap[..], len0)) + forced
      invariant forced !! old(Members(heap[..], len0)) && Below(forced, 3)
      invariant Forced(old(tree[..]), tree[..], forced)
      invariant Forcing(old(Members(heap[..], len0)), forced, len0, heap_len, max0, max)
      invariant bits + |forced| == 0 && static_bits + Sum(forced, Plain(slen), elems) == 0
      invariant Flat(depth[..], Members(heap[..], heap_len))
    {
      ghost var before, flat, was := tree[..], depth[..], Members(heap[..], heap_len);
      var node;
      ghost var top := max;
      node, max := ForceOne(tree, elems, heap, depth, heap_len, max);
      ForcingStep(old(heap[..]), len0, elems, max0, forced, heap_len, top, node, max);
      heap_len := heap_len + 1;
      bits := bits - 1;
      if slen != [] { static_bits := static_bits - slen[node]; }
      SumAdd(forced, node, Plain(slen), elems);
      ForcedStep(old(tree[..]), before, tree[..], forced, node);
      FlatStep(flat, was, node);
      forced := forced + {node};
    }
    max_code := max;
    ForcingEnd(old(Members(heap[..], len0)), forced, len0, heap_len, max0, max);
  }

  lemma FlatStep(depth: seq<nat>, s: set<nat>, node: nat)
    requires Flat(depth, s) && node < |depth|
    ensures Flat(depth[node := 0], s + {node})
  {
  }

  lemma ForcedStep(start: seq<CtData>, before: seq<CtData>, after: seq<CtData>, forced: set<nat>, node: nat)
    requires Forced(start, before, forced) && node !in forced && node < |before|
    requires after == before[node := before[node].(fc := 1)]
    ensures Forced(start, after, forced + {node})
  {
  }

  // Make a heap of the symbols, from its last inner node up.
  method Heapify(tree: array<CtData>, heap: array<nat>, depth: array<nat>, heap_len: nat)
    requires heap != depth && 1 <= heap_len
    requires Nodes(heap[..], heap_len, tree.Length) && Nodes(heap[..], heap_len, depth.Length)
    requires Distinct(heap[..], heap_len)
    modifies heap
    ensures Nodes(heap[..], heap_len, tree.Length) && Nodes(heap[..], heap_len, depth.Length)
    ensures Distinct(heap[..], heap_len) && Members(heap[..], heap_len) == old(Members(heap[..], heap_len))
    ensures HeapFrom(heap[..], heap_len, 1, tree[..], depth[..])
  {
    var n := heap_len / 2;
    while n >= 1
      invariant 0 <= n <= heap_len / 2
      invariant Nodes(heap[..], heap_len, tree.Length) && Nodes(heap[..], heap_len, depth.Length)
      invariant Distinct(heap[..], heap_len) && Members(heap[..], heap_len) == old(Members(heap[..], heap_len))
      invariant HeapFrom(heap[..], heap_len, n + 1, tree[..], depth[..])
    {
      PqDownHeap(heap, heap_len, tree, depth, n);
      n := n - 1;
    }
  }

  // ---- The merging loop ----

  // Merge s put its pair at the end of heap[], and made elems + s its father.
  ghost predicate Recorded(g: Shape, tree: seq<CtData>, heap: seq<nat>, s: nat)
    requires s < |g.pairs| && 2 * s + 2 <= |heap|
  {
    var (a, b) := g.pairs[s];
    && heap[|heap| - 1 - 2 * s] == a && heap[|heap| - 2 - 2 * s] == b
    && a < |tree| && b < |tree| && tree[a].dl == tree[b].dl == g.elems + s
  }

  ghost predicate AllRecorded(g: Shape, tree: seq<CtData>, heap: seq<nat>)
    requires 2 * |g.pairs| <= |heap|
  {
    forall s :: 0 <= s < |g.pairs| ==> Recorded(g, tree, heap, s)
  }

  // The weights so far: every merge has joined two lightest roots, and the
  // roots weigh as much as all symbols together.
  ghost predicate WeightsOk(g: Shape, w: seq<nat>, total: nat) {
    && |w| == g.elems + |g.pairs| && Weighs(g, w) && Greedy(g, w)
    && Sum(Active(g, |g.pairs|), Plain(w), |w|) == total
  }

  // depth is the height of every node; nodes were merged in the order of weight
  // and height.
  ghost predicate HeightsOk(g: Shape, w: seq<nat>, depth: seq<nat>) {
    && Heights(g, depth) && Ordered(g, w, depth)
    && forall x :: x in g.leaves ==> x < |w| && w[x] >= 1
  }

  // heap[1..len] is a heap of the current roots.
  ghost predicate HeapOf(heap: seq<nat>, len: nat, s: set<nat>, tree: seq<CtData>, depth: seq<nat>, bound: nat) {
    && 1 <= len && bound <= |tree| && bound <= |depth|
    && Nodes(heap, len, bound) && Distinct(heap, len) && Members(heap, len) == s
    && HeapFrom(heap, len, 1, tree, depth)
  }

  ghost predicate Merging(g: Shape, tree: seq<CtData>, heap: seq<nat>, depth: seq<nat>, len: nat, heap_max: nat,
                          total: nat)
  {
    && |heap| == |depth| == HEAP_SIZE && 2 * g.elems < |tree| && 2 * g.elems < HEAP_SIZE
    && Merged(g) && len + |g.pairs| <= g.elems && |g.leaves| == len + |g.pairs|
    && heap_max == HEAP_SIZE - 2 * |g.pairs|
    && HeapOf(heap, len, Active(g, |g.pairs|), tree, depth, g.elems + |g.pairs|)
    && WeightsOk(g, Freqs(tree, g.elems + |g.pairs|), total)
    && HeightsOk(g, Freqs(tree, g.elems + |g.pairs|), depth)
    && AllRecorded(g, tree, heap)
  }

  // No member of s comes before top in the order of the heap.
  ghost predicate Foremost(s: set<nat>, tree: seq<CtData>, depth: seq<nat>, top: nat, bound: nat) {
    && top in s && top < bound <= |tree| && bound <= |depth|
    && forall x :: x in s ==> x < bound && Smaller(tree, depth, top, x)
  }

  lemma TopLightest(heap: seq<nat>, len: nat, s: set<nat>, tree: seq<CtData>, depth: seq<nat>, bound: nat)
    requires HeapOf(heap, len, s, tree, depth, bound)
    ensures Foremost(s, tree, depth, heap[1], bound)
  {
    forall x | x in s ensures x < bound && Smaller(tree, depth, heap[1], x) {
      var i :| 1 <= i <= len && heap[i] == x;
      TopSmallest(heap, len, tree, depth, i);
    }
    assert heap[1] in Members(heap, len);
  }

  // Taking the last element to the top leaves only the top out of order.
  lemma RemovedTop(heap: seq<nat>, len: nat, s: set<nat>, tree: seq<CtData>, depth: seq<nat>, bound: nat)
    requires HeapOf(heap, len, s, tree, depth, bound) && len >= 2
    ensures var h := heap[1 := heap[len]];
      && Nodes(h, len - 1, bound) && Distinct(h, len - 1) && Members(h, len - 1) == s - {heap[1]}
      && HeapFrom(h, len - 1, 2, tree, depth)
  {
    DropTop(heap, len);
    var h := heap[1 := heap[len]];
    forall i | 2 <= i <= len - 1 && i / 2 >= 2 ensures Edge(h, tree, depth, i) {
      assert Edge(heap, tree, depth, i);
    }
  }

  // So does putting a new node there.
  lemma ReplacedTop(heap: seq<nat>, len: nat, s: set<nat>, before: seq<CtData>, depth: seq<nat>, bound: nat,
                    after: seq<CtData>, depth2: seq<nat>)
    requires HeapOf(heap, len, s, before, depth, bound)
    requires |after| == |before| && |depth2| == |depth| && bound < |before| && bound < |depth|
    requires forall x :: 0 <= x < bound ==> after[x].fc == before[x].fc && depth2[x] == depth[x]
    ensures var h := heap[1 := bound];
      && Nodes(h, len, bound + 1) && Distinct(h, len) && Members(h, len) == s - {heap[1]} + {bound}
      && HeapFrom(h, len, 2, after, depth2)
  {
    assert bound !in Members(heap, len);
    ReplaceTop(heap, len, bound);
    var h := heap[1 := bound];
    forall i | 2 <= i <= len && i / 2 >= 2 ensures Edge(h, after, depth2, i) {
      assert Edge(heap, before, depth, i);
    }
  }

  // The weights after merging the lightest roots a and b.
  lemma WeightsStep(g: Shape, w: seq<nat>, total: nat, a: nat, b: nat)
    requires Merged(g) && WeightsOk(g, w, total)
    requires a in Active(g, |g.pairs|) && b in Active(g, |g.pairs|) && a != b && a < |w| && b < |w|
    requires forall x :: x in Active(g, |g.pairs|) && x < |w| ==> w[a] <= w[x]
    requires forall x :: x in Active(g, |g.pairs|) && x != a && x < |w| ==> w[b] <= w[x]
    ensures w[a] + w[b] <= total
    ensures WeightsOk(Extend(g, a, b), w + [w[a] + w[b]], total)
  {
    var s, t := Active(g, |g.pairs|), |g.pairs|;
    ActiveBelow(g, t);
    ExtendMerged(g, a, b);
    ExtendWeighs(g, w, a, b, w[a] + w[b]);
    ExtendGreedy(g, w, a, b, w[a] + w[b]);
    hide Active, Weighs, Greedy, Sum;
    var f, f2 := Plain(w), Plain(w + [w[a] + w[b]]);
    SumRemove(s, a, f, |w|);
    SumRemove(s - {a}, b, f, |w|);
    SumExtend(s, f, |w|, |w| + 1);
    SumSame(s, f, f2, |w| + 1);
    SumMerge(s, a, b, g.elems + t, f2, |w| + 1);
  }

  // Take the smallest node off the heap.
  method PqRemove(tree: array<CtData>, heap: array<nat>, depth: array<nat>, heap_len: nat, ghost s: set<nat>,
                  ghost bound: nat)
      returns (top: nat)
    requires heap != depth && 2 <= heap_len
    requires HeapOf(heap[..], heap_len, s, tree[..], depth[..], bound)
    modifies heap
    ensures Foremost(s, tree[..], depth[..], top, bound)
    ensures HeapOf(heap[..], heap_len - 1, s - {top}, tree[..], depth[..], bound)
    ensures forall i :: heap_len <= i < heap.Length ==> heap[i] == old(heap[i])
  {
    hide Distinct, Members, Edge;
    TopLightest(heap[..], heap_len, s, tree[..], depth[..], bound);
    RemovedTop(heap[..], heap_len, s, tree[..], depth[..], bound);
    top := heap[SMALLEST];
    ghost var h := heap[..];
    heap[SMALLEST] := heap[heap_len];
    assert heap[..] == h[1 := h[heap_len]];
    PqDownHeap(heap, heap_len - 1, tree, depth, SMALLEST);
    NodesBelow(heap[..], heap_len - 1, s - {top}, bound);
  }

  lemma MembersBelow(heap: seq<nat>, len: nat, bound: nat)
    requires Nodes(heap, len, bound)
    ensures forall x :: x in Members(heap, len) ==> x < bound
  {
  }

  lemma NodesBelow(heap: seq<nat>, len: nat, s: set<nat>, bound: nat)
    requires len < |heap| && Members(heap, len) == s && forall x :: x in s ==> x < bound
    ensures Nodes(heap, len, bound)
  {
    forall i | 1 <= i <= len ensures heap[i] < bound {
      assert heap[i] in Members(heap, len);
    }
  }

  // The tree after node has become the father of n and m.
  ghost function Joined(tree: seq<CtData>, node: nat, n: nat, m: nat): seq<CtData>
    requires node < |tree| && n < |tree| && m < |tree|
  {
    var t := tree[node := tree[node].(fc := (tree[n].fc + tree[m].fc) % 65536)];
    var u := t[n := t[n].(dl := node)];
    u[m := u[m].(dl := node)]
  }

  lemma JoinedWeights(tree: seq<CtData>, node: nat, n: nat, m: nat)
    requires node < |tree| && n < node && m < node && tree[n].fc + tree[m].fc <= 65535
    ensures Freqs(Joined(tree, node, n, m), node + 1) == Freqs(tree, node) + [tree[n].fc + tree[m].fc]
    ensures forall i :: 0 <= i < node ==> Joined(tree, node, n, m)[i].fc == tree[i].fc
  {
  }

  lemma JoinedRecorded(g: Shape, tree: seq<CtData>, before: seq<nat>, after: seq<nat>, n: nat, m: nat)
    requires Merged(g) && 2 * |g.pairs| + 2 <= |before| == |after| && AllRecorded(g, tree, before)
    requires n in Active(g, |g.pairs|) && m in Active(g, |g.pairs|) && n != m
    requires n < g.elems + |g.pairs| && m < g.elems + |g.pairs| < |tree|
    requires forall i :: |before| - 2 * |g.pairs| <= i < |before| ==> after[i] == before[i]
    requires after[|before| - 1 - 2 * |g.pairs|] == n && after[|before| - 2 - 2 * |g.pairs|] == m
    ensures AllRecorded(Extend(g, n, m), Joined(tree, g.elems + |g.pairs|, n, m), after)
  {
    var g2, node := Extend(g, n, m), g.elems + |g.pairs|;
    forall s | 0 <= s < |g2.pairs| ensures Recorded(g2, Joined(tree, node, n, m), after, s) {
      if s < |g.pairs| {
        assert Recorded(g, tree, before, s);
        ActiveStep(g, s);
        Gone(g, g.pairs[s].0, s + 1, |g.pairs|);
        Gone(g, g.pairs[s].1, s + 1, |g.pairs|);
      }
    }
  }

  lemma MergingStep(g: Shape, tree: seq<CtData>, heap: seq<nat>, depth: seq<nat>, len: nat, heap_max: nat, total: nat,
                    n: nat, m: nat, heap2: seq<nat>, depth2: seq<nat>)
    requires Merging(g, tree, heap, depth, len, heap_max, total) && len >= 2
    requires total <= 65535 && |heap2| == |heap|
    requires var s, node := Active(g, |g.pairs|), g.elems + |g.pairs|;
      && Foremost(s, tree, depth, n, node) && Foremost(s - {n}, tree, depth, m, node) && node < |depth|
      && depth2 == depth[node := Taller(depth[n], depth[m]) + 1]
      && HeapOf(heap2, len - 1, s - {n, m} + {node}, Joined(tree, node, n, m), depth2, node + 1)
    requires forall i :: len <= i < |heap| ==>
      heap2[i] == if i == heap_max - 1 then n else if i == heap_max - 2 then m else heap[i]
    ensures Merging(Extend(g, n, m), Joined(tree, g.elems + |g.pairs|, n, m), heap2, depth2, len - 1, heap_max - 2, total)
  {
    hide Active, Sum, HeapOf, AllRecorded, Heights, Ordered;
    var node := g.elems + |g.pairs|;
    var w := Freqs(tree, node);
    assert forall x :: x in Active(g, |g.pairs|) && x != n ==> x in Active(g, |g.pairs|) - {n};
    WeightsStep(g, w, total, n, m);
    HeightsStep(g, w, tree, depth, n, m, depth2);
    JoinedWeights(tree, node, n, m);
    JoinedRecorded(g, tree, heap, heap2, n, m);
    ExtendMerged(g, n, m);
  }

  lemma HeightsStep(g: Shape, w: seq<nat>, tree: seq<CtData>, depth: seq<nat>, n: nat, m: nat, depth2: seq<nat>)
    requires Merged(g) && HeightsOk(g, w, depth) && g.elems + |g.pairs| < |tree| && w == Freqs(tree, g.elems + |g.pairs|)
    requires var s, node := Active(g, |g.pairs|), g.elems + |g.pairs|;
      && Foremost(s, tree, depth, n, node) && Foremost(s - {n}, tree, depth, m, node) && node < |depth|
      && depth2 == depth[node := Taller(depth[n], depth[m]) + 1]
    ensures HeightsOk(Extend(g, n, m), w + [w[n] + w[m]], depth2)
  {
    var s := Active(g, |g.pairs|);
    hide Active, Merged, Heights, Ordered;
    forall x | x in s && x != n && x != m ensures NotAfter(w, depth, m, x) {
      assert x in s - {n};
    }
    ExtendHeights(g, depth, n, m, depth2);
    ExtendOrdered(g, w, depth, n, m, w[n] + w[m], depth2);
  }

  lemma PairFits(g: Shape, tree: seq<CtData>, heap: seq<nat>, depth: seq<nat>, len: nat, heap_max: nat, total: nat,
                 n: nat, m: nat)
    requires Merging(g, tree, heap, depth, len, heap_max, total)
    requires n in Active(g, |g.pairs|) && m in Active(g, |g.pairs|) && n != m
    requires n < g.elems + |g.pairs| && m < g.elems + |g.pairs|
    ensures tree[n].fc + tree[m].fc <= total
    ensures n < |depth| && m < |depth| && (total <= 65535 ==> depth[n] < 255 && depth[m] < 255)
  {
    if total <= 65535 { PairLow(g, Freqs(tree, g.elems + |g.pairs|), depth, total, n, m); }
    hide Active, Sum, HeapOf, AllRecorded, Merged;
    var s, w := Active(g, |g.pairs|), Freqs(tree, g.elems + |g.pairs|);
    SumRemove(s, n, Plain(w), |w|);
    SumRemove(s - {n}, m, Plain(w), |w|);
  }

  lemma PairLow(g: Shape, w: seq<nat>, depth: seq<nat>, total: nat, n: nat, m: nat)
    requires Merged(g) && WeightsOk(g, w, total) && HeightsOk(g, w, depth) && total <= 65535
    requires n in Active(g, |g.pairs|) && m in Active(g, |g.pairs|) && n < |w| && m < |w|
    ensures n < |depth| && m < |depth| && depth[n] < 255 && depth[m] < 255
  {
    hide Active, Sum, Merged, Heights, Ordered, Weighs, Greedy;
    SumRemove(Active(g, |g.pairs|), n, Plain(w), |w|);
    SumRemove(Active(g, |g.pairs|), m, Plain(w), |w|);
    HeightFits(g, w, depth, n);
    HeightFits(g, w, depth, m);
  }

  // The writes that make node the father of n and m, and put it on the heap.
  // depth is an unsigned char.
  method Join(tree: array<CtData>, heap: array<nat>, depth: array<nat>, heap_max: nat, node: nat, n: nat, m: nat)
    requires heap != depth && 4 <= heap_max <= heap.Length && n < node && m < node && n != m
    requires node < tree.Length && node < depth.Length && depth[n] < 255 && depth[m] < 255
    modifies tree, heap, depth
    ensures tree[..] == old(Joined(tree[..], node, n, m))
    ensures heap[..] == old(heap[..])[heap_max - 1 := n][heap_max - 2 := m][SMALLEST := node]
    ensures depth[..] == old(depth[..][node := Taller(depth[n], depth[m]) + 1])
  {
    heap[heap_max - 1] := n;
    heap[heap_max - 2] := m;
    tree[node] := tree[node].(fc := (tree[n].fc + tree[m].fc) % 65536);
    depth[node] := ((if depth[n] >= depth[m] then depth[n] else depth[m]) + 1) % 256;
    tree[n] := tree[n].(dl := node);
    tree[m] := tree[m].(dl := node);
    heap[SMALLEST] := node;
  }

  // A heap only looks at its own part of the array.
  lemma HeapOfPrefix(heap: seq<nat>, heap2: seq<nat>, len: nat, s: set<nat>, tree: seq<CtData>, depth: seq<nat>, bound: nat)
    requires HeapOf(heap, len, s, tree, depth, bound) && len < |heap2|
    requires forall i :: 1 <= i <= len ==> heap2[i] == heap[i]
    ensures HeapOf(heap2, len, s, tree, depth, bound)
  {
    forall i | 2 <= i <= len ensures Edge(heap2, tree, depth, i) {
      assert Edge(heap, tree, depth, i);
    }
    forall x ensures x in Members(heap, len) <==> x in Members(heap2, len) {
      if x in Members(heap, len) {
        var i :| 1 <= i <= len && heap[i] == x;
        assert heap2[i] == x;
      }
      if x in Members(heap2, len) {
        var i :| 1 <= i <= len && heap2[i] == x;
        assert heap[i] == x;
      }
    }
  }

  // Combine the two least frequent nodes: one round of the merging loop.
  method MergeTwo(tree: array<CtData>, heap: array<nat>, depth: array<nat>, heap_len: nat, heap_max: nat, node: nat,
                  ghost g: Shape, ghost total: nat)
      returns (ghost n0: nat, ghost m0: nat)
    requires heap != depth && 2 <= heap_len && node == g.elems + |g.pairs| && total <= 65535
    requires Merging(g, tree[..], heap[..], depth[..], heap_len, heap_max, total)
    modifies tree, heap, depth
    ensures n0 in Active(g, |g.pairs|) && m0 in Active(g, |g.pairs|) && n0 < node && m0 < node && n0 != m0
    ensures Merging(Extend(g, n0, m0), tree[..], heap[..], depth[..], heap_len - 1, heap_max - 2, total)
    ensures tree[..] == old(Joined(tree[..], node, n0, m0))
  {
    hide Active, Distinct, Members, Nodes, HeapFrom, AllRecorded, WeightsOk, HeightsOk, Joined, Merged, Foremost;
    ghost var s := Active(g, |g.pairs|);
    ghost var h0 := heap[..];
    var n := PqRemove(tree, heap, depth, heap_len, s, node);
    ghost var h1 := heap[..];
    TopLightest(h1, heap_len - 1, s - {n}, tree[..], depth[..], node);
    var m := heap[SMALLEST];
    ForemostTwo(s, tree[..], depth[..], n, m, node);
    ghost var d0, t0 := depth[..], tree[..];
    PairFits(g, t0, h0, d0, heap_len, heap_max, total, n, m);
    Join(tree, heap, depth, heap_max, node, n, m);
    n0, m0 := n, m;
    MergeSift(tree, heap, depth, heap_len - 1, heap_max, node, s, n, m, t0, h1, d0);
    MergingStep(g, t0, h0, d0, heap_len, heap_max, total, n, m, heap[..], depth[..]);
  }

  lemma ForemostTwo(s: set<nat>, tree: seq<CtData>, depth: seq<nat>, n: nat, m: nat, bound: nat)
    requires Foremost(s, tree, depth, n, bound) && Foremost(s - {n}, tree, depth, m, bound)
    ensures n in s && m in s && n != m && n < bound && m < bound
  {
  }

  // Restore the heap after a new node has been put on top.
  method MergeSift(tree: array<CtData>, heap: array<nat>, depth: array<nat>, len: nat, heap_max: nat, node: nat,
                   ghost s: set<nat>, ghost n: nat, ghost m: nat, ghost t0: seq<CtData>, ghost h1: seq<nat>, ghost d0: seq<nat>)
    requires heap != depth && n in s && n != m && n < node && m < node
    requires HeapOf(h1, len, s - {n}, t0, d0, node) && h1[SMALLEST] == m && |h1| == heap.Length && |t0| == tree.Length
    requires len < heap_max - 2 < heap_max <= heap.Length && node < |t0| && node < |d0| == depth.Length
    requires t0[n].fc + t0[m].fc <= 65535
    requires tree[..] == Joined(t0, node, n, m)
    requires heap[..] == h1[heap_max - 1 := n][heap_max - 2 := m][SMALLEST := node]
    requires depth[..] == d0[node := depth[node]]
    modifies heap
    ensures HeapOf(heap[..], len, s - {n, m} + {node}, tree[..], depth[..], node + 1)
    ensures forall i :: len < i < heap.Length ==>
      heap[i] == if i == heap_max - 1 then n else if i == heap_max - 2 then m else h1[i]
  {
    hide Distinct, Members, Edge;
    var h2 := h1[heap_max - 1 := n][heap_max - 2 := m];
    HeapOfPrefix(h1, h2, len, s - {n}, t0, d0, node);
    JoinedWeights(t0, node, n, m);
    ReplacedTop(h2, len, s - {n}, t0, d0, node, tree[..], depth[..]);
    assert heap[..] == h2[1 := node];
    MembersBelow(heap[..], len, node + 1);
    PqDownHeap(heap, len, tree, depth, SMALLEST);
    assert s - {n} - {m} + {node} == s - {n, m} + {node};
    NodesBelow(heap[..], len, s - {n, m} + {node}, node + 1);
  }

  // All merges: until one node is left.
  method MergeAll(tree: array<CtData>, heap: array<nat>, depth: array<nat>, len0: nat, elems: nat,
                  ghost leaves: set<nat>, ghost total: nat)
      returns (heap_max: nat, ghost g: Shape)
    requires heap != depth && len0 >= 2 && total <= 65535
    requires Merging(Shape(elems, leaves, []), tree[..], heap[..], depth[..], len0, HEAP_SIZE, total)
    modifies tree, heap, depth
    ensures g.elems == elems && g.leaves == leaves && |g.pairs| == len0 - 1
    ensures heap_max == HEAP_SIZE - 2 * |g.pairs|
    ensures Merging(g, tree[..], heap[..], depth[..], 1, heap_max, total)
    ensures forall i :: 0 <= i < elems ==> tree[i].fc == old(tree[i].fc)
    ensures forall i :: 0 <= i < elems && i !in leaves ==> tree[i] == old(tree[i])
  {
    hide HeapOf, AllRecorded, WeightsOk, HeightsOk, Merged;
    var heap_len: nat, node: nat := len0, elems;
    heap_max := HEAP_SIZE;
    g := Shape(elems, leaves, []);
    while heap_len >= 2
      invariant 1 <= heap_len <= len0 && node == elems + |g.pairs|
      invariant g.elems == elems && g.leaves == leaves && |g.pairs| == len0 - heap_len
      invariant Merging(g, tree[..], heap[..], depth[..], heap_len, heap_max, total)
      invariant forall i :: 0 <= i < elems ==> tree[i].fc == old(tree[i].fc)
      invariant forall i :: 0 <= i < elems && i !in leaves ==> tree[i] == old(tree[i])
    {
      ghost var n, m;
      n, m := MergeTwo(tree, heap, depth, heap_len, heap_max, node, g, total);
      assert n < elems ==> n in leaves by { if n < elems { ActiveLeaf(g, |g.pairs|, n); } }
      assert m < elems ==> m in leaves by { if m < elems { ActiveLeaf(g, |g.pairs|, m); } }
      g := Extend(g, n, m);
      node, heap_len, heap_max := node + 1, heap_len - 1, heap_max - 2;
    }
  }
}
