// trees.c: the priority queue of tree nodes, least frequent on top.
module Heap {

  // A tree element: fc is its frequency, later its code; dl is its father,
  // later its code length.
  datatype CtData = CtData(fc: nat, dl: nat)

  const SMALLEST: nat := 1

  // The order of the heap: by frequency, and by depth where that is equal.
  predicate Smaller(tree: seq<CtData>, depth: seq<nat>, n: nat, m: nat)
    requires n < |tree| && m < |tree| && n < |depth| && m < |depth|
  {
    tree[n].fc < tree[m].fc || (tree[n].fc == tree[m].fc && depth[n] <= depth[m])
  }

  // heap[1..len] holds nodes of the tree.
  ghost predicate Nodes(heap: seq<nat>, len: nat, bound: nat) {
    len < |heap| && forall i :: 1 <= i <= len ==> heap[i] < bound
  }

  // The father of heap[i] is not larger.
  ghost predicate Edge(heap: seq<nat>, tree: seq<CtData>, depth: seq<nat>, i: nat)
    requires 1 <= i / 2 <= i < |heap| && heap[i / 2] < |tree| && heap[i / 2] < |depth|
    requires heap[i] < |tree| && heap[i] < |depth|
  {
    Smaller(tree, depth, heap[i / 2], heap[i])
  }

  // Each father from position lo on is smaller than its sons.
  ghost predicate HeapFrom(heap: seq<nat>, len: nat, lo: nat, tree: seq<CtData>, depth: seq<nat>)
    requires Nodes(heap, len, |tree|) && Nodes(heap, len, |depth|) && lo >= 1
  {
    forall i :: 2 <= i <= len && i / 2 >= lo ==> Edge(heap, tree, depth, i)
  }

  // The members of heap[1..len], which are all different.
  ghost function Members(heap: seq<nat>, len: nat): set<nat>
    requires len < |heap|
  {
    set i | 1 <= i <= len :: heap[i]
  }

  ghost predicate Distinct(heap: seq<nat>, len: nat)
    requires len < |heap|
  {
    forall i, j :: 1 <= i < j <= len ==> heap[i] != heap[j]
  }

  lemma SwapMembers(heap: seq<nat>, len: nat, i: nat, j: nat)
    requires 1 <= i <= len && 1 <= j <= len && len < |heap| && Distinct(heap, len)
    ensures var h := heap[i := heap[j]][j := heap[i]];
            Distinct(h, len) && Members(h, len) == Members(heap, len)
  {
    var h := heap[i := heap[j]][j := heap[i]];
    forall x | x in Members(heap, len) ensures x in Members(h, len) {
      var k :| 1 <= k <= len && heap[k] == x;
      var k' := if k == i then j else if k == j then i else k;
      assert h[k'] == x;
    }
    forall x | x in Members(h, len) ensures x in Members(heap, len) {
      var k :| 1 <= k <= len && h[k] == x;
      var k' := if k == i then j else if k == j then i else k;
      assert heap[k'] == x;
    }
  }

  // The top of a heap is a smallest member.
  lemma {:induction false} TopSmallest(heap: seq<nat>, len: nat, tree: seq<CtData>, depth: seq<nat>, i: nat)
    requires Nodes(heap, len, |tree|) && Nodes(heap, len, |depth|) && HeapFrom(heap, len, 1, tree, depth)
    requires 1 <= i <= len
    ensures Smaller(tree, depth, heap[1], heap[i])
  {
    if i > 1 {
      assert Edge(heap, tree, depth, i);
      TopSmallest(heap, len, tree, depth, i / 2);
    }
  }

  // While node v moves down from k to the hole at pos, the heap with v put
  // into the hole is in order but for v and its sons; and the hole's father,
  // if it is not above k, is smaller than those sons.
  ghost predicate Sifting(h: seq<nat>, len: nat, k: nat, pos: nat, tree: seq<CtData>, depth: seq<nat>)
    requires Nodes(h, len, |tree|) && Nodes(h, len, |depth|) && 1 <= k <= pos <= len
  {
    && (forall i :: 2 <= i <= len && i / 2 >= k && i / 2 != pos ==> Edge(h, tree, depth, i))
    && (pos / 2 >= k ==> forall i :: 2 <= i <= len && i / 2 == pos ==> Smaller(tree, depth, h[pos / 2], h[i]))
  }

  lemma SiftStep(h: seq<nat>, len: nat, k: nat, pos: nat, j: nat, tree: seq<CtData>, depth: seq<nat>)
    requires Nodes(h, len, |tree|) && Nodes(h, len, |depth|) && 1 <= k <= pos <= len
    requires Sifting(h, len, k, pos, tree, depth)
    requires 2 <= j <= len && j / 2 == pos
    requires forall i :: 2 <= i <= len && i / 2 == pos ==> Smaller(tree, depth, h[j], h[i])
    requires !Smaller(tree, depth, h[pos], h[j])
    ensures Sifting(h[pos := h[j]][j := h[pos]], len, k, j, tree, depth)
  {
    var g := h[pos := h[j]][j := h[pos]];
    forall i | 2 <= i <= len && i / 2 >= k && i / 2 != j ensures Edge(g, tree, depth, i) {
      if i / 2 != pos {
        assert Edge(h, tree, depth, i);
      }
    }
    forall i | 2 <= i <= len && i / 2 == j ensures Smaller(tree, depth, g[pos], g[i]) {
      assert Edge(h, tree, depth, i);
    }
  }

  lemma SiftDone(h: seq<nat>, len: nat, k: nat, pos: nat, tree: seq<CtData>, depth: seq<nat>)
    requires Nodes(h, len, |tree|) && Nodes(h, len, |depth|) && 1 <= k <= pos <= len
    requires Sifting(h, len, k, pos, tree, depth)
    requires forall i :: 2 <= i <= len && i / 2 == pos ==> Smaller(tree, depth, h[pos], h[i])
    ensures HeapFrom(h, len, k, tree, depth)
  {
  }

  // Let the node at position k sink until no son is smaller.
  method PqDownHeap(heap: array<nat>, heap_len: nat, tree: array<CtData>, depth: array<nat>, k: nat)
    requires heap != depth
    requires Nodes(heap[..], heap_len, tree.Length) && Nodes(heap[..], heap_len, depth.Length)
    requires 1 <= k <= heap_len && Distinct(heap[..], heap_len)
    requires HeapFrom(heap[..], heap_len, k + 1, tree[..], depth[..])
    modifies heap
    ensures Nodes(heap[..], heap_len, tree.Length) && Nodes(heap[..], heap_len, depth.Length)
    ensures HeapFrom(heap[..], heap_len, k, tree[..], depth[..])
    ensures Distinct(heap[..], heap_len) && Members(heap[..], heap_len) == old(Members(heap[..], heap_len))
    ensures forall i :: 0 <= i < k || heap_len < i < heap.Length ==> heap[i] == old(heap[i])
  {
    hide Smaller, Sifting, HeapFrom, Distinct, Members;
    var v := heap[k];
    var pos := k;
    var j := 2 * k;
    ghost var h := heap[..];
    SiftStart(h, heap_len, k, tree[..], depth[..]);
    while j <= heap_len
      invariant 1 <= k <= pos <= heap_len && j == 2 * pos
      invariant |h| == heap.Length && h[pos] == v && forall i :: 0 <= i < heap.Length && i != pos ==> heap[i] == h[i]
      invariant Nodes(h, heap_len, tree.Length) && Nodes(h, heap_len, depth.Length)
      invariant Distinct(h, heap_len) && Members(h, heap_len) == old(Members(heap[..], heap_len))
      invariant Sifting(h, heap_len, k, pos, tree[..], depth[..])
      invariant forall i :: 0 <= i < k || heap_len < i < heap.Length ==> heap[i] == old(heap[i])
      decreases heap_len - pos
    {
      // j becomes the smaller son
      if j < heap_len && Smaller(tree[..], depth[..], heap[j + 1], heap[j]) {
        j := j + 1;
      }
      SmallestSon(h, heap_len, pos, j, tree[..], depth[..]);
      if Smaller(tree[..], depth[..], v, heap[j]) {
        SonsLarger(h, heap_len, pos, j, tree[..], depth[..]);
        break;
      }
      SiftStep(h, heap_len, k, pos, j, tree[..], depth[..]);
      SwapMembers(h, heap_len, pos, j);
      h := h[pos := h[j]][j := h[pos]];
      heap[pos] := heap[j];
      pos := j;
      j := 2 * j;
    }
    SiftDone(h, heap_len, k, pos, tree[..], depth[..]);
    heap[pos] := v;
    assert heap[..] == h;
  }

  lemma SiftStart(h: seq<nat>, len: nat, k: nat, tree: seq<CtData>, depth: seq<nat>)
    requires Nodes(h, len, |tree|) && Nodes(h, len, |depth|) && 1 <= k <= len
    requires HeapFrom(h, len, k + 1, tree, depth)
    ensures Sifting(h, len, k, k, tree, depth)
  {
    hide Smaller;
  }

  lemma SmallestSon(h: seq<nat>, len: nat, pos: nat, j: nat, tree: seq<CtData>, depth: seq<nat>)
    requires Nodes(h, len, |tree|) && Nodes(h, len, |depth|)
    requires 1 <= pos && 2 * pos <= j <= 2 * pos + 1 && j <= len
    requires j == 2 * pos ==> (j < len ==> !Smaller(tree, depth, h[j + 1], h[j]))
    requires j == 2 * pos + 1 ==> Smaller(tree, depth, h[j], h[j - 1])
    ensures j / 2 == pos && forall i :: 2 <= i <= len && i / 2 == pos ==> Smaller(tree, depth, h[j], h[i])
  {
    forall i | 2 <= i <= len && i / 2 == pos ensures Smaller(tree, depth, h[j], h[i]) {
      assert i == 2 * pos || i == 2 * pos + 1;
    }
  }

  lemma SonsLarger(h: seq<nat>, len: nat, pos: nat, j: nat, tree: seq<CtData>, depth: seq<nat>)
    requires Nodes(h, len, |tree|) && Nodes(h, len, |depth|) && 1 <= pos <= len && 2 <= j <= len
    requires forall i :: 2 <= i <= len && i / 2 == pos ==> Smaller(tree, depth, h[j], h[i])
    requires Smaller(tree, depth, h[pos], h[j])
    ensures forall i :: 2 <= i <= len && i / 2 == pos ==> Smaller(tree, depth, h[pos], h[i])
  {
  }
}
