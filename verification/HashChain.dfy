// deflate.c: the hash chains. Positions in the window are moved down when the
// window slides; counted from the start of the data they stay what they are.
module HashChain {
  import opened Bits
  import opened BitWriter
  import opened Hash

  function HashAt(data: seq<byte>, a: nat, hash_bits: nat): nat
    requires a + 3 <= |data|
  {
    Hash3(data[a], data[a + 1], data[a + 2], hash_bits)
  }

  // The hash is ready to take the third byte of the string at place a.
  ghost predicate Rolling(ins_h: nat, data: seq<byte>, a: nat, hash_bits: nat) {
    a + 3 <= |data| ==> Rest(ins_h, hash_bits) == Rest(Hash2(data[a], data[a + 1], hash_bits), hash_bits)
  }

  // The entry of prev for a place: the place without the bits above w_mask.
  function Slot(a: nat, w: nat): (k: nat)
    requires w > 0
    ensures k < w
  {
    if a < w then a else Slot(a - w, w)
  }

  // The window slides by w, so that positions keep their entries.
  lemma {:induction false} SlotMoved(base: nat, p: nat, w: nat)
    requires w > 0 && Slot(base, w) == 0
    ensures Slot(base + p, w) == Slot(p, w) && Slot(base + w, w) == 0
    decreases base
  {
    if base >= w { SlotMoved(base - w, p, w); }
  }

  lemma {:induction false} SlotsDiffer(a: nat, p: nat, w: nat)
    requires w > 0 && a < p < a + w
    ensures Slot(a, w) != Slot(p, w)
    decreases a
  {
    if a >= w {
      SlotsDiffer(a - w, p - w, w);
    } else if p >= w {
      assert Slot(p, w) == p - w;
    }
  }

  // A window position q stands for an inserted place before limit whose string
  // has hash h.
  ghost predicate LeadsTo(q: nat, h: nat, limit: nat, data: seq<byte>, base: nat, ins: set<nat>, hash_bits: nat) {
    base + q in ins && base + q < limit && base + q + 3 <= |data| && HashAt(data, base + q, hash_bits) == h
  }

  // An inserted place before limit, not the first of the window, whose string
  // has hash h.
  ghost predicate Candidate(b: nat, h: nat, limit: nat, data: seq<byte>, base: nat, hash_bits: nat) {
    base < b < limit && b + 3 <= |data| && HashAt(data, b, hash_bits) == h
  }

  // Window position q is the last place before limit with hash h; it is zero
  // only if there is none.
  ghost predicate Latest(q: nat, h: nat, limit: nat, data: seq<byte>, base: nat, ins: set<nat>, hash_bits: nat) {
    && (q > 0 ==> LeadsTo(q, h, limit, data, base, ins, hash_bits))
    && forall b :: b in ins && Candidate(b, h, limit, data, base, hash_bits) ==> q > 0 && b <= base + q
  }

  ghost predicate HeadsOk(head: seq<nat>, data: seq<byte>, base: nat, ins: set<nat>, top: nat, hash_bits: nat) {
    |head| == Pow2(hash_bits) && forall h :: 0 <= h < |head| ==> Latest(head[h], h, top, data, base, ins, hash_bits)
  }

  ghost predicate PrevsOk(prev: seq<nat>, data: seq<byte>, base: nat, ins: set<nat>, top: nat, w: nat, hash_bits: nat) {
    && w > 0 && |prev| == w && (forall a :: a in ins ==> a < top && a + 3 <= |data|)
    && forall a :: a in ins && a >= base && a + w >= top ==>
      Latest(prev[Slot(a, w)], HashAt(data, a, hash_bits), a, data, base, ins, hash_bits)
  }

  // From the head of a chain, and from every entry within reach of the next
  // place top to insert, a chain leads to the last older string with the same
  // hash: it misses none, and never goes forward.
  ghost predicate Chained(head: seq<nat>, prev: seq<nat>, data: seq<byte>, base: nat, ins: set<nat>, top: nat, w: nat,
                          hash_bits: nat)
  {
    HeadsOk(head, data, base, ins, top, hash_bits) && PrevsOk(prev, data, base, ins, top, w, hash_bits)
  }

  lemma NoChains(head: seq<nat>, prev: seq<nat>, w: nat, hash_bits: nat)
    requires |head| == Pow2(hash_bits) && w > 0 && |prev| == w && forall h :: 0 <= h < |head| ==> head[h] == 0
    ensures Chained(head, prev, [], 0, {}, 0, w, hash_bits)
  {
  }

  // More data does no harm.
  lemma LatestKept(q: nat, h: nat, limit: nat, data: seq<byte>, more: seq<byte>, base: nat, ins: set<nat>, hash_bits: nat)
    requires Latest(q, h, limit, data, base, ins, hash_bits) && forall a :: a in ins ==> a + 3 <= |data|
    ensures Latest(q, h, limit, data + more, base, ins, hash_bits)
  {
    hide Hash3;
    forall b | b in ins && Candidate(b, h, limit, data + more, base, hash_bits) ensures q > 0 && b <= base + q {
      assert Candidate(b, h, limit, data, base, hash_bits);
    }
  }

  lemma ChainsKept(head: seq<nat>, prev: seq<nat>, data: seq<byte>, more: seq<byte>, base: nat, ins: set<nat>, top: nat, w: nat,
                   hash_bits: nat)
    requires Chained(head, prev, data, base, ins, top, w, hash_bits)
    ensures Chained(head, prev, data + more, base, ins, top, w, hash_bits)
  {
    hide Hash3, Slot, Latest;
    forall h | 0 <= h < |head| ensures Latest(head[h], h, top, data + more, base, ins, hash_bits) {
      LatestKept(head[h], h, top, data, more, base, ins, hash_bits);
    }
    forall a | a in ins && a >= base && a + w >= top
      ensures Latest(prev[Slot(a, w)], HashAt(data + more, a, hash_bits), a, data + more, base, ins, hash_bits)
    {
      LatestKept(prev[Slot(a, w)], HashAt(data, a, hash_bits), a, data, more, base, ins, hash_bits);
    }
  }

  // One more place is of no concern to those before it, nor to another hash.
  lemma LatestPlus(q: nat, h: nat, limit: nat, limit2: nat, data: seq<byte>, base: nat, ins: set<nat>, p: nat, hash_bits: nat)
    requires Latest(q, h, limit, data, base, ins, hash_bits) && limit <= limit2 && p + 3 <= |data|
    requires forall a :: a in ins ==> a < limit || limit == limit2
    requires limit2 <= p || HashAt(data, p, hash_bits) != h
    ensures Latest(q, h, limit2, data, base, ins + {p}, hash_bits)
  {
    hide Hash3;
    forall b | b in ins + {p} && Candidate(b, h, limit2, data, base, hash_bits) ensures q > 0 && b <= base + q {
      assert Candidate(b, h, limit, data, base, hash_bits);
    }
  }

  // Inserting the string at position str.
  lemma ChainsInsert(head: seq<nat>, prev: seq<nat>, data: seq<byte>, base: nat, ins: set<nat>, top: nat, w: nat,
                     hash_bits: nat, str: nat)
    requires Chained(head, prev, data, base, ins, top, w, hash_bits) && top <= base + str && base + str + 3 <= |data|
    requires HashAt(data, base + str, hash_bits) < Pow2(hash_bits)
    ensures var h := HashAt(data, base + str, hash_bits);
      && Chained(head[h := str], prev[Slot(base + str, w) := head[h]], data, base, ins + {base + str}, base + str + 1, w, hash_bits)
      && Latest(head[h], h, base + str, data, base, ins + {base + str}, hash_bits)
  {
    hide Hash3, Slot, Pow2, Latest;
    var h, p, ins2 := HashAt(data, base + str, hash_bits), base + str, ins + {base + str};
    var head2, prev2 := head[h := str], prev[Slot(p, w) := head[h]];
    LatestPlus(head[h], h, top, p, data, base, ins, p, hash_bits);
    forall g | 0 <= g < |head2| ensures Latest(head2[g], g, p + 1, data, base, ins2, hash_bits) {
      if g != h {
        LatestPlus(head[g], g, top, p + 1, data, base, ins, p, hash_bits);
      } else {
        LatestNew(h, data, base, ins2, str, hash_bits);
      }
    }
    forall a | a in ins2 && a >= base && a + w >= p + 1
      ensures Latest(prev2[Slot(a, w)], HashAt(data, a, hash_bits), a, data, base, ins2, hash_bits)
    {
      if a != p {
        SlotsDiffer(a, p, w);
        LatestPlus(prev[Slot(a, w)], HashAt(data, a, hash_bits), a, a, data, base, ins, p, hash_bits);
      }
    }
  }

  lemma LatestNew(h: nat, data: seq<byte>, base: nat, ins: set<nat>, str: nat, hash_bits: nat)
    requires base + str in ins && base + str + 3 <= |data| && HashAt(data, base + str, hash_bits) == h
    ensures Latest(str, h, base + str + 1, data, base, ins, hash_bits)
  {
  }

  // ---- slide_hash() ----

  function Slid(m: nat, w: nat): nat {
    if m >= w then m - w else 0
  }

  ghost predicate AllSlid(s: seq<nat>, t: seq<nat>, w: nat) {
    |s| == |t| && forall i :: 0 <= i < |s| ==> t[i] == Slid(s[i], w)
  }

  lemma LatestSlides(q: nat, h: nat, limit: nat, data: seq<byte>, base: nat, ins: set<nat>, w: nat, hash_bits: nat)
    requires Latest(q, h, limit, data, base, ins, hash_bits)
    ensures Latest(Slid(q, w), h, limit, data, base + w, ins, hash_bits)
  {
    hide Hash3;
    forall b | b in ins && Candidate(b, h, limit, data, base + w, hash_bits) ensures Slid(q, w) > 0 && b <= base + w + Slid(q, w) {
      assert Candidate(b, h, limit, data, base, hash_bits);
    }
  }

  lemma ChainsSlide(head: seq<nat>, prev: seq<nat>, head2: seq<nat>, prev2: seq<nat>, data: seq<byte>, base: nat, ins: set<nat>,
                    top: nat, w: nat, hash_bits: nat)
    requires Chained(head, prev, data, base, ins, top, w, hash_bits) && AllSlid(head, head2, w) && AllSlid(prev, prev2, w)
    ensures Chained(head2, prev2, data, base + w, ins, top, w, hash_bits)
  {
    hide Hash3, Slot, Pow2, Latest;
    forall h | 0 <= h < |head2| ensures Latest(head2[h], h, top, data, base + w, ins, hash_bits) {
      LatestSlides(head[h], h, top, data, base, ins, w, hash_bits);
    }
    forall a | a in ins && a >= base + w && a + w >= top
      ensures Latest(prev2[Slot(a, w)], HashAt(data, a, hash_bits), a, data, base + w, ins, hash_bits)
    {
      LatestSlides(prev[Slot(a, w)], HashAt(data, a, hash_bits), a, data, base, ins, w, hash_bits);
    }
  }

  // The step along a chain: from an inserted place a within reach.
  lemma NextOnChain(head: seq<nat>, prev: seq<nat>, data: seq<byte>, base: nat, ins: set<nat>, top: nat, w: nat, hash_bits: nat,
                    cur: nat)
    requires Chained(head, prev, data, base, ins, top, w, hash_bits) && base + cur in ins && base + cur + w >= top
    requires Slot(base, w) == 0
    ensures base + cur + 3 <= |data|
    ensures Latest(prev[Slot(cur, w)], HashAt(data, base + cur, hash_bits), base + cur, data, base, ins, hash_bits)
  {
    hide Hash3, Slot, Pow2, Latest;
    SlotMoved(base, cur, w);
  }
}
