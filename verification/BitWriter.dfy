// trees.c: the bit buffer of the compressor, in front of its pending output.
module BitWriter {
  import opened Bits

  type byte = x: int | 0 <= x < 256

  const BUF_SIZE: nat := 16

  // The bits of a byte sequence, in stream order.
  function BytesBits(s: seq<byte>): (b: seq<bool>)
    ensures |b| == 8 * |s|
  {
    if s == [] then [] else BytesBits(s[..|s| - 1]) + BitsOf(s[|s| - 1], 8)
  }

  lemma {:induction false} BytesBitsConcat(s: seq<byte>, t: seq<byte>)
    ensures BytesBits(s + t) == BytesBits(s) + BytesBits(t)
  {
    hide BitsOf;
    if t == [] {
      assert s + t == s;
    } else {
      assert (s + t)[..|s + t| - 1] == s + t[..|t| - 1];
      BytesBitsConcat(s, t[..|t| - 1]);
    }
  }

  // Two bytes hold the bits of a 16-bit number, low byte first.
  lemma ShortBits(w: nat)
    requires w < 65536
    ensures Low(w, 8) < 256 && Shr(w, 8) < 256
    ensures BytesBits([Low(w, 8), Shr(w, 8)]) == BitsOf(w, 16)
  {
    Pow2Values();
    Compose(w, 8);
    ShrBound(w, 8, 8);
    BitsOfSplit(w, 8, 8);
    BitsOfLow(w, 8);
    var s: seq<byte> := [Low(w, 8), Shr(w, 8)];
    assert s[..1] == [s[0]] && [s[0]][..0] == [];
    assert BytesBits([s[0]]) == BytesBits([]) + BitsOf(s[0], 8);
  }

  // Only the bytes from lo up to hi have changed.
  ghost predicate Kept(before: seq<byte>, after: seq<byte>, lo: nat, hi: nat) {
    |after| == |before| && forall i :: 0 <= i < |after| && (i < lo || hi <= i) ==> after[i] == before[i]
  }

  class BitWriter {
    const buf: array<byte>
    var pending: nat
    // Bits not yet in buf, from the bottom up; those above bi_valid are zero.
    var bi_buf: nat
    var bi_valid: nat

    ghost predicate Valid()
      reads this
    {
      pending <= buf.Length && bi_valid <= BUF_SIZE && bi_buf < Pow2(bi_valid)
    }

    // Everything sent so far.
    ghost function Written(): seq<bool>
      requires Valid()
      reads this, buf
    {
      BytesBits(buf[..pending]) + BitsOf(bi_buf, bi_valid)
    }

    // The number of bits sent so far.
    ghost function Sent(): nat
      reads this
    {
      8 * pending + bi_valid
    }

    constructor (buffer: array<byte>)
      ensures Valid() && buf == buffer && Sent() == 0 && Written() == []
    {
      buf := buffer;
      pending, bi_buf, bi_valid := 0, 0, 0;
    }

    method PutByte(c: byte)
      requires pending < buf.Length
      modifies this`pending, buf
      ensures pending == old(pending) + 1
      ensures buf[..pending] == old(buf[..pending]) + [c]
      ensures Kept(old(buf[..]), buf[..], old(pending), pending)
    {
      buf[pending] := c;
      pending := pending + 1;
    }

    // Put two bytes behind the pending ones, the low one first.
    method PutShort(w: nat)
      requires w < 65536 && pending + 2 <= buf.Length
      modifies this`pending, buf
      ensures pending == old(pending) + 2
      ensures BytesBits(buf[..pending]) == BytesBits(old(buf[..pending])) + BitsOf(w, 16)
      ensures old(pending) <= pending && Kept(old(buf[..]), buf[..], old(pending), pending)
    {
      hide Low, Shr, BitsOf, BytesBits;
      ShortBits(w);
      var lo: byte, hi: byte := Low(w, 8), Shr(w, 8);
      PutByte(lo);
      PutByte(hi);
      assert buf[..pending] == old(buf[..pending]) + [lo, hi];
      BytesBitsConcat(old(buf[..pending]), [lo, hi]);
    }

    // Append the length low bits of value to what was written. Above the valid
    // bits bi_buf is zero, so that or-ing the new ones in adds them.
    method SendBits(value: nat, length: nat)
      requires Valid() && length <= BUF_SIZE && value < Pow2(length)
      requires Sent() + length <= 8 * buf.Length
      modifies this, buf
      ensures Valid() && Sent() == old(Sent()) + length
      ensures Written() == old(Written()) + BitsOf(value, length)
      ensures old(pending) <= pending && Kept(old(buf[..]), buf[..], old(pending), pending)
    {
      hide Low, Shr, Shl, BitsOf, BytesBits;
      JoinBits(bi_buf, bi_valid, value, length);
      ghost var before, sent := BytesBits(buf[..pending]), BitsOf(bi_buf, bi_valid);
      if bi_valid > BUF_SIZE - length {
        CutBits(bi_buf, bi_valid, value, length);
        bi_buf := Low(bi_buf + Shl(value, bi_valid), BUF_SIZE);
        PutShort(bi_buf);
        assert before + (sent + BitsOf(value, length)) == (before + sent) + BitsOf(value, length);
        assert before + (BitsOf(bi_buf, 16) + BitsOf(Shr(value, BUF_SIZE - bi_valid), bi_valid + length - BUF_SIZE))
            == before + BitsOf(bi_buf, 16) + BitsOf(Shr(value, BUF_SIZE - bi_valid), bi_valid + length - BUF_SIZE);
        bi_buf := Shr(value, BUF_SIZE - bi_valid);
        bi_valid := bi_valid + length - BUF_SIZE;
      } else {
        assert before + (sent + BitsOf(value, length)) == (before + sent) + BitsOf(value, length);
        bi_buf := bi_buf + Shl(value, bi_valid);
        bi_valid := bi_valid + length;
      }
    }

    // Move all whole bytes of the bit buffer to the pending output.
    method BiFlush()
      requires Valid() && Sent() <= 8 * buf.Length
      modifies this, buf
      ensures Valid() && bi_valid <= 7 && Sent() == old(Sent()) && Written() == old(Written())
      ensures old(pending) <= pending && Kept(old(buf[..]), buf[..], old(pending), pending)
    {
      hide Low, Shr, BitsOf, BytesBits, Pow2;
      if bi_valid == 16 {
        Pow2Values();
        PutShort(bi_buf);
        bi_buf, bi_valid := 0, 0;
      } else if bi_valid >= 8 {
        FlushByte(bi_buf, bi_valid);
        ghost var before, low, rest := BytesBits(buf[..pending]), BytesBits([Low(bi_buf, 8)]), BitsOf(Shr(bi_buf, 8), bi_valid - 8);
        assert before + (low + rest) == (before + low) + rest;
        PutByte(Low(bi_buf, 8));
        BytesBitsConcat(old(buf[..pending]), [Low(bi_buf, 8)]);
        bi_buf := Shr(bi_buf, 8);
        bi_valid := bi_valid - 8;
      }
    }

    // Empty the bit buffer, filling its last byte up with zeros.
    method BiWindup()
      requires Valid() && Sent() + 7 <= 8 * buf.Length
      modifies this, buf
      ensures Valid() && bi_valid == 0
      ensures Sent() == old(Sent()) + Padding(old(Sent()))
      ensures Written() == old(Written()) + BitsOf(0, Padding(old(Sent())))
      ensures old(pending) <= pending && Kept(old(buf[..]), buf[..], old(pending), pending)
    {
      hide BitsOf, BytesBits, Pow2, Low, Shr;
      ghost var before, sent, pad := BytesBits(buf[..pending]), BitsOf(bi_buf, bi_valid), Padding(Sent());
      assert before + (sent + BitsOf(0, pad)) == (before + sent) + BitsOf(0, pad);
      Pow2Values();
      PadBits(bi_buf, bi_valid, pad);
      Pow2Mono(bi_valid, bi_valid + pad);
      PadSize(pending, bi_valid);
      if bi_valid == 0 { assert BitsOf(bi_buf, bi_valid) == []; }
      hide Padding;
      if bi_valid > 8 {
        PutShort(bi_buf);
      } else if bi_valid > 0 {
        PutByte(bi_buf);
        BytesBitsConcat(old(buf[..pending]), [bi_buf]);
        ByteBits(bi_buf);
      }
      bi_buf, bi_valid := 0, 0;
      assert Written() == BytesBits(buf[..pending]);
    }
  }

  // How many bits it takes to get from n to a byte boundary.
  function Padding(n: nat): nat {
    (8 - n % 8) % 8
  }

  lemma ByteBits(c: byte)
    ensures BytesBits([c]) == BitsOf(c, 8)
  {
    assert [c][..0] == [];
    assert BytesBits([c]) == BytesBits([]) + BitsOf(c, 8);
  }

  lemma PadSize(n: nat, k: nat)
    requires k <= 16
    ensures Padding(8 * n + k) == if k > 8 then 16 - k else if k > 0 then 8 - k else 0
  {
  }

  lemma PadBits(v: nat, n: nat, pad: nat)
    requires v < Pow2(n)
    ensures BitsOf(v, n + pad) == BitsOf(v, n) + BitsOf(0, pad)
  {
    BitsOfSplit(v, n, pad);
    LowSmall(v, n);
  }

  lemma FlushByte(v: nat, n: nat)
    requires 8 <= n && v < Pow2(n)
    ensures Low(v, 8) < 256 && Shr(v, 8) < Pow2(n - 8)
    ensures BytesBits([Low(v, 8)]) + BitsOf(Shr(v, 8), n - 8) == BitsOf(v, n)
  {
    Pow2Values();
    hide Pow2, BitsOf, BytesBits, Shl, Low, Shr;
    Compose(v, 8);
    ShrBound(v, 8, n - 8);
    BitsOfSplit(v, 8, n - 8);
    BitsOfLow(v, 8);
    ByteBits(Low(v, 8));
  }

  // Where the bits of value go when valid bits are already held in buf.
  lemma JoinBits(buf: nat, valid: nat, value: nat, length: nat)
    requires buf < Pow2(valid) && value < Pow2(length)
    ensures BitsOf(buf, valid) + BitsOf(value, length) == BitsOf(buf + Shl(value, valid), valid + length)
    ensures buf + Shl(value, valid) < Pow2(valid + length)
  {
    var w := buf + Shl(value, valid);
    LowSmall(buf, valid);
    LowPlusShl(buf, value, valid);
    BitsOfSplit(w, valid, length);
    BitsOfLow(w, valid);
    ShlMono(value, Pow2(length), valid);
    ShlPow2(length, valid);
  }

  lemma CutBits(buf: nat, valid: nat, value: nat, length: nat)
    requires valid <= BUF_SIZE < valid + length && buf < Pow2(valid) && value < Pow2(length)
    ensures var w := buf + Shl(value, valid);
      && Low(w, BUF_SIZE) < 65536
      && Shr(value, BUF_SIZE - valid) < Pow2(valid + length - BUF_SIZE)
      && BitsOf(w, valid + length)
         == BitsOf(Low(w, BUF_SIZE), BUF_SIZE) + BitsOf(Shr(value, BUF_SIZE - valid), valid + length - BUF_SIZE)
  {
    var w := buf + Shl(value, valid);
    Pow2Values();
    Compose(w, BUF_SIZE);
    ShrBound(value, BUF_SIZE - valid, valid + length - BUF_SIZE);
    BitsOfSplit(w, BUF_SIZE, valid + length - BUF_SIZE);
    BitsOfLow(w, BUF_SIZE);
    hide BitsOf, Pow2;
    ShrShr(w, valid, BUF_SIZE - valid);
    LowPlusShl(buf, value, valid);
    assert Shr(buf, valid) == 0 by { LowSmall(buf, valid); }
  }
}
