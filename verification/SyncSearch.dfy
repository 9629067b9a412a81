// inflate.c: syncsearch(), the search for the four bytes that end an empty
// stored block, in data that comes in pieces.
module SyncSearch {
  import opened BitWriter

  const PATTERN: seq<byte> := [0, 0, 0xff, 0xff]

  function PatternAt(k: nat): byte {
    if k < 2 then 0 else 0xff
  }

  // The data end with the first k bytes of the pattern.
  predicate EndsWith(data: seq<byte>, k: nat)
    requires k <= 4
  {
    k <= |data| && data[|data| - k..] == PATTERN[..k]
  }

  // No more of the pattern than its first k bytes ends the data.
  ghost predicate Longest(data: seq<byte>, k: nat) {
    k <= 4 && EndsWith(data, k) && forall j :: k < j <= 4 ==> !EndsWith(data, j)
  }

  // The pattern occurs nowhere in the data.
  ghost predicate Absent(data: seq<byte>) {
    forall n :: 0 <= n <= |data| ==> !EndsWith(data[..n], 4)
  }

  // How much of the pattern has been found after one more byte.
  function Next(got: nat, b: byte): nat {
    if b == PatternAt(got) then got + 1
    else if b != 0 then 0
    else if got <= 4 then 4 - got else 0
  }

  lemma EndsWithMore(data: seq<byte>, b: byte, k: nat)
    requires k < 4
    ensures EndsWith(data + [b], k + 1) <==> EndsWith(data, k) && b == PatternAt(k)
  {
    if k <= |data| {
      var more := data + [b];
      assert more[|more| - (k + 1)..] == data[|data| - k..] + [b];
      assert PATTERN[..k + 1] == PATTERN[..k] + [PATTERN[k]];
      var x, y := data[|data| - k..], PATTERN[..k];
      if x + [b] == y + [PATTERN[k]] {
        assert x == (x + [b])[..k] == (y + [PATTERN[k]])[..k] == y;
        assert b == (x + [b])[k] == (y + [PATTERN[k]])[k] == PATTERN[k];
      }
    }
  }

  // The parts of the pattern that end in another part of it.
  lemma Borders(data: seq<byte>, k: nat)
    requires k < 4 && EndsWith(data, k)
    ensures EndsWith(data, 0)
    ensures k == 2 ==> EndsWith(data, 1)
    ensures k == 3 ==> !EndsWith(data, 1) && !EndsWith(data, 2)
  {
    var n := |data|;
    if k >= 1 {
      assert data[n - 1] == data[n - k..][k - 1] == PATTERN[k - 1];
      assert EndsWith(data, 1) ==> data[n - 1] == data[n - 1..][0] == PATTERN[0];
      assert n >= 2 && EndsWith(data, 2) ==> data[n - 1] == data[n - 2..][1] == PATTERN[1];
      assert data[n - 1..] == [data[n - 1]] && PATTERN[..1] == [PATTERN[0]];
    }
  }

  // One step of the search keeps track of the longest part found.
  lemma StepLongest(data: seq<byte>, got: nat, b: byte)
    requires got < 4 && Longest(data, got)
    ensures Next(got, b) <= 4 && Longest(data + [b], Next(got, b))
  {
    hide EndsWith;
    Borders(data, got);
    Borders0(data + [b]);
    EndsWithMore(data, b, 0);
    EndsWithMore(data, b, 1);
    EndsWithMore(data, b, 2);
    EndsWithMore(data, b, 3);
    LongestIs(data + [b], Next(got, b));
  }

  lemma Borders0(data: seq<byte>)
    ensures EndsWith(data, 0)
  {
  }

  lemma LongestIs(data: seq<byte>, k: nat)
    requires k <= 4 && EndsWith(data, k)
    requires k < 1 ==> !EndsWith(data, 1)
    requires k < 2 ==> !EndsWith(data, 2)
    requires k < 3 ==> !EndsWith(data, 3)
    requires k < 4 ==> !EndsWith(data, 4)
    ensures Longest(data, k)
  {
    hide EndsWith;
  }

  lemma AbsentMore(data: seq<byte>, b: byte)
    requires Absent(data) && !EndsWith(data + [b], 4)
    ensures Absent(data + [b])
  {
    var more := data + [b];
    forall n | 0 <= n <= |more| ensures !EndsWith(more[..n], 4) {
      if n <= |data| {
        assert more[..n] == data[..n];
      } else {
        assert more[..n] == more;
      }
    }
  }

  // Search buf for the pattern, or the rest of it after have bytes found in
  // past. have == 4 says that it was found, after next bytes of buf; else next
  // is the length of buf, and have how much of the pattern ends the data.
  method SyncSearch(have0: nat, buf: seq<byte>, ghost past: seq<byte>) returns (have: nat, next: nat)
    requires have0 < 4 && Longest(past, have0) && Absent(past)
    ensures next <= |buf| && Longest(past + buf[..next], have)
    ensures have < 4 ==> next == |buf| && Absent(past + buf)
    ensures have == 4 ==> next > 0 && Absent(past + buf[..next - 1])
  {
    hide EndsWith;
    var got := have0;
    next := 0;
    assert past + buf[..0] == past;
    while next < |buf| && got < 4
      invariant next <= |buf| && got <= 4 && Longest(past + buf[..next], got)
      invariant got < 4 ==> Absent(past + buf[..next])
      invariant got == 4 ==> next > 0 && Absent(past + buf[..next - 1])
    {
      ghost var before := past + buf[..next];
      StepLongest(before, got, buf[next]);
      assert past + buf[..next + 1] == before + [buf[next]];
      got := Next(got, buf[next]);
      if got < 4 { AbsentMore(before, buf[next]); }
      next := next + 1;
    }
    have := got;
    assert buf[..|buf|] == buf;
  }
}
