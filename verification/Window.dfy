// inflate.c: the circular window of the last output, for matches that reach
// back beyond the output of the current call.
module Window {
  import opened BitWriter

  function Min(a: nat, b: nat): nat {
    if a <= b then a else b
  }

  // Where the byte that was written k bytes ago is.
  function BackAt(size: nat, wnext: nat, k: nat): nat
    requires 1 <= k <= size && wnext < size
  {
    if k <= wnext then wnext - k else size + wnext - k
  }

  // The window ends with the last bytes of hist, as many as fit in it.
  ghost predicate Holds(window: seq<byte>, whave: nat, wnext: nat, hist: seq<byte>) {
    && |window| >= 1 && wnext < |window| && whave == Min(|hist|, |window|)
    && (whave < |window| ==> wnext == whave)
    && forall k :: 1 <= k <= whave ==> window[BackAt(|window|, wnext, k)] == hist[|hist| - k]
  }

  // Overwrite part of a sequence, as zmemcpy() does.
  function Patch(s: seq<byte>, at: nat, data: seq<byte>): (r: seq<byte>)
    requires at + |data| <= |s|
    ensures |r| == |s| && forall i :: 0 <= i < |s| ==> r[i] == if at <= i < at + |data| then data[i - at] else s[i]
  {
    s[..at] + data + s[at + |data|..]
  }

  // The whole window replaced by the end of the new data.
  lemma HoldsWhole(window: seq<byte>, hist: seq<byte>, data: seq<byte>)
    requires 1 <= |window| <= |data|
    ensures Holds(data[|data| - |window|..], |window|, 0, hist + data)
  {
  }

  // New data that fits before the end of the window.
  lemma HoldsMore(window: seq<byte>, whave: nat, wnext: nat, hist: seq<byte>, data: seq<byte>)
    requires Holds(window, whave, wnext, hist) && wnext + |data| <= |window| && |data| < |window|
    ensures Holds(Patch(window, wnext, data), if whave < |window| then whave + |data| else whave,
                  if wnext + |data| == |window| then 0 else wnext + |data|, hist + data)
  {
    var n, d, h := |window|, |data|, hist + data;
    var w2, next2 := Patch(window, wnext, data), if wnext + d == n then 0 else wnext + d;
    forall k | 1 <= k <= Min(|h|, n) ensures w2[BackAt(n, next2, k)] == h[|h| - k] {
      if k <= d {
        assert BackAt(n, next2, k) == wnext + d - k;
      } else {
        assert BackAt(n, next2, k) == BackAt(n, wnext, k - d);
        assert window[BackAt(n, wnext, k - d)] == hist[|hist| - (k - d)];
      }
    }
  }

  // New data that wraps around the end of the window.
  lemma HoldsWrapped(window: seq<byte>, whave: nat, wnext: nat, hist: seq<byte>, data: seq<byte>)
    requires Holds(window, whave, wnext, hist) && |data| < |window| < wnext + |data|
    ensures var d := |window| - wnext;
      Holds(Patch(Patch(window, wnext, data[..d]), 0, data[d..]), |window|, |data| - d, hist + data)
  {
    var n, m, h := |window|, |data|, hist + data;
    var d := n - wnext;
    var w2, next2 := Patch(Patch(window, wnext, data[..d]), 0, data[d..]), m - d;
    forall k | 1 <= k <= n ensures w2[BackAt(n, next2, k)] == h[|h| - k] {
      if k <= m {
        assert h[|h| - k] == data[m - k];
      } else {
        assert BackAt(n, next2, k) == BackAt(n, wnext, k - m);
        assert window[BackAt(n, wnext, k - m)] == hist[|hist| - (k - m)];
      }
    }
  }

  lemma HoldsBounds(window: seq<byte>, whave: nat, wnext: nat, hist: seq<byte>)
    requires Holds(window, whave, wnext, hist)
    ensures wnext < |window| && whave <= |window| && (whave < |window| ==> wnext == whave)
  {
  }

  lemma PatchAll(s: seq<byte>, data: seq<byte>)
    requires |data| == |s|
    ensures Patch(s, 0, data) == data
  {
  }

  method CopyInto(a: array<byte>, at: nat, data: seq<byte>)
    requires at + |data| <= a.Length
    modifies a
    ensures a[..] == Patch(old(a[..]), at, data)
  {
    var i := 0;
    while i < |data|
      invariant 0 <= i <= |data|
      invariant forall j :: 0 <= j < a.Length ==> a[j] == if at <= j < at + i then data[j - at] else old(a[j])
    {
      a[at + i] := data[i];
      i := i + 1;
    }
  }

  class Window {
    const window: array<byte>
    // The window's size, or zero when it is not in use yet.
    var wsize: nat
    var whave: nat
    var wnext: nat

    // The window for the output hist.
    ghost predicate Valid(hist: seq<byte>)
      reads this, window
    {
      && window.Length >= 1 && (wsize == 0 || wsize == window.Length)
      && (wsize == 0 ==> hist == [] && whave == wnext == 0)
      && Holds(window[..], whave, wnext, hist)
    }

    constructor (size: nat)
      requires size >= 1
      ensures Valid([]) && window.Length == size && fresh(window)
    {
      window := new byte[size];
      wsize, whave, wnext := 0, 0, 0;
    }

    // Append the output of a call to the window.
    method UpdateWindow(data: seq<byte>, ghost hist: seq<byte>)
      requires Valid(hist)
      modifies this, window
      ensures Valid(hist + data) && wsize == window.Length
    {
      hide Holds, Patch;
      HoldsBounds(window[..], whave, wnext, hist);
      // the first output of all
      if wsize == 0 {
        wsize, wnext, whave := window.Length, 0, 0;
      }
      var copy := |data|;
      ghost var w0 := window[..];
      if copy >= wsize {
        HoldsWhole(w0, hist, data);
        PatchAll(w0, data[copy - wsize..]);
        CopyInto(window, 0, data[copy - wsize..]);
        wnext, whave := 0, wsize;
      } else {
        var dist := wsize - wnext;
        if dist > copy { dist := copy; }
        CopyInto(window, wnext, data[..dist]);
        copy := copy - dist;
        if copy != 0 {
          HoldsWrapped(w0, whave, wnext, hist, data);
          CopyInto(window, 0, data[dist..]);
          wnext, whave := copy, wsize;
        } else {
          HoldsMore(w0, whave, wnext, hist, data);
          assert data[..dist] == data;
          wnext := wnext + dist;
          if wnext == wsize { wnext := 0; }
          if whave < wsize { whave := whave + dist; }
        }
      }
    }

    // inflateGetDictionary(): the window in the order in which it was written,
    // which is the end of all output.
    method GetDictionary(ghost hist: seq<byte>) returns (dict: seq<byte>)
      requires Valid(hist)
      ensures dict == hist[|hist| - whave..] && |dict| == Min(|hist|, window.Length)
    {
      dict := [];
      if whave != 0 {
        dict := window[wnext..wnext + (whave - wnext)] + window[..wnext];
      }
      forall i | 0 <= i < whave ensures dict[i] == hist[|hist| - whave + i] {
        var k := whave - i;
        assert window[BackAt(window.Length, wnext, k)] == hist[|hist| - k];
      }
    }
  }
}
