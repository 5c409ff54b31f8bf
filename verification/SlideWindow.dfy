/** The circular 32K window of inflate: literals, and copies at a distance back. */
module SlideWindow {

  const WSIZE: nat := 32768

  /** Repeating, len times, the byte `dist` back. */
  function CopyBack(hist: seq<nat>, dist: nat, len: nat): (r: seq<nat>)
    requires 1 <= dist <= |hist|
    ensures |r| == |hist| + len
    decreases len
  {
    if len == 0 then hist else CopyBack(hist + [hist[|hist| - dist]], dist, len - 1)
  }

  /** What copying adds: each new byte repeats the one `dist` earlier. */
  lemma {:induction false} CopyBackIs(hist: seq<nat>, dist: nat, len: nat)
    requires 1 <= dist <= |hist|
    ensures CopyBack(hist, dist, len)[..|hist|] == hist
    ensures forall j :: |hist| <= j < |hist| + len ==>
      CopyBack(hist, dist, len)[j] == CopyBack(hist, dist, len)[j - dist]
    decreases len
  {
    if len > 0 {
      var next := hist + [hist[|hist| - dist]];
      CopyBackIs(next, dist, len - 1);
      var r := CopyBack(hist, dist, len);
      assert r[..|next|] == next;
      assert r[..|hist|] == next[..|hist|] == hist;
      assert r[|hist|] == r[..|next|][|hist|] == next[|hist|];
      assert r[|hist| - dist] == r[..|next|][|hist| - dist] == hist[|hist| - dist];
    }
  }

  lemma {:induction false} CopyBackUnique(hist: seq<nat>, dist: nat, len: nat, r: seq<nat>)
    requires 1 <= dist <= |hist| && |r| == |hist| + len && r[..|hist|] == hist
    requires forall j :: |hist| <= j < |r| ==> r[j] == r[j - dist]
    ensures r == CopyBack(hist, dist, len)
    decreases len
  {
    if len > 0 {
      var next := hist + [hist[|hist| - dist]];
      assert r[|hist|] == r[|hist| - dist] == r[..|hist|][|hist| - dist];
      assert r[..|next|] == next;
      CopyBackUnique(next, dist, len - 1, r);
    } else {
      assert r == r[..|hist|];
    }
  }

  lemma {:induction false} CopyBackTwice(hist: seq<nat>, dist: nat, a: nat, b: nat)
    requires 1 <= dist <= |hist|
    ensures CopyBack(CopyBack(hist, dist, a), dist, b) == CopyBack(hist, dist, a + b)
    decreases a
  {
    if a > 0 {
      CopyBackTwice(hist + [hist[|hist| - dist]], dist, a - 1, b);
    }
  }

  /** Where the byte `dist` back from the end of the history is. */
  function SlotBack(wp: nat, dist: nat): nat
    requires dist <= WSIZE
  {
    if dist <= wp then wp - dist else wp + WSIZE - dist
  }

  /** A window s, filled up to w, holds the last WSIZE bytes of the history. */
  ghost predicate InWindow(s: seq<nat>, w: nat, hist: seq<nat>) {
    && |s| == WSIZE && w <= WSIZE && WSIZE <= |hist| - w
    && s[..w] == hist[|hist| - w..] && s[w..] == hist[|hist| - WSIZE..|hist| - w]
  }

  lemma Lookup(s: seq<nat>, w: nat, hist: seq<nat>, dist: nat)
    requires InWindow(s, w, hist) && 1 <= dist <= WSIZE
    ensures SlotBack(w, dist) < WSIZE && s[SlotBack(w, dist)] == hist[|hist| - dist]
  {
    if dist <= w {
      assert s[w - dist] == s[..w][w - dist];
    } else {
      assert s[w + WSIZE - dist] == s[w..][WSIZE - dist];
    }
  }

  /** Writing e bytes at w moves the window along the history. */
  lemma WriteKeeps(s: seq<nat>, w: nat, hist: seq<nat>, bytes: seq<nat>)
    requires InWindow(s, w, hist) && w + |bytes| <= WSIZE
    ensures InWindow(s[..w] + bytes + s[w + |bytes|..], w + |bytes|, hist + bytes)
    ensures (hist + bytes)[WSIZE..|hist| - w] == hist[WSIZE..|hist| - w]
  {
    var e := |bytes|;
    var s', h' := s[..w] + bytes + s[w + e..], hist + bytes;
    assert s'[..w + e] == s[..w] + bytes == h'[|h'| - (w + e)..];
    assert s'[w + e..] == s[w..][e..] == hist[|hist| - WSIZE + e..|hist| - w];
    assert h'[|h'| - WSIZE..|h'| - (w + e)] == hist[|hist| - WSIZE + e..|hist| - w];
  }

  /** A full window starts over at slot zero. */
  lemma WrapKeeps(s: seq<nat>, hist: seq<nat>)
    requires InWindow(s, WSIZE, hist)
    ensures InWindow(s, 0, hist) && s == hist[|hist| - WSIZE..]
    ensures hist[WSIZE..|hist| - WSIZE] + s == hist[WSIZE..]
  {
    assert s[..WSIZE] == s && s[0..] == s;
  }

  /** A block that does not reach into what it writes repeats the bytes `dist` back. */
  lemma BlockRepeats(s: seq<nat>, w: nat, hist: seq<nat>, d: nat, e: nat, dist: nat)
    requires InWindow(s, w, hist) && 1 <= dist <= WSIZE && d == SlotBack(w, dist) && d + e <= WSIZE
    requires w < d || w - d >= e
    ensures hist + s[d..d + e] == CopyBack(hist, dist, e)
  {
    var next := hist + s[d..d + e];
    forall j | |hist| <= j < |next| ensures next[j] == next[j - dist] {
      var i := j - |hist|;
      Lookup(s, w, hist, dist - i);
    }
    assert next[..|hist|] == hist;
    CopyBackUnique(hist, dist, e, next);
  }

  lemma NextSlotBack(w: nat, d: nat, dist: nat)
    requires w <= WSIZE && d <= WSIZE && 1 <= dist <= WSIZE
    requires d + dist == w || d + dist == w + WSIZE
    ensures d % WSIZE == SlotBack(if w == WSIZE then 0 else w, dist)
  {
  }

  method BlockMove(a: array<nat>, w: nat, d: nat, e: nat)
    requires w + e <= a.Length && d + e <= a.Length
    modifies a
    ensures a[..] == old(a[..])[..w] + old(a[..])[d..d + e] + old(a[..])[w + e..]
  {
    forall i | 0 <= i < e {
      a[w + i] := a[d + i];
    }
  }

  class Window {
    var slide: array<nat>
    var wp: nat
    var out: seq<nat>
    ghost var hist: seq<nat>

    /** The history is what the window first held followed by every byte produced; all but
        the last wp of the bytes produced have been flushed. */
    ghost predicate Filling()
      reads this, slide
    {
      InWindow(slide[..], wp, hist) && WSIZE <= |hist| - wp && out == hist[WSIZE..|hist| - wp]
    }

    ghost predicate Valid()
      reads this, slide
    {
      Filling() && wp < WSIZE && slide.Length == WSIZE
    }

    /** The bytes produced. */
    ghost function Produced(): seq<nat>
      requires Valid()
      reads this, slide
    {
      hist[WSIZE..]
    }

    constructor (buffer: array<nat>)
      requires buffer.Length == WSIZE
      ensures Valid() && slide == buffer && Produced() == [] && hist == buffer[..]
    {
      slide, wp, out := buffer, 0, [];
      hist := buffer[..];
    }

    method PutByte(byte: nat)
      requires Filling() && wp < WSIZE && slide.Length == WSIZE
      modifies this`wp, this`hist, slide
      ensures Filling() && hist == old(hist) + [byte] && wp == old(wp) + 1
    {
      hide InWindow;
      WriteKeeps(slide[..], wp, hist, [byte]);
      slide[wp] := byte;
      assert slide[..] == old(slide[..])[..wp] + [byte] + old(slide[..])[wp + 1..];
      wp := wp + 1;
      hist := hist + [byte];
    }

    method FlushIfFull()
      requires Filling() && slide.Length == WSIZE
      modifies this`wp, this`out
      ensures Valid() && wp == if old(wp) == WSIZE then 0 else old(wp)
    {
      if wp == WSIZE {
        WrapKeeps(slide[..], hist);
        out := out + slide[..wp];
        wp := 0;
      }
    }

    /** slide[w++] = byte, flushing when the window is full. */
    method Literal(byte: nat)
      requires Valid()
      modifies this, slide
      ensures Valid() && slide == old(slide) && hist == old(hist) + [byte]
    {
      PutByte(byte);
      FlushIfFull();
    }

    /** The part of a copy that crosses neither end of the window, as one block move. */
    method CopyFast(d: nat, e: nat, ghost dist: nat)
      requires Valid() && 1 <= dist <= WSIZE && d == SlotBack(wp, dist) && wp + e <= WSIZE && d + e <= WSIZE
      requires wp < d || wp - d >= e
      modifies this`wp, this`hist, slide
      ensures Filling() && hist == CopyBack(old(hist), dist, e) && wp == old(wp) + e
    {
      hide InWindow, SlotBack, CopyBack;
      ghost var s := slide[..];
      ghost var bytes := s[d..d + e];
      BlockRepeats(s, wp, hist, d, e, dist);
      WriteKeeps(s, wp, hist, bytes);
      BlockMove(slide, wp, d, e);
      wp := wp + e;
      hist := hist + bytes;
    }

    /** The same part byte by byte, for a source that the copy itself extends. */
    method CopySlow(d0: nat, e0: nat, ghost dist: nat)
      requires Valid() && 1 <= dist <= WSIZE && d0 == SlotBack(wp, dist) && wp + e0 <= WSIZE && d0 <= wp
      modifies this`wp, this`hist, slide
      ensures Filling() && hist == CopyBack(old(hist), dist, e0) && wp == old(wp) + e0
    {
      hide InWindow;
      var d, e := d0, e0;
      while e > 0
        invariant 0 <= e <= e0 && Filling() && wp == old(wp) + e0 - e && d == d0 + e0 - e
        invariant dist <= |hist| && CopyBack(hist, dist, e) == CopyBack(old(hist), dist, e0)
      {
        Lookup(slide[..], wp, hist, dist);
        PutByte(slide[d]);
        d, e := d + 1, e - 1;
      }
    }

    /** Copies len bytes from dist back, in chunks that cross neither end of the window. */
    method Copy(dist: nat, len: nat)
      requires Valid() && 1 <= dist <= WSIZE
      modifies this, slide
      ensures Valid() && slide == old(slide) && dist <= |old(hist)| && hist == CopyBack(old(hist), dist, len)
    {
      hide InWindow, CopyBack;
      var n, d := len, wp + WSIZE - dist;
      NextSlotBack(wp, d % WSIZE, dist);
      assert CopyBack(hist, dist, 0) == hist by { CopyNothing(hist, dist); }
      while n > 0
        invariant Valid() && slide == old(slide) && d % WSIZE == SlotBack(wp, dist)
        invariant 0 <= n <= len && dist <= |old(hist)| && hist == CopyBack(old(hist), dist, len - n)
      {
        d := d % WSIZE;
        var e := WSIZE - (if d > wp then d else wp);
        e := if e > n then n else e;
        n := n - e;
        CopyBackTwice(old(hist), dist, len - n - e, e);
        if wp < d || wp - d >= e {
          CopyFast(d, e, dist);
        } else {
          CopySlow(d, e, dist);
        }
        d := d + e;
        NextSlotBack(wp, d, dist);
        FlushIfFull();
      }
    }
  }

  lemma CopyNothing(hist: seq<nat>, dist: nat)
    requires 1 <= dist <= |hist|
    ensures CopyBack(hist, dist, 0) == hist
  {
  }

  // ---- Block moves

  /** Copying upwards one byte at a time, as memcpy may. */
  function Upward(s: seq<nat>, w: nat, d: nat, e: nat): (r: seq<nat>)
    requires w + e <= |s| && d + e <= |s|
    ensures |r| == |s|
    decreases e
  {
    if e == 0 then s else Upward(s[w := s[d]], w + 1, d + 1, e - 1)
  }

  /** In the fast path the source and destination may overlap when the source is the higher
      one; copying upwards still moves the bytes as they were. */
  lemma {:induction false} UpwardIsMove(s: seq<nat>, w: nat, d: nat, e: nat)
    requires w + e <= |s| && d + e <= |s| && (w < d || w - d >= e)
    ensures Upward(s, w, d, e) == s[..w] + s[d..d + e] + s[w + e..]
    decreases e
  {
    if e > 0 {
      var s' := s[w := s[d]];
      UpwardIsMove(s', w + 1, d + 1, e - 1);
      assert s'[..w + 1] == s[..w] + [s[d]];
      assert s'[d + 1..d + e] == s[d + 1..d + e];
      assert s[d..d + e] == [s[d]] + s[d + 1..d + e];
      assert s'[w + e..] == s[w + e..];
    } else {
      assert s == s[..w] + s[w..];
    }
  }
}
