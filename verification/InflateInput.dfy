/** The bit buffer of inflate, and decoding of one symbol through it. */
module InflateInput {
  import opened Bits
  import opened BitStream
  import opened Canonical
  import opened HuffmanTables

  /** The n bits the decoder is about to read start with the code of symbol `sym`. */
  ghost predicate CodeAt(b: seq<nat>, input: seq<nat>, p: nat, sym: nat) {
    StartsWith(b, BitsAt(input, p, BMAX), sym)
  }

  lemma CodeAtAny(b: seq<nat>, input: seq<nat>, p: nat, sym: nat, n: nat)
    requires n >= BMAX
    ensures CodeAt(b, input, p, sym) <==> StartsWith(b, BitsAt(input, p, n), sym)
  {
    hide Rev, Low, CodeOf;
    if sym < |b| && 1 <= b[sym] <= BMAX {
      BitsCut(input, p, n, b[sym]);
      BitsCut(input, p, BMAX, b[sym]);
      RevMod(b[sym], BitsAt(input, p, n));
      RevMod(b[sym], BitsAt(input, p, BMAX));
    }
  }

  class BitReader {
    const input: seq<nat>
    var inptr: nat
    var bb: nat
    var bk: nat

    /** The buffer holds the bk bits before byte inptr. */
    ghost predicate Valid()
      reads this
    {
      Bytes(input) && inptr <= |input| && bk <= 8 * inptr && bb == BitsAt(input, 8 * inptr - bk, bk)
    }

    /** The number of bits used so far. */
    ghost function Pos(): nat
      requires Valid()
      reads this
    {
      8 * inptr - bk
    }

    constructor (data: seq<nat>)
      requires Bytes(data)
      ensures Valid() && input == data && Pos() == 0 && bk == 0
    {
      input := data;
      inptr, bb, bk := 0, 0, 0;
    }

    /** Reads whole bytes until n bits are buffered; fails when the input ends first. */
    method NeedBits(n: nat) returns (ok: bool)
      requires Valid()
      modifies this
      ensures Valid() && Pos() == old(Pos())
      ensures ok ==> bk >= n
      ensures ok <==> Pos() + n <= 8 * |input|
      ensures old(bk) >= n ==> inptr == old(inptr)
      ensures inptr > old(inptr) ==> bk < n + 8
    {
      hide BitsAt, Pow2;
      while bk < n
        invariant Valid() && Pos() == old(Pos())
        invariant old(bk) >= n ==> inptr == old(inptr)
        invariant inptr > old(inptr) ==> bk < n + 8
        decreases |input| - inptr
      {
        if inptr >= |input| {
          return false;
        }
        Refill(input, inptr, bk);
        bb := bb + input[inptr] * Pow2(bk);
        bk := bk + 8;
        inptr := inptr + 1;
      }
      ok := true;
    }

    /** The next n bits. */
    method PeekBits(n: nat) returns (x: nat)
      requires Valid() && n <= bk
      ensures x == BitsAt(input, Pos(), n)
    {
      hide BitsAt, Low, Shr, Pow2;
      BitsCut(input, Pos(), bk, n);
      x := Low(bb, n);
    }

    /** Gives back whole bytes read ahead: the next byte is the first not begun. */
    method UndoLookahead()
      requires Valid()
      modifies this`bk, this`inptr
      ensures bk < 8 && 8 * inptr - bk == old(Pos())
    {
      while bk >= 8
        invariant bk <= 8 * inptr && 8 * inptr - bk == old(Pos())
      {
        bk := bk - 8;
        inptr := inptr - 1;
      }
    }

    method DumpBits(n: nat)
      requires Valid() && n <= bk
      modifies this`bb, this`bk
      ensures Valid() && Pos() == old(Pos()) + n && bk == old(bk) - n
    {
      hide BitsAt, Low, Shr, Pow2;
      BitsCut(input, Pos(), bk, n);
      bb := Shr(bb, n);
      bk := bk - n;
    }
  }

  /** A byte put above the bits already there. */
  lemma Refill(input: seq<nat>, i: nat, k: nat)
    requires Bytes(input) && i < |input| && k <= 8 * i
    ensures BitsAt(input, 8 * i - k, k + 8) == BitsAt(input, 8 * i - k, k) + input[i] * Pow2(k)
  {
    hide BitsAt, Pow2;
    BitsSplit(input, 8 * i - k, k, 8);
    ByteBits(input, i);
    assert 8 * i - k + k == 8 * i;
  }

  /** What the walk does with the next n bits. */
  lemma WalkHere(n: nat, w: nat, input: seq<nat>, p: nat, m: nat)
    requires m >= w + n
    ensures Low(Shr(BitsAt(input, p, m), w), n) == BitsAt(input, p + w, n)
  {
    BitsCut(input, p, m, w);
    BitsCut(input, p + w, m - w, n);
  }

  /** After w bits the walk over the input is at table t, about to use n bits. The stretch of
      input looked at is m bits long. */
  ghost predicate Walked(tabs: Tables, l: nat, input: seq<nat>, p: nat, m: nat, t: nat, n: nat, w: nat) {
    && Walk(tabs, 0, l, 0, BitsAt(input, p, m)) == Walk(tabs, t, n, w, BitsAt(input, p, m))
    && t < |tabs| && ((t == 0 && n == l) || |tabs[t]| == Pow2(n))
  }

  /** A number of input bits that reaches past everything the walk may look at. */
  ghost function Reach(tabs: Tables, t: nat, n: nat, w: nat, input: seq<nat>, p: nat): (m: nat)
    ensures m >= w + n
    decreases |tabs| - t
  {
    var j := BitsAt(input, p + w, n);
    if t < |tabs| && j < |tabs[t]| && tabs[t][j].Sub? && tabs[t][j].t > t
    then var r := Reach(tabs, tabs[t][j].t, tabs[t][j].width, w + tabs[t][j].b, input, p);
         if r > w + n then r else w + n
    else w + n
  }

  lemma WalkedStep(tabs: Tables, l: nat, input: seq<nat>, p: nat, m: nat, t: nat, n: nat, w: nat)
    requires Walked(tabs, l, input, p, m, t, n, w) && Total(tabs, l) && Sized(l, BMAX, tabs) && m >= w + n
    ensures BitsAt(input, p + w, n) < |tabs[t]| && tabs[t][BitsAt(input, p + w, n)] != Unset
    ensures var e := tabs[t][BitsAt(input, p + w, n)];
      && 1 <= e.b <= n
      && (e.Sub? ==> t < e.t && e.width <= BMAX && Walked(tabs, l, input, p, m, e.t, e.width, w + e.b))
      && (e.Code? ==> Walk(tabs, 0, l, 0, BitsAt(input, p, m)) == Found(e.leaf, w + e.b))
  {
    hide BitsAt, Low, Shr;
    WalkHere(n, w, input, p, m);
    assert Walk(tabs, 0, l, 0, BitsAt(input, p, m)).Found?;
    var e := tabs[t][BitsAt(input, p + w, n)];
    assert EntrySized(l, BMAX, tabs, t, e);
    if e.b > n {
      Pow2Monotone(n, e.b);
    }
  }

  lemma ReachStep(tabs: Tables, t: nat, n: nat, w: nat, input: seq<nat>, p: nat)
    requires t < |tabs| && BitsAt(input, p + w, n) < |tabs[t]|
    requires tabs[t][BitsAt(input, p + w, n)].Sub? && t < tabs[t][BitsAt(input, p + w, n)].t
    ensures var e := tabs[t][BitsAt(input, p + w, n)];
      Reach(tabs, e.t, e.width, w + e.b, input, p) <= Reach(tabs, t, n, w, input, p)
  {
  }

  lemma {:induction false} WalkBits(tabs: Tables, t: nat, n: nat, w: nat, stream: nat)
    ensures Walk(tabs, t, n, w, stream).Found? ==> Walk(tabs, t, n, w, stream).bits >= w
    decreases |tabs| - t
  {
    hide Low, Shr;
    var j := Low(Shr(stream, w), n);
    if t < |tabs| && j < |tabs[t]| && tabs[t][j].Sub? && t < tabs[t][j].t {
      WalkBits(tabs, tabs[t][j].t, tabs[t][j].width, w + tabs[t][j].b, stream);
    }
  }

  /** The input ends before the bits that a walk so far asks for: no more than BMAX bits after
      the code it would find. */
  lemma TooShort(tabs: Tables, l: nat, input: seq<nat>, p: nat, m: nat, t: nat, n: nat, w: nat)
    requires Walked(tabs, l, input, p, m, t, n, w) && Total(tabs, l) && n <= BMAX && 8 * |input| < p + w + n
    ensures var f := Walk(tabs, 0, l, 0, BitsAt(input, p, m)); f.Found? && 8 * |input| < p + f.bits + BMAX
  {
    hide BitsAt, Walk;
    assert Walk(tabs, 0, l, 0, BitsAt(input, p, m)).Found?;
    WalkBits(tabs, t, n, w, BitsAt(input, p, m));
  }

  /** One symbol: index the root table with l bits, then follow subtables. Fails only if the
      input ends no more than BMAX bits after the symbol. */
  method DecodeEntry(r: BitReader, tabs: Tables, l: nat) returns (ok: bool, leaf: Leaf, ghost bits: nat, ghost m: nat)
    requires r.Valid() && tabs != [] && Total(tabs, l) && Sized(l, BMAX, tabs) && l <= BMAX
    modifies r
    ensures r.Valid() && m >= BMAX
    ensures ok ==> r.Pos() == old(r.Pos()) + bits && bits >= 1
    ensures ok ==> Walk(tabs, 0, l, 0, BitsAt(r.input, old(r.Pos()), m)) == Found(leaf, bits)
    ensures !ok ==>
      var f := Walk(tabs, 0, l, 0, BitsAt(r.input, old(r.Pos()), m));
      f.Found? && 8 * |r.input| < old(r.Pos()) + f.bits + BMAX
  {
    hide Walk, Total, Sized, BitsAt, Reach, EntrySized, Pow2;
    ghost var p := r.Pos();
    leaf, bits, m := Leaf(0, 0), 0, Reach(tabs, 0, l, 0, r.input, p) + BMAX;
    var t: nat, n: nat := 0, l;
    ghost var w: nat := 0;
    assert Walked(tabs, l, r.input, p, m, t, n, w);
    ok := r.NeedBits(n);
    if !ok {
      TooShort(tabs, l, r.input, p, m, t, n, w);
      return;
    }
    var j := r.PeekBits(n);
    WalkedStep(tabs, l, r.input, p, m, t, n, w);
    var e := tabs[t][j];
    while e.Sub?
      invariant ok && r.Valid() && r.Pos() == p + w && r.bk >= n
      invariant Walked(tabs, l, r.input, p, m, t, n, w) && Reach(tabs, t, n, w, r.input, p) + BMAX <= m
      invariant j == BitsAt(r.input, p + w, n) && j < |tabs[t]| && e == tabs[t][j] && e != Unset
      decreases |tabs| - t
    {
      WalkedStep(tabs, l, r.input, p, m, t, n, w);
      ReachStep(tabs, t, n, w, r.input, p);
      r.DumpBits(e.b);
      t, n, w := e.t, e.width, w + e.b;
      ok := r.NeedBits(n);
      if !ok {
        TooShort(tabs, l, r.input, p, m, t, n, w);
        return;
      }
      j := r.PeekBits(n);
      WalkedStep(tabs, l, r.input, p, m, t, n, w);
      e := tabs[t][j];
    }
    WalkedStep(tabs, l, r.input, p, m, t, n, w);
    r.DumpBits(e.b);
    leaf, bits := e.leaf, w + e.b;
  }
}
