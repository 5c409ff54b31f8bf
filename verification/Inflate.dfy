/** The decoders of stored and fixed blocks. */
module Inflate {
  import opened Bits
  import opened BitStream
  import opened Canonical
  import opened HuffmanTables
  import opened Huffman
  import opened InflateInput
  import opened InflateSpec
  import opened InflateFailures
  import opened InflateCodes
  import opened InflateTables
  import opened InflateFormat
  import opened SlideWindow

  // ---- Stored blocks

  lemma AlignByte(p: nat, bk: nat, inptr: nat)
    requires p == 8 * inptr - bk
    ensures p + bk % 8 == NextByte(p)
  {
  }

  /** A stored block is here in full. */
  ghost predicate HasStored(input: seq<nat>, p: nat) {
    exists bytes, q: nat :: StoredAt(input, p, bytes, q) && q <= 8 * |input|
  }

  method InflateStored(r: BitReader, win: Window) returns (st: Status, ghost bytes: seq<nat>)
    requires r.Valid() && win.Valid()
    modifies r, win, win.slide
    ensures r.Valid() && win.Valid() && win.slide == old(win.slide)
    ensures st == Ok ==> StoredAt(r.input, old(r.Pos()), bytes, r.Pos()) && win.hist == old(win.hist) + bytes
    ensures st == Bad ==> NoStored(r.input, old(r.Pos()))
    ensures st != Undefined && (HasStored(r.input, old(r.Pos())) ==> st == Ok)
  {
    hide BitsAt, InWindow, HasStored, NoStored, StoredAt, Pow2;
    bytes := [];
    ghost var has := HasStored(r.input, r.Pos());
    if has { StoredRoom(r.input, r.Pos()); }
    AlignByte(r.Pos(), r.bk, r.inptr);
    r.DumpBits(r.bk % 8);
    ghost var p1 := r.Pos();
    var ok, n := GetBits(r, 16);
    if !ok { return Eof, []; }
    var comp;
    ok, comp := GetBits(r, 16);
    if !ok { return Eof, []; }
    BitsBound(r.input, p1 + 16, 16);
    Pow16();
    if n != 65535 - comp {
      NotStored(r.input, old(r.Pos()));
      return Bad, [];
    }
    st, bytes := CopyStored(r, win, n);
    if st == Ok { IsStored(r.input, old(r.Pos()), bytes); }
  }

  /** The bytes of a stored block. */
  method CopyStored(r: BitReader, win: Window, n: nat) returns (st: Status, ghost bytes: seq<nat>)
    requires r.Valid() && win.Valid()
    modifies r, win, win.slide
    ensures r.Valid() && win.Valid() && win.slide == old(win.slide)
    ensures st == Ok ==>
      && |bytes| == n && r.Pos() == old(r.Pos()) + 8 * n && win.hist == old(win.hist) + bytes
      && forall i :: 0 <= i < n ==> bytes[i] == BitsAt(r.input, old(r.Pos()) + 8 * i, 8)
    ensures st == (if old(r.Pos()) + 8 * n <= 8 * |r.input| then Ok else Eof)
  {
    hide BitsAt, InWindow;
    bytes := [];
    var left := n;
    while left > 0
      invariant r.Valid() && win.Valid() && win.slide == old(win.slide)
      invariant 0 <= left <= n && |bytes| == n - left && r.Pos() == old(r.Pos()) + 8 * |bytes|
      invariant win.hist == old(win.hist) + bytes && (n > 0 && left < n ==> r.Pos() <= 8 * |r.input|)
      invariant forall i :: 0 <= i < |bytes| ==> bytes[i] == BitsAt(r.input, old(r.Pos()) + 8 * i, 8)
    {
      left := left - 1;
      var ok, byte := GetBits(r, 8);
      if !ok { return Eof, bytes; }
      win.Literal(byte);
      assert old(win.hist) + bytes + [byte] == old(win.hist) + (bytes + [byte]);
      bytes := bytes + [byte];
    }
    PosInside(r);
    st := Ok;
  }

  /** No more bits are used than there are. */
  lemma PosInside(r: BitReader)
    requires r.Valid()
    ensures r.Pos() <= 8 * |r.input|
  {
  }

  lemma IsStored(input: seq<nat>, p: nat, bytes: seq<nat>)
    requires var p1 := NextByte(p);
      && BitsAt(input, p1, 16) == |bytes| && BitsAt(input, p1 + 16, 16) == 65535 - |bytes|
      && forall i :: 0 <= i < |bytes| ==> bytes[i] == BitsAt(input, p1 + 32 + 8 * i, 8)
    ensures StoredAt(input, p, bytes, NextByte(p) + 32 + 8 * |bytes|)
  {
    hide BitsAt;
  }

  /** The length and its complement, and as many bytes as they say. */
  lemma StoredRoom(input: seq<nat>, p: nat)
    requires HasStored(input, p)
    ensures var p1 := NextByte(p);
      && BitsAt(input, p1 + 16, 16) == 65535 - BitsAt(input, p1, 16)
      && p1 + 32 + 8 * BitsAt(input, p1, 16) <= 8 * |input|
  {
    hide BitsAt;
    var bytes, q: nat :| StoredAt(input, p, bytes, q) && q <= 8 * |input|;
  }

  lemma NotStored(input: seq<nat>, p: nat)
    requires BitsAt(input, NextByte(p) + 16, 16) != 65535 - BitsAt(input, NextByte(p), 16)
    ensures NoStored(input, p)
  {
    hide BitsAt;
  }

  lemma Pow16()
    ensures Pow2(16) == 65536
  {
    Pow8();
    Pow2Add(8, 8);
  }

  // ---- Fixed blocks

  lemma {:induction false} KraftRun(b: seq<nat>, i: nat, j: nat, k: nat)
    requires Lengths(b) && i <= j <= |b| && 1 <= k <= BMAX && forall t :: i <= t < j ==> b[t] == k
    ensures Kraft(b, j) == Kraft(b, i) + (j - i) * Pow2(BMAX - k)
    decreases j
  {
    hide Pow2;
    if i < j {
      KraftRun(b, i, j - 1, k);
      Distribute(j - 1 - i, 1, Pow2(BMAX - k));
    }
  }

  lemma FixedLitComplete()
    ensures Lengths(FixedLit()) && Kraft(FixedLit(), 288) == Pow2(BMAX)
  {
    hide Kraft, Pow2;
    var b := FixedLit();
    KraftNone(b);
    KraftRun(b, 0, 144, 8);
    KraftRun(b, 144, 256, 9);
    KraftRun(b, 256, 280, 7);
    KraftRun(b, 280, 288, 8);
    SmallPowers();
    Pow16();
  }

  lemma KraftNone(b: seq<nat>)
    requires Lengths(b)
    ensures Kraft(b, 0) == 0
  {
  }

  lemma FixedDistKraft()
    ensures Lengths(FixedDist()) && Kraft(FixedDist(), 30) == 61440
  {
    hide Kraft, Pow2;
    KraftNone(FixedDist());
    KraftRun(FixedDist(), 0, 30, 5);
    SmallPowers();
  }

  /** Codes of at most nine bits from a seven-bit root need one more level. */
  lemma ShortEnough(b: seq<nat>, m: nat, g: nat)
    requires Feasible(b) && (forall j :: 0 <= j < |b| ==> b[j] <= g) && g in b && g < 2 * m && m >= 1
    ensures Short(b, m)
  {
    LongestIs(b);
    ShortRoot(b, m);
  }

  lemma FixedSuits()
    ensures Builds(FixedLit()) && Proper(FixedLit()) && Suits(FixedLit(), 7)
    ensures NotAllZero(FixedDist()) && Kraft(FixedDist(), 30) <= Pow2(BMAX) && !Builds(FixedDist())
    ensures Proper(FixedDist()) && Short(FixedDist(), 5) && Suits(FixedDist(), 5)
  {
    hide Kraft, Short;
    FixedLitComplete();
    FixedDistKraft();
    Pow16();
    assert FixedLit()[0] == 8 && FixedLit()[150] == 9 && FixedDist()[0] == 5;
    assert 9 in FixedLit() && 5 in FixedDist();
    ShortEnough(FixedLit(), 7, 9);
    ShortEnough(FixedDist(), 5, 5);
  }

  method FixedLengths() returns (l: seq<nat>)
    ensures l == FixedLit()
  {
    l := [];
    for i := 0 to 144 invariant |l| == i && l == FixedLit()[..i] { l := l + [8]; }
    for i := 144 to 256 invariant |l| == i && l == FixedLit()[..i] { l := l + [9]; }
    for i := 256 to 280 invariant |l| == i && l == FixedLit()[..i] { l := l + [7]; }
    for i := 280 to 288 invariant |l| == i && l == FixedLit()[..i] { l := l + [8]; }
  }

  method InflateFixed(r: BitReader, win: Window)
    returns (st: Status, ghost toks: seq<Token>, ghost ps: seq<nat>)
    requires r.Valid() && win.Valid()
    modifies r, win, win.slide
    ensures r.Valid() && win.Valid() && win.slide == old(win.slide)
    ensures TokensAt(FixedLit(), FixedDist(), r.input, toks, ps) && ps[0] == old(r.Pos())
    ensures win.hist == Expand(old(win.hist), toks)
    ensures st == Ok ==>
      CodesAt(FixedLit(), FixedDist(), r.input, old(r.Pos()), toks, ps, r.Pos()) && r.Pos() > old(r.Pos())
    ensures st == Bad ==> NoCodes(FixedLit(), FixedDist(), r.input, old(r.Pos()))
    ensures st == Eof ==> 8 * |r.input| < ps[|toks|] + 4 * BMAX
    ensures st != Undefined && (Ends(FixedLit(), FixedDist(), r.input, old(r.Pos())) ==> st == Ok)
  {
    hide TokenAt, CodeAt, Expand, InWindow, TablesFor, Garbled, LostCodes, Ends, FixedLit, FixedDist, Lengths;
    var tl, bl, td, bd := FixedTables();
    st, toks, ps := DecodeCodes(r, win, tl, td, bl, bd, FixedLit(), FixedDist());
    FixedNotLost(r.input, old(r.Pos()));
    if st == Bad {
      GarbledEverywhere(FixedLit(), FixedDist(), r.input, toks, ps);
    }
  }

  method FixedTables() returns (tl: Tables, bl: nat, td: Tables, bd: nat)
    ensures TablesFor(FixedLit(), FixedDist(), bl, bd, tl, td)
  {
    hide Kraft, Short, Sized, RootBits, Proper, Decoder, NotAllZero;
    FixedSuits();
    var l := FixedLengths();
    assert Marks(CPLEXT) && Marks(CPDEXT);
    var rc;
    rc, tl, bl := MakeTables(l, 257, CPLENS, CPLEXT, 7);
    l := seq(30, i => 5);
    assert l == FixedDist();
    rc, td, bd := MakeTables(l, 0, CPDIST, CPDEXT, 5);
  }

  lemma FixedNotLost(input: seq<nat>, p: nat)
    ensures Lengths(FixedLit()) && Lengths(FixedDist())
    ensures forall q: nat :: !LostCodes(FixedLit(), FixedDist(), input, p, q)
  {
    hide LostCodes, Kraft;
    FixedSuits();
    forall q: nat ensures !LostCodes(FixedLit(), FixedDist(), input, p, q) {
      ProperTokens(FixedLit(), FixedDist(), input, p, q);
    }
  }

  lemma GarbledEverywhere(ll: seq<nat>, dl: seq<nat>, input: seq<nat>, toks: seq<Token>, ps: seq<nat>)
    requires Lengths(ll) && Lengths(dl) && TokensAt(ll, dl, input, toks, ps) && Garbled(ll, dl, input, ps[|toks|])
    ensures NoCodes(ll, dl, input, ps[0])
  {
    hide TokenAt, CodeAt, NoToken, LostToken, CodesAt;
    forall t, s, q: nat ensures !CodesAt(ll, dl, input, ps[0], t, s, q) {
      GarbledNoEnd(ll, dl, input, ps[0], toks, ps, t, s, q);
    }
  }
}
