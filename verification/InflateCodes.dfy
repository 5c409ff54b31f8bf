/** inflate_codes: the coded part of a block, decoded through tables into the window. */
module InflateCodes {
  import opened Bits
  import opened BitStream
  import opened Canonical
  import opened HuffmanTables
  import opened Huffman
  import opened InflateInput
  import opened InflateSpec
  import opened InflateFailures
  import opened SlideWindow

  /** How a part of the decoder ends. Eof: the input ran out. Undefined: it used a table that
      does not exist, or an entry made from a value that was never set. */
  datatype Status = Ok | Bad | Eof | Undefined

  /** The mark of an entry made from a value that was never set; no other entry has it. */
  const JUNK: nat := 100

  ghost predicate SoundAt(b: seq<nat>, found: Lookup, s: nat, d: seq<nat>, e: seq<nat>, stream: nat) {
    || (NoCodeHere(b, stream) && found.Found? && found.leaf.e == (if Proper(b) then 99 else JUNK) && found.bits <= BMAX)
    || exists sym: nat :: StartsWith(b, stream, sym) && found == Found(LeafFor(sym, s, d, e, Leaf(99, 0)), b[sym])
  }

  /** Every lookup gives the symbol at the start of the stream, the mark for invalid or that for
      an entry made from a value that was never set. */
  ghost predicate Sound(b: seq<nat>, l: nat, tabs: Tables, s: nat, d: seq<nat>, e: seq<nat>) {
    forall stream :: SoundAt(b, Walk(tabs, 0, l, 0, stream), s, d, e, stream)
  }

  ghost predicate Walkable(tabs: Tables, l: nat) {
    tabs != [] && Total(tabs, l) && Sized(l, BMAX, tabs) && l <= BMAX
  }

  ghost predicate Marks(e: seq<nat>) {
    forall i :: 0 <= i < |e| ==> e[i] <= 16 || e[i] == 99
  }

  lemma LeafMarks(sym: nat, s: nat, d: seq<nat>, e: seq<nat>)
    requires Marks(e)
    ensures var x := LeafFor(sym, s, d, e, Leaf(99, 0)).e; x <= 16 || x == 99
  {
  }

  /** Tables for the code with lengths b, as huft_build leaves them: none if there is no code. */
  ghost predicate Decoder(b: seq<nat>, l: nat, tabs: Tables, s: nat, d: seq<nat>, e: seq<nat>) {
    && Lengths(b) && b != [] && Marks(e)
    && if NotAllZero(b) then Walkable(tabs, l) && Sound(b, l, tabs, s, d, e) else tabs == []
  }

  /** The input has a symbol here that stands for something, and BMAX bits more. */
  ghost predicate Decodable(b: seq<nat>, s: nat, d: seq<nat>, e: seq<nat>, input: seq<nat>, p: nat, sym: nat) {
    CodeAt(b, input, p, sym) && LeafFor(sym, s, d, e, Leaf(99, 0)).e <= 16 && p + b[sym] + BMAX <= 8 * |input|
  }

  ghost predicate Readable(b: seq<nat>, s: nat, d: seq<nat>, e: seq<nat>, input: seq<nat>, p: nat) {
    exists sym: nat :: Decodable(b, s, d, e, input, p, sym)
  }

  /** What is here is no symbol's code, or that of a symbol that stands for nothing. */
  ghost predicate BadSymbol(b: seq<nat>, s: nat, d: seq<nat>, e: seq<nat>, input: seq<nat>, p: nat) {
    || (Proper(b) && NoCode(b, input, p))
    || exists sym: nat :: CodeAt(b, input, p, sym) && LeafFor(sym, s, d, e, Leaf(99, 0)).e > 16
  }

  /** What a lookup in the input gives. */
  lemma LookupIs(b: seq<nat>, l: nat, tabs: Tables, s: nat, d: seq<nat>, e: seq<nat>, input: seq<nat>, p: nat, m: nat)
    returns (sym: nat)
    requires Sound(b, l, tabs, s, d, e) && m >= BMAX && Lengths(b)
    ensures var f := Walk(tabs, 0, l, 0, BitsAt(input, p, m));
      f.Found? && f.bits <= BMAX &&
      if CodeAt(b, input, p, sym)
      then f == Found(LeafFor(sym, s, d, e, Leaf(99, 0)), b[sym])
      else NoCode(b, input, p) && f.leaf.e == if Proper(b) then 99 else JUNK
  {
    hide Walk, BitsAt, CodeOf, Rev, Kraft;
    var stream := BitsAt(input, p, m);
    assert SoundAt(b, Walk(tabs, 0, l, 0, stream), s, d, e, stream);
    forall t: nat ensures CodeAt(b, input, p, t) <==> StartsWith(b, stream, t) { CodeAtAny(b, input, p, t, m); }
    var f := Walk(tabs, 0, l, 0, stream);
    if t: nat :| StartsWith(b, stream, t) && f == Found(LeafFor(t, s, d, e, Leaf(99, 0)), b[t]) {
      sym := t;
    } else {
      sym := 0;
    }
  }

  /** Where the lookup finds a symbol, no other symbol's code is here. */
  lemma LookupReadable(b: seq<nat>, s: nat, d: seq<nat>, e: seq<nat>, input: seq<nat>, p: nat, sym: nat)
    requires Lengths(b) && Readable(b, s, d, e, input, p)
    ensures !NoCode(b, input, p)
    ensures CodeAt(b, input, p, sym) ==> Decodable(b, s, d, e, input, p, sym)
  {
    hide CodeAt, LeafFor;
    var here: nat :| Decodable(b, s, d, e, input, p, here);
    if CodeAt(b, input, p, sym) { SymbolUnique(b, input, p, sym, here); }
  }

  /** One symbol. Undefined if and only if the lookup is lost, unless the input ends first. */
  method DecodeSymbol(r: BitReader, tabs: Tables, l: nat, ghost b: seq<nat>, ghost s: nat, ghost d: seq<nat>,
                      ghost e: seq<nat>)
    returns (st: Status, leaf: Leaf, ghost sym: nat)
    requires r.Valid() && Decoder(b, l, tabs, s, d, e)
    modifies r
    ensures r.Valid()
    ensures st == Ok ==>
      && CodeAt(b, r.input, old(r.Pos()), sym) && leaf == LeafFor(sym, s, d, e, Leaf(99, 0)) && leaf.e <= 16
      && old(r.Pos()) < r.Pos() == old(r.Pos()) + b[sym]
    ensures st == Bad ==> BadSymbol(b, s, d, e, r.input, old(r.Pos()))
    ensures st == Eof ==> 8 * |r.input| < old(r.Pos()) + 2 * BMAX
    ensures st != Eof ==> (st == Undefined <==> Lost(b, r.input, old(r.Pos())))
    ensures Readable(b, s, d, e, r.input, old(r.Pos())) ==> st == Ok
  {
    hide Walk, Sound, Total, Sized, CodeAt, LeafFor, BitsAt, Proper, NotAllZero, Readable, Marks;
    ghost var p := r.Pos();
    sym, leaf := 0, Leaf(0, 0);
    if tabs == [] {
      ZeroLost(b, r.input, p);
      if Readable(b, s, d, e, r.input, p) { LookupReadable(b, s, d, e, r.input, p, 0); }
      return Undefined, leaf, 0;
    }
    var ok;
    ghost var bits, m;
    ok, leaf, bits, m := DecodeEntry(r, tabs, l);
    sym := LookupIs(b, l, tabs, s, d, e, r.input, p, m);
    if Readable(b, s, d, e, r.input, p) { LookupReadable(b, s, d, e, r.input, p, sym); }
    LeafMarks(sym, s, d, e);
    if !ok {
      st := Eof;
    } else if leaf.e > 16 {
      st := if leaf.e == 99 then Bad else Undefined;
    } else {
      st := Ok;
    }
  }

  /** n more bits as a number. */
  method GetBits(r: BitReader, n: nat) returns (ok: bool, x: nat)
    requires r.Valid()
    modifies r
    ensures r.Valid()
    ensures ok ==> x == BitsAt(r.input, old(r.Pos()), n) && r.Pos() == old(r.Pos()) + n
    ensures ok <==> old(r.Pos()) + n <= 8 * |r.input|
  {
    x := 0;
    ok := r.NeedBits(n);
    if ok {
      x := r.PeekBits(n);
      r.DumpBits(n);
    }
  }

  /** The length symbol here begins a match, and there are BMAX bits more after it. */
  ghost predicate Matchable(ll: seq<nat>, dl: seq<nat>, input: seq<nat>, p: nat, sym: nat) {
    exists len: nat, dist: nat, q: nat, dsym: nat ::
      MatchAt(ll, dl, input, p, len, dist, q, sym, dsym) && q + BMAX <= 8 * |input|
  }

  lemma MatchReadable(ll: seq<nat>, dl: seq<nat>, input: seq<nat>, p: nat, sym: nat)
    requires Matchable(ll, dl, input, p, sym) && Lengths(dl)
    ensures 257 <= sym <= 285 && sym < |ll| && CodeAt(ll, input, p, sym)
    ensures var p1 := p + ll[sym] + CPLEXT[sym - 257]; p1 <= 8 * |input| && Distant(dl, input, p1)
  {
    hide BitsAt, CodeOf, Rev;
    var len: nat, dist: nat, q: nat, dsym: nat :|
      MatchAt(ll, dl, input, p, len, dist, q, sym, dsym) && q + BMAX <= 8 * |input|;
    var p1 := p + ll[sym] + CPLEXT[sym - 257];
    assert Decodable(dl, 0, CPDIST, CPDEXT, input, p1, dsym);
    forall d: nat | CodeAt(dl, input, p1, d) ensures d == dsym { SymbolUnique(dl, input, p1, d, dsym); }
  }

  ghost predicate NoMatch(ll: seq<nat>, dl: seq<nat>, input: seq<nat>, p: nat, sym: nat) {
    forall len: nat, dist: nat, q: nat, dsym: nat :: !MatchAt(ll, dl, input, p, len, dist, q, sym, dsym)
  }

  lemma BadDistance(ll: seq<nat>, dl: seq<nat>, input: seq<nat>, p: nat, sym: nat)
    requires Lengths(dl) && 257 <= sym <= 285 && CodeAt(ll, input, p, sym)
    requires BadSymbol(dl, 0, CPDIST, CPDEXT, input, p + ll[sym] + CPLEXT[sym - 257])
    ensures NoMatch(ll, dl, input, p, sym)
  {
    var p2 := p + ll[sym] + CPLEXT[sym - 257];
    hide MatchAt, CodeAt, BadSymbol, BitsAt;
    forall len: nat, dist: nat, q: nat, dsym: nat ensures !MatchAt(ll, dl, input, p, len, dist, q, sym, dsym) {
      if MatchAt(ll, dl, input, p, len, dist, q, sym, dsym) {
        MatchSymbols(ll, dl, input, p, len, dist, q, sym, dsym);
        GoodDistance(dl, input, p2, dsym);
      }
    }
  }

  lemma GoodDistance(dl: seq<nat>, input: seq<nat>, p: nat, dsym: nat)
    requires Lengths(dl) && dsym < 30 && CodeAt(dl, input, p, dsym)
    ensures !BadSymbol(dl, 0, CPDIST, CPDEXT, input, p)
  {
    hide CodeAt, BitsAt, Proper;
    if other: nat :| CodeAt(dl, input, p, other) && LeafFor(other, 0, CPDIST, CPDEXT, Leaf(99, 0)).e > 16 {
      SymbolUnique(dl, input, p, other, dsym);
    }
  }

  /** There is room here for a distance and its extra bits. */
  ghost predicate Distant(dl: seq<nat>, input: seq<nat>, p: nat) {
    && Readable(dl, 0, CPDIST, CPDEXT, input, p)
    && forall d: nat :: CodeAt(dl, input, p, d) ==> d < 30 && p + dl[d] + CPDEXT[d] <= 8 * |input|
  }

  /** A distance: its symbol and the extra bits. */
  method ReadDistance(r: BitReader, td: Tables, bd: nat, ghost dl: seq<nat>)
    returns (st: Status, dist: nat, ghost dsym: nat)
    requires r.Valid() && Decoder(dl, bd, td, 0, CPDIST, CPDEXT)
    modifies r
    ensures r.Valid()
    ensures st == Ok ==>
      && dsym < 30 && CodeAt(dl, r.input, old(r.Pos()), dsym)
      && dist == CPDIST[dsym] + BitsAt(r.input, old(r.Pos()) + dl[dsym], CPDEXT[dsym])
      && old(r.Pos()) < r.Pos() == old(r.Pos()) + dl[dsym] + CPDEXT[dsym]
    ensures st == Bad ==> BadSymbol(dl, 0, CPDIST, CPDEXT, r.input, old(r.Pos()))
    ensures st == Eof ==> 8 * |r.input| < old(r.Pos()) + 2 * BMAX
    ensures st != Eof ==> (st == Undefined <==> Lost(dl, r.input, old(r.Pos())))
    ensures Distant(dl, r.input, old(r.Pos())) ==> st == Ok
  {
    hide Decoder, CodeAt, BitsAt, Readable, BadSymbol, Lost;
    ghost var p := r.Pos();
    dist := 0;
    var leaf;
    st, leaf, dsym := DecodeSymbol(r, td, bd, dl, 0, CPDIST, CPDEXT);
    if st != Ok { return; }
    assert Lengths(dl) by { DecoderLengths(dl, bd, td, 0, CPDIST, CPDEXT); }
    ShortCode(dl, r.input, p, dsym);
    DistanceLeaf(dsym, leaf);
    var ok, n := GetBits(r, leaf.e);
    if !ok { return Eof, 0, 0; }
    dist := leaf.n + n;
  }

  /** The length and distance of a match whose length symbol has been read. */
  method ReadMatch(r: BitReader, leaf: Leaf, td: Tables, bd: nat,
                   ghost ll: seq<nat>, ghost dl: seq<nat>, ghost sym: nat, ghost p: nat)
    returns (st: Status, len: nat, dist: nat, ghost dsym: nat)
    requires r.Valid() && Decoder(dl, bd, td, 0, CPDIST, CPDEXT)
    requires CodeAt(ll, r.input, p, sym) && r.Pos() == p + ll[sym]
    requires leaf == LeafFor(sym, 257, CPLENS, CPLEXT, Leaf(99, 0)) && leaf.e < 15
    modifies r
    ensures r.Valid()
    ensures st == Ok ==> r.Pos() > old(r.Pos()) && MatchAt(ll, dl, r.input, p, len, dist, r.Pos(), sym, dsym)
    ensures st == Bad ==> NoMatch(ll, dl, r.input, p, sym)
    ensures st == Eof ==> 8 * |r.input| < old(r.Pos()) + 3 * BMAX
    ensures st != Eof ==> (st == Undefined <==> LostMatch(ll, dl, r.input, p, sym))
    ensures Matchable(ll, dl, r.input, p, sym) ==> st == Ok
  {
    hide Decoder, CodeAt, BitsAt, Matchable, Distant, BadSymbol, Lost, NoMatch, LeafFor;
    len, dist, dsym := 0, 0, 0;
    LengthLeaf(sym, leaf);
    assert Lengths(dl) by { DecoderLengths(dl, bd, td, 0, CPDIST, CPDEXT); }
    if Matchable(ll, dl, r.input, p, sym) { MatchReadable(ll, dl, r.input, p, sym); }
    var ok, n := GetBits(r, leaf.e);
    if !ok { return Eof, 0, 0, 0; }
    len := leaf.n + n;
    st, dist, dsym := ReadDistance(r, td, bd, dl);
    if st == Bad { BadDistance(ll, dl, r.input, p, sym); }
  }

  lemma DecoderLengths(b: seq<nat>, l: nat, tabs: Tables, s: nat, d: seq<nat>, e: seq<nat>)
    requires Decoder(b, l, tabs, s, d, e)
    ensures Lengths(b)
  {
  }

  lemma LengthLeaf(sym: nat, leaf: Leaf)
    ensures leaf == LeafFor(sym, 257, CPLENS, CPLEXT, Leaf(99, 0)) && leaf.e < 15
      ==> 257 <= sym <= 285 && leaf == Leaf(CPLEXT[sym - 257], CPLENS[sym - 257])
  {
  }

  lemma DistanceLeaf(dsym: nat, leaf: Leaf)
    ensures leaf == LeafFor(dsym, 0, CPDIST, CPDEXT, Leaf(99, 0)) && leaf.e <= 16
      ==> dsym < 30 && leaf == Leaf(CPDEXT[dsym], CPDIST[dsym])
  {
  }

  /** Extra bits keep a distance within the window and a length positive. */
  lemma MatchInWindow(ll: seq<nat>, dl: seq<nat>, input: seq<nat>, p: nat, len: nat, dist: nat, q: nat, sym: nat,
                      dsym: nat)
    requires MatchAt(ll, dl, input, p, len, dist, q, sym, dsym)
    ensures 1 <= dist <= WSIZE && 3 <= len <= 258
  {
    hide Rev, CodeOf, BitsAt, Pow2;
    BitsBound(input, p + ll[sym], CPLEXT[sym - 257]);
    BitsBound(input, p + ll[sym] + CPLEXT[sym - 257] + dl[dsym], CPDEXT[dsym]);
    DistanceBound(dsym);
    LengthBound(sym - 257);
  }

  lemma DistanceBound(dsym: nat)
    requires dsym < 30
    ensures CPDIST[dsym] + Pow2(CPDEXT[dsym]) <= WSIZE + 1
  {
    SmallPowers();
  }

  lemma LengthBound(i: nat)
    requires i < 29
    ensures CPLENS[i] + Pow2(CPLEXT[i]) <= 259
  {
    SmallPowers();
  }

  lemma SmallPowers()
    ensures Pow2(0) == 1 && Pow2(1) == 2 && Pow2(2) == 4 && Pow2(3) == 8 && Pow2(4) == 16 && Pow2(5) == 32
    ensures Pow2(6) == 64 && Pow2(7) == 128 && Pow2(8) == 256 && Pow2(9) == 512 && Pow2(10) == 1024
    ensures Pow2(11) == 2048 && Pow2(12) == 4096 && Pow2(13) == 8192
  {
    assert Pow2(5) == 32 by { assert Pow2(3) == 8; }
    assert Pow2(7) == 128;
    assert Pow2(9) == 512;
    assert Pow2(11) == 2048;
  }

  /** A token or the end of the block is here, and there are BMAX bits more after it. */
  ghost predicate Continues(ll: seq<nat>, dl: seq<nat>, input: seq<nat>, p: nat) {
    || (CodeAt(ll, input, p, 256) && p + ll[256] + BMAX <= 8 * |input|)
    || exists tok: Token, q: nat :: TokenAt(ll, dl, input, p, tok, q) && q + BMAX <= 8 * |input|
  }

  lemma ContinuesReadable(ll: seq<nat>, dl: seq<nat>, input: seq<nat>, p: nat)
    requires Continues(ll, dl, input, p) && Lengths(ll)
    ensures Readable(ll, 257, CPLENS, CPLEXT, input, p)
    ensures forall sym: nat :: CodeAt(ll, input, p, sym) && sym >= 257 ==> Matchable(ll, dl, input, p, sym)
  {
    hide BitsAt, CodeOf, Rev;
    var here: nat;
    if CodeAt(ll, input, p, 256) && p + ll[256] + BMAX <= 8 * |input| {
      here := 256;
    } else {
      var tok: Token, q: nat :| TokenAt(ll, dl, input, p, tok, q) && q + BMAX <= 8 * |input|;
      if tok.Lit? {
        here := tok.byte;
      } else {
        var sym: nat, dsym: nat :| MatchAt(ll, dl, input, p, tok.len, tok.dist, q, sym, dsym);
        here := sym;
        assert Matchable(ll, dl, input, p, sym);
      }
    }
    assert Decodable(ll, 257, CPLENS, CPLEXT, input, p, here);
    forall sym: nat | CodeAt(ll, input, p, sym) ensures sym == here { SymbolUnique(ll, input, p, sym, here); }
  }

  /** Tables for both codes. */
  ghost predicate TablesFor(ll: seq<nat>, dl: seq<nat>, bl: nat, bd: nat, tl: Tables, td: Tables) {
    Decoder(ll, bl, tl, 257, CPLENS, CPLEXT) && Decoder(dl, bd, td, 0, CPDIST, CPDEXT)
  }

  lemma BadIsGarbled(ll: seq<nat>, dl: seq<nat>, input: seq<nat>, p: nat)
    requires Lengths(ll) && BadSymbol(ll, 257, CPLENS, CPLEXT, input, p)
    ensures Garbled(ll, dl, input, p)
  {
    hide BitsAt, CodeOf, Rev, Proper;
    forall sym: nat | CodeAt(ll, input, p, sym) ensures sym > 285 {
      var other: nat :| CodeAt(ll, input, p, other) && LeafFor(other, 257, CPLENS, CPLEXT, Leaf(99, 0)).e > 16;
      SymbolUnique(ll, input, p, other, sym);
    }
  }

  lemma NoMatchIsGarbled(ll: seq<nat>, dl: seq<nat>, input: seq<nat>, p: nat, sym: nat)
    requires Lengths(ll) && 257 <= sym <= 285 && CodeAt(ll, input, p, sym)
    requires NoMatch(ll, dl, input, p, sym) && !LostMatch(ll, dl, input, p, sym)
    ensures Garbled(ll, dl, input, p)
  {
    hide BitsAt, CodeAt, Proper;
    forall other: nat | CodeAt(ll, input, p, other) ensures other == sym {
      SymbolUnique(ll, input, p, other, sym);
    }
  }

  /** One literal, match or end of block. Undefined if and only if the decoder is lost here,
      unless the input ends first. */
  method NextToken(r: BitReader, win: Window, tl: Tables, td: Tables, bl: nat, bd: nat, ghost ll: seq<nat>,
                   ghost dl: seq<nat>)
    returns (st: Status, last: bool, ghost tok: Token)
    requires r.Valid() && win.Valid() && TablesFor(ll, dl, bl, bd, tl, td)
    modifies r, win, win.slide
    ensures r.Valid() && win.Valid() && win.slide == old(win.slide)
    ensures st == Ok ==> r.Pos() > old(r.Pos())
    ensures st == Ok && last ==> CodeAt(ll, r.input, old(r.Pos()), 256) && r.Pos() == old(r.Pos()) + ll[256]
    ensures st == Ok && !last ==> TokenAt(ll, dl, r.input, old(r.Pos()), tok, r.Pos())
    ensures win.hist == if st == Ok && !last then Put(old(win.hist), tok) else old(win.hist)
    ensures st == Bad ==> Garbled(ll, dl, r.input, old(r.Pos()))
    ensures st == Eof ==> 8 * |r.input| < old(r.Pos()) + 4 * BMAX
    ensures st != Eof ==> (st == Undefined <==> LostToken(ll, dl, r.input, old(r.Pos())))
    ensures Continues(ll, dl, r.input, old(r.Pos())) ==> st == Ok
  {
    hide Decoder, CodeAt, BitsAt, CopyBack, InWindow, Continues, Readable, Matchable, BadSymbol, Proper, NoMatch;
    hide Garbled, NoCode;
    ghost var p := r.Pos();
    assert Lengths(ll) by { DecoderLengths(ll, bl, tl, 257, CPLENS, CPLEXT); }
    ghost var goes := Continues(ll, dl, r.input, p);
    if goes { ContinuesReadable(ll, dl, r.input, p); }
    tok, last := Lit(0), false;
    var leaf;
    ghost var sym;
    st, leaf, sym := DecodeSymbol(r, tl, bl, ll, 257, CPLENS, CPLEXT);
    if st == Bad {
      BadIsGarbled(ll, dl, r.input, p);
      GarbledNotLost(ll, dl, r.input, p);
    }
    if st != Ok { return; }
    ShortCode(ll, r.input, p, sym);
    LiteralLeaf(sym, leaf);
    LengthLeaf(sym, leaf);
    if leaf.e == 16 {
      win.Literal(leaf.n % 256);
      tok := Lit(leaf.n % 256);
      TokenNotLost(ll, dl, r.input, p, tok, r.Pos());
    } else if leaf.e == 15 {
      last := true;
      EndIsEnd(ll, dl, r.input, p);
    } else {
      var len, dist;
      ghost var dsym;
      st, len, dist, dsym := ReadMatch(r, leaf, td, bd, ll, dl, sym, p);
      if st == Bad {
        NoMatchIsGarbled(ll, dl, r.input, p, sym);
        GarbledNotLost(ll, dl, r.input, p);
      }
      if st != Ok { return; }
      MatchInWindow(ll, dl, r.input, p, len, dist, r.Pos(), sym, dsym);
      tok := Match(len, dist);
      TokenNotLost(ll, dl, r.input, p, tok, r.Pos());
      win.Copy(dist, len);
    }
  }

  lemma GarbledNotLost(ll: seq<nat>, dl: seq<nat>, input: seq<nat>, p: nat)
    requires Garbled(ll, dl, input, p)
    ensures !LostToken(ll, dl, input, p)
  {
  }

  lemma ShortCode(b: seq<nat>, input: seq<nat>, p: nat, sym: nat)
    requires Lengths(b) && CodeAt(b, input, p, sym)
    ensures sym < |b| && b[sym] <= BMAX && !NoCode(b, input, p)
  {
  }

  lemma LiteralLeaf(sym: nat, leaf: Leaf)
    ensures leaf == LeafFor(sym, 257, CPLENS, CPLEXT, Leaf(99, 0)) && leaf.e == 16 ==> sym == leaf.n < 256
    ensures leaf == LeafFor(sym, 257, CPLENS, CPLEXT, Leaf(99, 0)) && leaf.e == 15 ==> sym == 256
  {
  }

  ghost predicate EndsAt(ll: seq<nat>, dl: seq<nat>, input: seq<nat>, p: nat, toks: seq<Token>, ps: seq<nat>, q: nat) {
    CodesAt(ll, dl, input, p, toks, ps, q) && q + BMAX <= 8 * |input|
  }

  /** The coded part of a block is here, and there are BMAX bits more after it. */
  ghost predicate Ends(ll: seq<nat>, dl: seq<nat>, input: seq<nat>, p: nat) {
    exists toks, ps, q: nat :: EndsAt(ll, dl, input, p, toks, ps, q)
  }

  lemma EndAfter(ll: seq<nat>, dl: seq<nat>, input: seq<nat>, p: nat, toks: seq<Token>, ps: seq<nat>, q: nat)
    requires CodesAt(ll, dl, input, p, toks, ps, q)
    ensures ps[|toks|] < q
  {
    hide BitsAt, CodeOf, Rev, TokenAt;
  }

  /** After some of its tokens, there is another one or the end. */
  lemma GoesOn(ll: seq<nat>, dl: seq<nat>, input: seq<nat>, p: nat, toks0: seq<Token>, ps0: seq<nat>, q0: nat,
               toks: seq<Token>, ps: seq<nat>)
    requires EndsAt(ll, dl, input, p, toks0, ps0, q0) && TokensAt(ll, dl, input, toks, ps) && ps[0] == p
    requires |toks| <= |toks0| && Lengths(ll) && Lengths(dl)
    ensures Continues(ll, dl, input, ps[|toks|])
    ensures |toks| == |toks0| ==> forall tok, q: nat :: !TokenAt(ll, dl, input, ps[|toks|], tok, q)
  {
    hide TokenAt, CodeAt;
    var i := |toks|;
    TokensAgree(ll, dl, input, toks, ps, toks0, ps0, i);
    assert ps[i] == ps[..i + 1][i] == ps0[i];
    if i < |toks0| {
      TokensAdvance(ll, dl, input, toks0, ps0, i + 1, |toks0|);
      EndAfter(ll, dl, input, p, toks0, ps0, q0);
      assert TokenAt(ll, dl, input, ps0[i], toks0[i], ps0[i + 1]);
    } else {
      forall tok, q: nat ensures !TokenAt(ll, dl, input, ps[i], tok, q) {
        if TokenAt(ll, dl, input, ps[i], tok, q) { EndNotToken(ll, dl, input, ps[i], tok, q); }
      }
    }
  }

  /** The coded part of a block, up to its end-of-block code. In any case, what was read before
      the decoder stopped are tokens, and what was put out is what they stand for. */
  method DecodeCodes(r: BitReader, win: Window, tl: Tables, td: Tables, bl: nat, bd: nat, ghost ll: seq<nat>,
                     ghost dl: seq<nat>)
    returns (st: Status, ghost toks: seq<Token>, ghost ps: seq<nat>)
    requires r.Valid() && win.Valid() && TablesFor(ll, dl, bl, bd, tl, td)
    modifies r, win, win.slide
    ensures r.Valid() && win.Valid() && win.slide == old(win.slide)
    ensures TokensAt(ll, dl, r.input, toks, ps) && ps[0] == old(r.Pos()) && win.hist == Expand(old(win.hist), toks)
    ensures st == Ok ==> r.Pos() > old(r.Pos()) && CodesAt(ll, dl, r.input, old(r.Pos()), toks, ps, r.Pos())
    ensures st == Bad ==> Garbled(ll, dl, r.input, ps[|toks|])
    ensures st == Eof ==> 8 * |r.input| < ps[|toks|] + 4 * BMAX
    ensures st == Undefined ==> LostCodes(ll, dl, r.input, old(r.Pos()), ps[|toks|])
    ensures forall q: nat :: LostCodes(ll, dl, r.input, old(r.Pos()), q) ==>
      st == Undefined || (st == Eof && 8 * |r.input| < q + 4 * BMAX)
    ensures Ends(ll, dl, r.input, old(r.Pos())) ==> st == Ok
  {
    hide TablesFor, TokenAt, CodeAt, Put, InWindow, EndsAt, Continues, LostToken, Garbled, NoToken, LostCodes;
    toks, ps := [], [r.Pos()];
    assert Lengths(ll) && Lengths(dl) by { TablesLengths(ll, dl, bl, bd, tl, td); }
    ghost var ends := Ends(ll, dl, r.input, r.Pos());
    ghost var toks0: seq<Token>, ps0: seq<nat>, q0: nat := [], [], 0;
    if ends { toks0, ps0, q0 :| EndsAt(ll, dl, r.input, r.Pos(), toks0, ps0, q0); }
    while true
      invariant r.Valid() && win.Valid() && win.slide == old(win.slide)
      invariant TokensAt(ll, dl, r.input, toks, ps) && ps[|toks|] == r.Pos() && ps[0] == old(r.Pos()) <= r.Pos()
      invariant win.hist == Expand(old(win.hist), toks)
      invariant ends ==> EndsAt(ll, dl, r.input, old(r.Pos()), toks0, ps0, q0) && |toks| <= |toks0|
      decreases 8 * |r.input| - r.Pos()
    {
      var last;
      ghost var tok;
      if ends { GoesOn(ll, dl, r.input, old(r.Pos()), toks0, ps0, q0, toks, ps); }
      st, last, tok := NextToken(r, win, tl, td, bl, bd, ll, dl);
      if st != Ok || last {
        WhetherLost(ll, dl, r.input, toks, ps, st);
        return;
      }
      TokensMore(ll, dl, r.input, toks, ps, tok, r.Pos());
      ExpandMore(old(win.hist), toks, tok);
      toks, ps := toks + [tok], ps + [r.Pos()];
    }
  }

  lemma TablesLengths(ll: seq<nat>, dl: seq<nat>, bl: nat, bd: nat, tl: Tables, td: Tables)
    requires TablesFor(ll, dl, bl, bd, tl, td)
    ensures Lengths(ll) && Lengths(dl)
  {
    hide Sound, Walkable, Marks, NotAllZero;
  }

  /** Where the decoder stops decides whether it is lost. */
  lemma WhetherLost(ll: seq<nat>, dl: seq<nat>, input: seq<nat>, toks: seq<Token>, ps: seq<nat>, st: Status)
    requires Lengths(ll) && Lengths(dl) && TokensAt(ll, dl, input, toks, ps)
    requires st == Bad ==> Garbled(ll, dl, input, ps[|toks|])
    requires st == Ok ==> CodeAt(ll, input, ps[|toks|], 256)
    requires st == Undefined ==> LostToken(ll, dl, input, ps[|toks|])
    ensures st == Undefined ==> LostCodes(ll, dl, input, ps[0], ps[|toks|])
    ensures forall q: nat :: LostCodes(ll, dl, input, ps[0], q) ==> st == Undefined || (st == Eof && ps[|toks|] <= q)
  {
    hide TokenAt, CodeAt, LostToken, NoToken, LostCodes;
    if st == Undefined {
      IsLost(ll, dl, input, toks, ps);
    }
    forall q: nat | LostCodes(ll, dl, input, ps[0], q) ensures st == Undefined || (st == Eof && ps[|toks|] <= q) {
      LostCodesBound(ll, dl, input, toks, ps, q);
      if st == Ok {
        EndIsEnd(ll, dl, input, ps[|toks|]);
      }
    }
  }

  lemma IsLost(ll: seq<nat>, dl: seq<nat>, input: seq<nat>, toks: seq<Token>, ps: seq<nat>)
    requires TokensAt(ll, dl, input, toks, ps) && LostToken(ll, dl, input, ps[|toks|])
    ensures LostCodes(ll, dl, input, ps[0], ps[|toks|])
  {
    hide TokenAt, LostToken;
    assert LostAfter(ll, dl, input, ps[0], toks, ps, ps[|toks|]);
  }
}
