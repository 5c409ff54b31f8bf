/** inflate: all blocks of a stream. */
module InflateStream {
  import opened BitStream
  import opened Canonical
  import opened InflateInput
  import opened InflateSpec
  import opened InflateFailures
  import opened InflateCodes
  import opened InflateFormat
  import opened Inflate
  import opened InflateDynamic
  import opened SlideWindow

  ghost predicate GoodBlockAt(input: seq<nat>, p: nat, last: bool, block: Block, q: nat) {
    BlockAt(input, p, last, block, q) && Accepted(block) && q + BMAX <= 8 * |input|
  }

  /** A block that the decoder accepts is here, and there are BMAX bits more after it. */
  ghost predicate BlockHere(input: seq<nat>, p: nat) {
    exists last, block, q: nat :: GoodBlockAt(input, p, last, block, q)
  }

  lemma BlockAdvances(input: seq<nat>, p: nat, last: bool, block: Block, q: nat)
    requires BlockAt(input, p, last, block, q)
    ensures p + 3 < q
  {
    hide BitsAt, CodesAt, HeaderAt, StoredAt;
    match block
    case Stored(bytes) => StoredAdvances(input, p + 3, bytes, q);
    case Fixed(toks, ps) => CodesAdvance(FixedLit(), FixedDist(), input, p + 3, toks, ps, q);
    case Dynamic(cl, items, ips, ll, dl, toks, ps) =>
      HeaderAdvances(input, p + 3, cl, items, ips, ll, dl, ips[|ips| - 1]);
      CodesAdvance(ll, dl, input, ips[|ips| - 1], toks, ps, q);
  }

  lemma HeaderAdvances(input: seq<nat>, p: nat, cl: seq<nat>, items: seq<Item>, ips: seq<nat>, ll: seq<nat>,
                       dl: seq<nat>, q: nat)
    requires HeaderAt(input, p, cl, items, ips, ll, dl, q)
    ensures p < q
  {
    hide BitsAt, OrderAt, ItemAt;
    ItemsGrow(cl, input, items, ips, 0, |items|);
  }

  lemma BlockParts(input: seq<nat>, p: nat)
    requires BlockHere(input, p)
    ensures p + 3 <= 8 * |input| && BitsAt(input, p + 1, 2) <= 2
    ensures BitsAt(input, p + 1, 2) == 0 ==> HasStored(input, p + 3)
    ensures BitsAt(input, p + 1, 2) == 1 ==> Ends(FixedLit(), FixedDist(), input, p + 3)
    ensures BitsAt(input, p + 1, 2) == 2 ==> HasDynamic(input, p + 3)
  {
    hide BitsAt, CodesAt, HeaderAt, StoredAt, FixedLit, FixedDist, Accepted;
    var last, block, q: nat :| GoodBlockAt(input, p, last, block, q);
    BlockAdvances(input, p, last, block, q);
    match block
    case Stored(bytes) => assert StoredAt(input, p + 3, bytes, q);
    case Fixed(toks, ps) => assert EndsAt(FixedLit(), FixedDist(), input, p + 3, toks, ps, q);
    case Dynamic(_, _, _, _, _, _, _) => assert DynamicAt(input, p + 3, block, q);
  }

  /** A block has one meaning. */
  lemma BlockUnique(input: seq<nat>, p: nat, last1: bool, b1: Block, q1: nat, last2: bool, b2: Block, q2: nat,
                    hist: seq<nat>)
    requires BlockAt(input, p, last1, b1, q1) && Accepted(b1) && BlockAt(input, p, last2, b2, q2)
    ensures last1 == last2 && q1 == q2 && PutBlock(hist, b1) == PutBlock(hist, b2) && Accepted(b2)
  {
    hide BitsAt, CodesAt, HeaderAt, StoredAt, Expand, Kraft;
    match b1
    case Stored(bytes) => StoredUnique(input, p + 3, bytes, q1, b2.bytes, q2);
    case Fixed(toks, ps) =>
      FixedLengthsOk();
      CodesUnique(FixedLit(), FixedDist(), input, p + 3, toks, ps, q1, b2.toks, b2.ps, q2);
    case Dynamic(cl, items, ips, ll, dl, toks, ps) =>
      HeaderUnique(input, p + 3, cl, items, ips, ll, dl, ips[|ips| - 1], b2.cl, b2.items, b2.ips, b2.ll, b2.dl,
        b2.ips[|b2.ips| - 1]);
      CodesUnique(ll, dl, input, ips[|ips| - 1], toks, ps, q1, b2.toks, b2.ps, q2);
  }

  lemma FixedLengthsOk()
    ensures Lengths(FixedLit()) && Lengths(FixedDist())
  {
  }

  // ---- Blocks that the decoder does not get through

  /** No block that the decoder accepts is here. */
  ghost predicate NoBlock(input: seq<nat>, p: nat) {
    forall last, block, q: nat :: BlockAt(input, p, last, block, q) ==> !Accepted(block)
  }

  /** The decoder gets lost in the block here, at place q. */
  ghost predicate LostBlock(input: seq<nat>, p: nat, q: nat) {
    BitsAt(input, p + 1, 2) == 2 && LostDynamic(input, p + 3, q)
  }

  lemma LostNoBlock(input: seq<nat>, p: nat, q: nat)
    requires LostBlock(input, p, q)
    ensures NoBlock(input, p)
  {
    hide BitsAt, CodesAt, HeaderAt, StoredAt, LostDynamic, Kraft, LostCodes;
    forall last, block, e: nat | BlockAt(input, p, last, block, e) ensures !Accepted(block) {
      if Accepted(block) {
        var h := block.ips[|block.ips| - 1];
        LostInBody(input, p + 3, block.cl, block.items, block.ips, block.ll, block.dl, h, q);
        LostNoEnd(block.ll, block.dl, input, h, q, block.toks, block.ps, e);
      }
    }
  }

  lemma LostFurther(input: seq<nat>, p: nat, q: nat)
    requires LostBlock(input, p, q)
    ensures p <= q
  {
    hide BitsAt, HeaderAt, Builds, TokenAt, LostToken;
    if LosesHeader(input, p + 3, q) {
      LostBeyond(input, p + 3, q);
    } else {
      var cl, items, ips, ll, dl, h: nat :| LostBody(input, p + 3, cl, items, ips, ll, dl, h, q);
      var t, s :| LostAfter(ll, dl, input, h, t, s, q);
      TokensAdvance(ll, dl, input, t, s, 0, |t|);
      HeaderAdvances(input, p + 3, cl, items, ips, ll, dl, h);
    }
  }

  /** What makes a block of each kind missing. */
  lemma BlockMissing(input: seq<nat>, p: nat)
    ensures BitsAt(input, p + 1, 2) == 0 && NoStored(input, p + 3) ==> NoBlock(input, p)
    ensures BitsAt(input, p + 1, 2) == 1 && NoCodes(FixedLit(), FixedDist(), input, p + 3) ==> NoBlock(input, p)
    ensures BitsAt(input, p + 1, 2) == 2 && NoDynamic(input, p + 3) ==> NoBlock(input, p)
    ensures BitsAt(input, p + 1, 2) > 2 ==> NoBlock(input, p)
  {
    hide BitsAt, CodesAt, HeaderAt, StoredAt, FixedLit, FixedDist, Accepted;
    forall last, block, q: nat | BlockAt(input, p, last, block, q) && block.Dynamic?
      ensures DynamicAt(input, p + 3, block, q)
    {
    }
  }

  method InflateBlock(r: BitReader, win: Window) returns (st: Status, last: bool, ghost block: Block, ghost at: nat)
    requires r.Valid() && win.Valid()
    modifies r, win, win.slide
    ensures r.Valid() && win.Valid() && win.slide == old(win.slide)
    ensures st == Ok ==>
      && r.Pos() > old(r.Pos()) && BlockAt(r.input, old(r.Pos()), last, block, r.Pos()) && Accepted(block)
      && win.hist == PutBlock(old(win.hist), block)
    ensures st == Bad ==> NoBlock(r.input, old(r.Pos()))
    ensures st == Undefined ==> LostBlock(r.input, old(r.Pos()), at)
    ensures forall q: nat :: LostBlock(r.input, old(r.Pos()), q) ==>
      st == Undefined || (st == Eof && 8 * |r.input| < q + 4 * BMAX)
    ensures BlockHere(r.input, old(r.Pos())) ==> st == Ok
  {
    hide BitsAt, StoredAt, CodesAt, TokenAt, HeaderAt, Expand, InWindow, BlockHere, HasStored, HasDynamic, NoDynamic;
    hide Ends, FixedLit, FixedDist;
    hide LostDynamic, Builds, NoBlock;
    block, last, at := Stored([]), false, 0;
    ghost var p := r.Pos();
    if BlockHere(r.input, p) { BlockParts(r.input, p); }
    forall q: nat | LostBlock(r.input, p, q) ensures p <= q { LostFurther(r.input, p, q); }
    BlockMissing(r.input, p);
    var ok, e := GetBits(r, 1);
    if !ok { st := Eof; return; }
    BitsBound(r.input, p, 1);
    last := e == 1;
    var t;
    ok, t := GetBits(r, 2);
    if !ok { st := Eof; return; }
    if t == 2 {
      st, block, at := DecodeDynamic(r, win);
    } else if t == 0 {
      ghost var bytes;
      st, bytes := InflateStored(r, win);
      block := Stored(bytes);
      if st == Ok { StoredAdvances(r.input, p + 3, bytes, r.Pos()); }
    } else if t == 1 {
      ghost var toks, ps;
      st, toks, ps := InflateFixed(r, win);
      block := Fixed(toks, ps);
    } else {
      st := Bad;
    }
  }

  lemma StoredAdvances(input: seq<nat>, p: nat, bytes: seq<nat>, q: nat)
    requires StoredAt(input, p, bytes, q)
    ensures q > p
  {
  }

  ghost predicate AllAccepted(blocks: seq<Block>) {
    forall i :: 0 <= i < |blocks| ==> Accepted(blocks[i])
  }

  lemma AllAcceptedMore(blocks: seq<Block>, block: Block)
    requires AllAccepted(blocks) && Accepted(block)
    ensures AllAccepted(blocks + [block])
  {
    hide Accepted;
  }

  ghost predicate StreamAt(input: seq<nat>, blocks: seq<Block>, bps: seq<nat>) {
    blocks != [] && BlocksAt(input, blocks, bps, true) && AllAccepted(blocks) && bps[|blocks|] + BMAX <= 8 * |input|
  }

  /** The input begins with a stream of blocks, up to bit `end`, that the decoder accepts and
      that extends `start` to `plain`; and BMAX bits more follow it. */
  ghost predicate Compressed(input: seq<nat>, start: seq<nat>, plain: seq<nat>, end: nat) {
    exists blocks, bps :: StreamAt(input, blocks, bps) && plain == PutBlocks(start, blocks) && end == bps[|blocks|]
  }

  /** The input begins with no stream of blocks that the decoder accepts. */
  ghost predicate NoStream(input: seq<nat>) {
    forall blocks, bps :: blocks != [] && BlocksAt(input, blocks, bps, true) ==> !AllAccepted(blocks)
  }

  ghost predicate LostStreamAt(input: seq<nat>, blocks: seq<Block>, bps: seq<nat>, q: nat) {
    BlocksAt(input, blocks, bps, false) && AllAccepted(blocks) && LostBlock(input, bps[|blocks|], q)
  }

  /** The input begins with blocks that the decoder accepts, followed by one in which it gets
      lost, at place q. */
  ghost predicate LostStream(input: seq<nat>, q: nat) {
    exists blocks, bps :: LostStreamAt(input, blocks, bps, q)
  }

  lemma {:induction false} BlocksAdvance(input: seq<nat>, blocks: seq<Block>, bps: seq<nat>, ended: bool, i: nat,
                                         j: nat)
    requires BlocksAt(input, blocks, bps, ended) && i <= j <= |blocks|
    ensures bps[i] <= bps[j]
    decreases j
  {
    hide BlockAt;
    if i < j {
      BlocksAdvance(input, blocks, bps, ended, i, j - 1);
      BlockAdvances(input, bps[j - 1], ended && j - 1 == |blocks| - 1, blocks[j - 1], bps[j]);
    }
  }

  /** Two readings of the same bits agree as far as both go, and end together. */
  lemma {:induction false} BlocksAgree(input: seq<nat>, b1: seq<Block>, p1: seq<nat>, e1: bool,
                                       b2: seq<Block>, p2: seq<nat>, e2: bool, start: seq<nat>, i: nat)
    requires BlocksAt(input, b1, p1, e1) && AllAccepted(b1) && BlocksAt(input, b2, p2, e2) && i <= |b1| && i <= |b2|
    ensures p1[i] == p2[i] && PutBlocks(start, b1[..i]) == PutBlocks(start, b2[..i])
    ensures i > 0 ==> ((e1 && i == |b1|) <==> (e2 && i == |b2|))
  {
    hide BlockAt, Accepted, PutBlock;
    if i == 0 {
      assert b1[..0] == b2[..0];
    } else {
      var k := i - 1;
      BlocksAgree(input, b1, p1, e1, b2, p2, e2, start, k);
      assert b1[..i] == b1[..k] + [b1[k]] && b2[..i] == b2[..k] + [b2[k]];
      PutBlocksMore(start, b1[..k], b1[k]);
      PutBlocksMore(start, b2[..k], b2[k]);
      BlockUnique(input, p1[k], e1 && k == |b1| - 1, b1[k], p1[i], e2
        && k == |b2| - 1, b2[k], p2[i], PutBlocks(start, b1[..k]));
    }
  }

  /** A stream has one meaning. */
  lemma StreamUnique(input: seq<nat>, b1: seq<Block>, p1: seq<nat>, start: seq<nat>, plain: seq<nat>, end: nat)
    requires b1 != [] && BlocksAt(input, b1, p1, true) && AllAccepted(b1) && Compressed(input, start, plain, end)
    ensures PutBlocks(start, b1) == plain && p1[|b1|] == end
  {
    hide BlockAt, PutBlocks, Accepted;
    var b2, p2 :| StreamAt(input, b2, p2) && plain == PutBlocks(start, b2) && end == p2[|b2|];
    var i := if |b1| < |b2| then |b1| else |b2|;
    BlocksAgree(input, b1, p1, true, b2, p2, true, start, i);
    assert b1[..|b1|] == b1 && b2[..|b2|] == b2;
  }

  /** After some of its blocks, there is another one. */
  lemma MoreBlocks(input: seq<nat>, b0: seq<Block>, p0: seq<nat>, blocks: seq<Block>, bps: seq<nat>)
    requires StreamAt(input, b0, p0) && BlocksAt(input, blocks, bps, false) && AllAccepted(blocks) && |blocks| < |b0|
    ensures BlockHere(input, bps[|blocks|])
  {
    hide BlockAt, Accepted;
    var i := |blocks|;
    BlocksAgree(input, blocks, bps, false, b0, p0, true, [], i);
    BlocksAdvance(input, b0, p0, true, i + 1, |b0|);
    assert GoodBlockAt(input, p0[i], i == |b0| - 1, b0[i], p0[i + 1]);
  }

  /** The marks agree: the decoder stops at the last block, and not before. */
  lemma StopsRight(input: seq<nat>, b0: seq<Block>, p0: seq<nat>, blocks: seq<Block>, bps: seq<nat>, last: bool)
    requires StreamAt(input, b0, p0) && blocks != [] && BlocksAt(input, blocks, bps, last) && AllAccepted(blocks)
    requires |blocks| <= |b0|
    ensures last <==> |blocks| == |b0|
  {
    hide BlockAt, Accepted;
    BlocksAgree(input, blocks, bps, last, b0, p0, true, [], |blocks|);
  }

  // ---- How the stream ends

  /** Where there is no further block, there is no stream. */
  lemma StuckNoStream(input: seq<nat>, blocks: seq<Block>, bps: seq<nat>)
    requires BlocksAt(input, blocks, bps, false) && AllAccepted(blocks) && NoBlock(input, bps[|blocks|])
    ensures NoStream(input)
  {
    hide BlockAt, Accepted, NoBlock;
    forall b, p | b != [] && BlocksAt(input, b, p, true) ensures !AllAccepted(b) {
      if |blocks| < |b| {
        BlocksAgree(input, blocks, bps, false, b, p, true, [], |blocks|);
        NotHere(input, bps[|blocks|], |blocks| == |b| - 1, b[|blocks|], p[|blocks| + 1]);
      } else {
        BlocksAgree(input, blocks, bps, false, b, p, true, [], |b|);
      }
    }
  }

  lemma NotHere(input: seq<nat>, p: nat, last: bool, block: Block, q: nat)
    requires NoBlock(input, p) && BlockAt(input, p, last, block, q)
    ensures !Accepted(block)
  {
    hide BlockAt, Accepted;
  }

  /** Where the decoder is in a stream that it gets lost in: there, or at a further block. */
  lemma LostAhead(input: seq<nat>, blocks: seq<Block>, bps: seq<nat>, ended: bool, q: nat)
    requires BlocksAt(input, blocks, bps, ended) && AllAccepted(blocks) && LostStream(input, q)
    requires ended ==> blocks != []
    ensures !ended
    ensures LostBlock(input, bps[|blocks|], q)
      || exists last, block, e: nat :: BlockAt(input, bps[|blocks|], last, block, e) && Accepted(block) && e <= q
  {
    hide BlockAt, Accepted, LostBlock, NoBlock;
    var b, p :| LostStreamAt(input, b, p, q);
    var i := |blocks|;
    if |b| < i {
      BlocksAgree(input, blocks, bps, ended, b, p, false, [], |b|);
      LostNoBlock(input, p[|b|], q);
      NotHere(input, bps[|b|], ended && |b| == i - 1, blocks[|b|], bps[|b| + 1]);
    } else {
      BlocksAgree(input, blocks, bps, ended, b, p, false, [], i);
      if i < |b| {
        BlocksAdvance(input, b, p, false, i + 1, |b|);
        LostFurther(input, p[|b|], q);
        assert BlockAt(input, p[i], false, b[i], p[i + 1]);
      }
    }
  }

  /** Where the decoder stops decides whether it is lost. */
  lemma WhetherLostStream(input: seq<nat>, blocks: seq<Block>, bps: seq<nat>, st: Status, at: nat)
    requires BlocksAt(input, blocks, bps, false) && AllAccepted(blocks)
    requires st == Bad ==> NoBlock(input, bps[|blocks|])
    requires st == Undefined ==> LostBlock(input, bps[|blocks|], at)
    requires st == Eof ==> !BlockHere(input, bps[|blocks|])
    requires forall q: nat :: LostBlock(input, bps[|blocks|], q) ==>
      st == Undefined || (st == Eof && 8 * |input| < q + 4 * BMAX)
    requires st != Ok
    ensures st == Undefined ==> LostStream(input, at)
    ensures forall q: nat :: LostStream(input, q) ==> st == Undefined || (st == Eof && 8 * |input| < q + 4 * BMAX)
  {
    hide BlockAt, Accepted, LostBlock;
    if st == Undefined {
      assert LostStreamAt(input, blocks, bps, at);
    }
    forall q: nat | LostStream(input, q) ensures st == Undefined || (st == Eof && 8 * |input| < q + 4 * BMAX) {
      LostAhead(input, blocks, bps, false, q);
      if !LostBlock(input, bps[|blocks|], q) && st == Eof {
        var last, block, e: nat :| BlockAt(input, bps[|blocks|], last, block, e) && Accepted(block) && e <= q;
        assert e + BMAX <= 8 * |input| ==> GoodBlockAt(input, bps[|blocks|], last, block, e);
      }
    }
  }

  /** Every list that the decoder would build tables from, in a block that it comes to, is
      proper: a complete code, or one that leaves no symbol out. */
  ghost predicate ProperStream(input: seq<nat>) {
    forall blocks, bps :: BlocksAt(input, blocks, bps, false) && AllAccepted(blocks) ==>
      BitsAt(input, bps[|blocks|] + 1, 2) == 2 ==> ProperHeaders(input, bps[|blocks|] + 3)
  }

  /** Whatever else the input is, the decoder does not get lost in it. */
  lemma ProperStreamNotLost(input: seq<nat>, q: nat)
    requires ProperStream(input)
    ensures !LostStream(input, q)
  {
    hide BlockAt, Accepted, ProperHeaders, LostDynamic, BitsAt;
    forall blocks, bps ensures !LostStreamAt(input, blocks, bps, q) {
      if LostStreamAt(input, blocks, bps, q) {
        ProperNotLost(input, bps[|blocks|] + 3, q);
      }
    }
  }

  /** Decompresses a stream; `ahead` is the position of the first input byte not used. */
  method InflateAll(input: seq<nat>, buffer: array<nat>)
    returns (st: Status, out: seq<nat>, ahead: nat, ghost blocks: seq<Block>, ghost bps: seq<nat>, ghost at: nat)
    requires Bytes(input) && buffer.Length == WSIZE
    modifies buffer
    ensures st == Ok ==>
      && blocks != [] && BlocksAt(input, blocks, bps, true) && AllAccepted(blocks)
      && old(buffer[..]) + out == PutBlocks(old(buffer[..]), blocks)
      && ahead == (bps[|blocks|] + 7) / 8
    ensures forall plain, end: nat :: Compressed(input, old(buffer[..]), plain, end) ==>
      st == Ok && old(buffer[..]) + out == plain && ahead == (end + 7) / 8
    ensures st == Bad ==> NoStream(input)
    ensures st == Undefined ==> LostStream(input, at)
    ensures forall q: nat :: LostStream(input, q) ==> st == Undefined || (st == Eof && 8 * |input| < q + 4 * BMAX)
    ensures ProperStream(input) ==> st != Undefined
  {
    hide BitsAt, BlockAt, PutBlock, InWindow, Accepted, PutBlocks, BlockHere, StreamAt, Compressed, LostStream;
    hide LostBlock, NoBlock, NoStream, ProperStream;
    assert AllAccepted([]);
    ghost var here := exists b, p :: StreamAt(input, b, p);
    ghost var b0: seq<Block>, p0: seq<nat> := [], [];
    if here {
      b0, p0 :| StreamAt(input, b0, p0);
      HasBlocks(input, b0, p0);
    }
    assert forall plain, end: nat :: Compressed(input, buffer[..], plain, end) ==>
      here by { CompressedHas(input, buffer[..]); }
    out, ahead, blocks, at := [], 0, [], 0;
    var r := new BitReader(input);
    var win := new Window(buffer);
    bps := [0];
    ghost var start := buffer[..];
    assert PutBlocks(start, []) == start by { NoBlocks(start); }
    var last := false;
    while !last
      invariant r.Valid() && win.Valid() && win.slide == buffer && r.input == input && fresh(r) && fresh(win)
      invariant BlocksAt(input, blocks, bps, last) && bps[|blocks|] == r.Pos() && (last ==> blocks != [])
      invariant AllAccepted(blocks) && win.hist == PutBlocks(start, blocks)
      invariant WSIZE == |start|
      invariant here ==> StreamAt(input, b0, p0) && (if last then |blocks| == |b0| else |blocks| < |b0|)
      decreases !last, 8 * |input| - r.Pos()
    {
      ghost var block;
      if here { MoreBlocks(input, b0, p0, blocks, bps); }
      st, last, block, at := InflateBlock(r, win);
      if st != Ok {
        WhetherLostStream(input, blocks, bps, st, at);
        if st == Bad { StuckNoStream(input, blocks, bps); }
        if ProperStream(input) { ProperStreamNotLost(input, at); }
        return;
      }
      BlocksMore(input, blocks, bps, block, r.Pos(), last);
      PutBlocksMore(start, blocks, block);
      AllAcceptedMore(blocks, block);
      blocks, bps := blocks + [block], bps + [r.Pos()];
      if here { StopsRight(input, b0, p0, blocks, bps, last); }
    }
    r.UndoLookahead();
    ahead := r.inptr;
    out := win.out + win.slide[..win.wp];
    st := Ok;
    PutBlocksExtends(start, blocks);
    AllProduced(win.slide[..], win.wp, win.hist);
    assert win.out + win.slide[..win.wp] == win.hist[WSIZE..];
    assert start + win.hist[WSIZE..] == win.hist;
    forall plain, end: nat | Compressed(input, start, plain, end)
      ensures start + out == plain && ahead == (end + 7) / 8
    {
      StreamUnique(input, blocks, bps, start, plain, end);
    }
    forall q: nat ensures !LostStream(input, q) {
      if LostStream(input, q) { LostAhead(input, blocks, bps, true, q); }
    }
  }

  lemma HasBlocks(input: seq<nat>, blocks: seq<Block>, bps: seq<nat>)
    requires StreamAt(input, blocks, bps)
    ensures |blocks| > 0
  {
  }

  lemma CompressedHas(input: seq<nat>, start: seq<nat>)
    ensures forall plain, end: nat :: Compressed(input, start, plain, end) ==> exists b, p :: StreamAt(input, b, p)
  {
    hide StreamAt, PutBlocks;
  }

  lemma NoBlocks(hist: seq<nat>)
    ensures PutBlocks(hist, []) == hist
  {
  }

  /** Flushing what is left of the window completes the output. */
  lemma AllProduced(s: seq<nat>, w: nat, hist: seq<nat>)
    requires InWindow(s, w, hist) && w < WSIZE
    ensures hist[WSIZE..|hist| - w] + s[..w] == hist[WSIZE..]
  {
  }

  // ---- Decoding only ever appends

  lemma {:induction false} CopyExtends(hist: seq<nat>, dist: nat, len: nat)
    requires 1 <= dist <= |hist|
    ensures hist <= CopyBack(hist, dist, len)
  {
    CopyBackIs(hist, dist, len);
  }

  lemma {:induction false} ExpandExtends(hist: seq<nat>, toks: seq<Token>)
    ensures hist <= Expand(hist, toks)
  {
    if toks != [] {
      ExpandExtends(hist, toks[..|toks| - 1]);
      var h, tok := Expand(hist, toks[..|toks| - 1]), toks[|toks| - 1];
      if tok.Match? && 1 <= tok.dist <= |h| {
        CopyExtends(h, tok.dist, tok.len);
      }
    }
  }

  lemma {:induction false} PutBlocksExtends(hist: seq<nat>, blocks: seq<Block>)
    ensures hist <= PutBlocks(hist, blocks)
  {
    if blocks != [] {
      PutBlocksExtends(hist, blocks[..|blocks| - 1]);
      var h, block := PutBlocks(hist, blocks[..|blocks| - 1]), blocks[|blocks| - 1];
      if !block.Stored? {
        ExpandExtends(h, block.toks);
      }
    }
  }
}
