/** inflate_dynamic: reading the code lengths of a dynamic block and building its tables. */
module InflateDynamic {
  import opened Bits
  import opened BitStream
  import opened Canonical
  import opened HuffmanTables
  import opened Huffman
  import opened InflateInput
  import opened InflateSpec
  import opened InflateFailures
  import opened InflateCodes
  import opened InflateTables
  import opened InflateFormat
  import opened SlideWindow
  import Inflate

  lemma PlaceInverts(j: nat)
    requires j < 19
    ensures BORDER[j] < 19 && PLACE[BORDER[j]] == j
  {
  }

  method ReadOrder(r: BitReader, nb: nat) returns (ok: bool, cl: seq<nat>)
    requires r.Valid() && nb <= 19
    modifies r
    ensures r.Valid()
    ensures ok ==> OrderAt(r.input, old(r.Pos()), nb, cl) && r.Pos() == old(r.Pos()) + 3 * nb
    ensures old(r.Pos()) + 3 * nb <= 8 * |r.input| ==> ok
    ensures ok ==> forall i :: 0 <= i < 19 ==> cl[i] < 8
  {
    hide BitsAt;
    ok := true;
    cl := seq(19, _ => 0);
    ghost var p := r.Pos();
    var j := 0;
    while j < 19
      invariant 0 <= j <= 19 && r.Valid() && |cl| == 19
      invariant r.Pos() == p + 3 * (if j < nb then j else nb)
      invariant forall i :: 0 <= i < j ==>
        BORDER[i] < 19 && cl[BORDER[i]] == if i < nb then BitsAt(r.input, p + 3 * i, 3) else 0
      invariant forall i :: 0 <= i < 19 ==> cl[i] < 8
    {
      PlaceInverts(j);
      forall i | 0 <= i < j ensures BORDER[i] != BORDER[j] { PlaceInverts(i); }
      var x := 0;
      if j < nb {
        BitsBound(r.input, r.Pos(), 3);
        Pow3();
        ok, x := GetBits(r, 3);
        if !ok { return; }
      }
      cl := cl[BORDER[j] := x];
      j := j + 1;
    }
    forall i | 0 <= i < 19 ensures BORDER[i] < 19 { PlaceInverts(i); }
  }

  lemma Pow3()
    ensures Pow2(3) == 8
  {
  }

  // ---- The code lengths

  /** Tables for the 19 length symbols that are all in the root. */
  ghost predicate Flat(b: seq<nat>, l: nat, tabs: Tables) {
    |b| == 19 && Builds(b) && Decoder(b, l, tabs, 19, [], []) && (tabs != [] ==> Sized(l, l, tabs))
  }

  /** With three symbols or more, a list that is accepted and proper is complete. */
  lemma ProperIsComplete(b: seq<nat>)
    requires Builds(b) && Proper(b) && |b| >= 3
    ensures NotAllZero(b) && Kraft(b, |b|) == Pow2(BMAX)
  {
    hide Kraft, Pow2;
    if Kraft(b, |b|) == Pow2(BMAX) {
      CompleteNotZero(b);
    } else {
      assert b[0] != 0;
      Inflate.KraftNone(b);
      Inflate.KraftRun(b, 0, |b|, 1);
      Doubles();
      MulMonotone(3, |b|, Pow2(BMAX - 1));
    }
  }

  lemma Doubles()
    ensures Pow2(BMAX) == 2 * Pow2(BMAX - 1) && Pow2(BMAX - 1) > 0
  {
  }

  /** A lookup that ends in the root table. */
  method LookupFlat(r: BitReader, tabs: Tables, l: nat, ghost b: seq<nat>)
    returns (st: Status, j: nat)
    requires r.Valid() && Flat(b, l, tabs)
    modifies r
    ensures r.Valid() && st != Bad
    ensures st == Ok ==> j < 19 && CodeAt(b, r.input, old(r.Pos()), j) && old(r.Pos()) < r.Pos() == old(r.Pos()) + b[j]
    ensures st == Eof ==> 8 * |r.input| < old(r.Pos()) + BMAX
    ensures st != Eof ==> (st == Undefined <==> Lost(b, r.input, old(r.Pos())))
  {
    hide BitsAt, Walk, Total, Sound, CodeAt, Kraft, Reach, Proper, Builds, Lost, NotAllZero;
    j := 0;
    ghost var p, m := r.Pos(), l + BMAX;
    if tabs == [] {
      ZeroLost(b, r.input, p);
      return Undefined, 0;
    }
    var ok := r.NeedBits(l);
    if !ok { return Eof, 0; }
    var i := r.PeekBits(l);
    assert Walked(tabs, l, r.input, p, m, 0, l, 0);
    WalkedStep(tabs, l, r.input, p, m, 0, l, 0);
    var td := tabs[0][i];
    assert EntrySized(l, l, tabs, 0, td);
    r.DumpBits(td.b);
    j := td.leaf.n;
    FlatSymbol(b, l, tabs, r.input, p, m, td.leaf, td.b);
    st := if td.leaf.e == JUNK then Undefined else Ok;
  }

  lemma FlatSymbol(b: seq<nat>, l: nat, tabs: Tables, input: seq<nat>, p: nat, m: nat, leaf: Leaf, bits: nat)
    requires |b| == 19 && Builds(b) && Sound(b, l, tabs, 19, [], []) && m >= BMAX
    requires Walk(tabs, 0, l, 0, BitsAt(input, p, m)) == Found(leaf, bits)
    ensures leaf.e == JUNK <==> Lost(b, input, p)
    ensures leaf.e != JUNK ==> leaf.n < 19 && CodeAt(b, input, p, leaf.n) && bits == b[leaf.n]
  {
    hide Walk, Kraft, BitsAt, CodeAt, Sound, Proper;
    var sym := LookupIs(b, l, tabs, 19, [], [], input, p, m);
    if CodeAt(b, input, p, sym) {
      ShortCode(b, input, p, sym);
    } else if Proper(b) {
      ProperIsComplete(b);
      SomeCodeHere(b, input, p);
    }
  }

  lemma SomeCodeHere(b: seq<nat>, input: seq<nat>, p: nat)
    requires Lengths(b) && NotAllZero(b) && Kraft(b, |b|) == Pow2(BMAX)
    ensures !NoCode(b, input, p)
  {
    hide Kraft, BitsAt, StartsWith;
    var sym := ExactlyOne(b, BitsAt(input, p, BMAX));
    assert CodeAt(b, input, p, sym);
  }

  /** Repeats a length, or zero, k times. */
  method Append(lens0: seq<nat>, k: nat, x: nat) returns (lens: seq<nat>)
    ensures lens == lens0 + seq(k, _ => x)
  {
    lens := lens0;
    var j := k;
    while j > 0
      invariant 0 <= j <= k && lens == lens0 + seq(k - j, _ => x)
    {
      j := j - 1;
      lens := lens + [x];
    }
  }

  /** An item that still fits is here, and there are BMAX bits more after it. */
  ghost predicate ItemHere(cl: seq<nat>, input: seq<nat>, p: nat, lens: seq<nat>, n: nat) {
    exists item, q: nat :: ItemAt(cl, input, p, item, q) && q + BMAX <= 8 * |input| && |PutItem(lens, item)| <= n
  }

  lemma ItemHereIs(cl: seq<nat>, input: seq<nat>, p: nat, lens: seq<nat>, n: nat, j: nat)
    requires Lengths(cl) && ItemHere(cl, input, p, lens, n) && CodeAt(cl, input, p, j)
    ensures j < 19 && j < |cl|
    ensures p + cl[j] + (if j < 16 then 0 else if j == 16 then 2 else if j == 17 then 3 else 7) + BMAX <= 8 * |input|
    ensures j == 16 ==> |lens| + 3 + BitsAt(input, p + cl[j], 2) <= n
    ensures j == 17 ==> |lens| + 3 + BitsAt(input, p + cl[j], 3) <= n
    ensures j == 18 ==> |lens| + 11 + BitsAt(input, p + cl[j], 7) <= n
  {
    hide BitsAt, CodeOf, Rev;
    var item, q: nat :| ItemAt(cl, input, p, item, q) && q + BMAX <= 8 * |input| && |PutItem(lens, item)| <= n;
    var s := ItemSymbol(cl, input, p, item, q);
    SymbolUnique(cl, input, p, s, j);
  }

  lemma ItemHereRoom(cl: seq<nat>, input: seq<nat>, p: nat, lens: seq<nat>, n: nat)
    requires ItemHere(cl, input, p, lens, n)
    ensures p + BMAX <= 8 * |input| && !Lost(cl, input, p)
  {
    hide BitsAt, CodeOf, Rev, Lost;
    var item, q: nat :| ItemAt(cl, input, p, item, q) && q + BMAX <= 8 * |input| && |PutItem(lens, item)| <= n;
    PutItemGrows(lens, cl, input, p, item, q);
    ItemNotLost(cl, input, p, item, q);
  }

  /** A repeat that is too long leaves nothing that fits. */
  lemma NothingFits(cl: seq<nat>, input: seq<nat>, p: nat, lens: seq<nat>, n: nat, j: nat)
    requires Lengths(cl) && 16 <= j < 19 && j < |cl| && CodeAt(cl, input, p, j)
    requires j == 16 ==> |lens| + 3 + BitsAt(input, p + cl[j], 2) > n
    requires j == 17 ==> |lens| + 3 + BitsAt(input, p + cl[j], 3) > n
    requires j == 18 ==> |lens| + 11 + BitsAt(input, p + cl[j], 7) > n
    ensures NoItem(cl, input, p, lens, n)
  {
    hide BitsAt, CodeAt;
    forall item, q: nat | ItemAt(cl, input, p, item, q) ensures |PutItem(lens, item)| > n {
      var s := ItemSymbol(cl, input, p, item, q);
      SymbolUnique(cl, input, p, s, j);
    }
  }

  lemma FlatLengths(cl: seq<nat>, l: nat, tabs: Tables)
    requires Flat(cl, l, tabs)
    ensures Lengths(cl) && |cl| == 19
  {
    hide Builds, Sound, Walkable;
  }

  /** One entry of the list of code lengths. */
  method NextItem(r: BitReader, tabs: Tables, l: nat, n: nat, lens0: seq<nat>, last0: nat, ghost cl: seq<nat>)
    returns (st: Status, lens: seq<nat>, last: nat, ghost item: Item)
    requires r.Valid() && Flat(cl, l, tabs)
    requires |lens0| < n && last0 == Last(lens0) && Lengths(lens0)
    modifies r
    ensures r.Valid() && last == Last(lens) && Lengths(lens) && |lens| <= n
    ensures st == Ok ==>
      r.Pos() > old(r.Pos()) && ItemAt(cl, r.input, old(r.Pos()), item, r.Pos()) && lens == PutItem(lens0, item)
    ensures st != Ok ==> lens == lens0
    ensures st == Bad ==> NoItem(cl, r.input, old(r.Pos()), lens0, n)
    ensures st == Eof ==> 8 * |r.input| < old(r.Pos()) + 2 * BMAX
    ensures st != Eof ==> (st == Undefined <==> Lost(cl, r.input, old(r.Pos())))
    ensures ItemHere(cl, r.input, old(r.Pos()), lens0, n) ==> st == Ok
  {
    hide BitsAt, Flat, CodeAt, ItemHere, Lost, NoItem;
    lens, last, item := lens0, last0, Len(0);
    ghost var p := r.Pos();
    FlatLengths(cl, l, tabs);
    ghost var here := ItemHere(cl, r.input, p, lens0, n);
    if here { ItemHereRoom(cl, r.input, p, lens0, n); }
    var j;
    st, j := LookupFlat(r, tabs, l, cl);
    if st != Ok { return; }
    CodeNotLost(cl, r.input, p, j);
    if here { ItemHereIs(cl, r.input, p, lens0, n, j); }
    if j < 16 {
      lens, last, item := lens + [j], j, Len(j);
    } else {
      var wide, least := if j == 16 then 2 else if j == 17 then 3 else 7, if j <= 17 then 3 else 11;
      var ok, x := GetBits(r, wide);
      if !ok { return Eof, lens, last, item; }
      var k := least + x;
      if |lens| + k > n {
        NothingFits(cl, r.input, p, lens, n, j);
        return Bad, lens, last, item;
      }
      if j == 16 {
        lens := Append(lens, k, last);
        item := Repeat(k);
      } else {
        lens := Append(lens, k, 0);
        last, item := 0, Zeros(k);
      }
    }
  }

  lemma CodeNotLost(b: seq<nat>, input: seq<nat>, p: nat, sym: nat)
    requires Lengths(b) && CodeAt(b, input, p, sym)
    ensures !Lost(b, input, p) && sym < |b| && b[sym] <= BMAX
  {
    hide Proper;
  }

  ghost predicate ListAt(cl: seq<nat>, input: seq<nat>, p: nat, n: nat, items: seq<Item>, ips: seq<nat>) {
    ItemsAt(cl, input, items, ips) && ips[0] == p && |ExpandItems(items)| == n && ips[|items|] + BMAX <= 8 * |input|
  }

  /** A list of n code lengths is here, and there are BMAX bits more after it. */
  ghost predicate ListHere(cl: seq<nat>, input: seq<nat>, p: nat, n: nat) {
    exists items, ips :: ListAt(cl, input, p, n, items, ips)
  }

  lemma NextHere(cl: seq<nat>, input: seq<nat>, p: nat, n: nat, items0: seq<Item>, ips0: seq<nat>, items: seq<Item>,
                 ips: seq<nat>)
    requires Lengths(cl) && ListAt(cl, input, p, n, items0, ips0) && ItemsAt(cl, input, items, ips) && ips[0] == p
    requires |items| <= |items0| && |ExpandItems(items)| < n
    ensures |items| < |items0| && ItemHere(cl, input, ips[|items|], ExpandItems(items), n)
  {
    hide ItemAt, PutItem;
    var i := |items|;
    ItemsAgree(cl, input, items, ips, items0, ips0, i);
    assert ips[i] == ips[..i + 1][i] == ips0[i] && items[..i] == items && items0[..|items0|] == items0;
    assert i < |items0|;
    ItemsGrow(cl, input, items0, ips0, i + 1, |items0|);
    assert items0[..i + 1] == items0[..i] + [items0[i]];
    ExpandItemsMore(items0[..i], items0[i]);
    assert ItemAt(cl, input, ips0[i], items0[i], ips0[i + 1]);
  }

  /** A list of n code lengths. In any case, what was read before the decoder stopped are items. */
  method ReadLengths(r: BitReader, tabs: Tables, l: nat, n: nat, ghost cl: seq<nat>)
    returns (st: Status, lens: seq<nat>, ghost items: seq<Item>, ghost ips: seq<nat>)
    requires r.Valid() && Flat(cl, l, tabs)
    modifies r
    ensures r.Valid() && Lengths(lens) && |lens| <= n
    ensures ItemsAt(cl, r.input, items, ips) && ips[0] == old(r.Pos()) && ExpandItems(items) == lens
    ensures st == Ok ==> |lens| == n && ips[|items|] == r.Pos() >= old(r.Pos())
    ensures st == Bad ==> |lens| < n && NoItem(cl, r.input, ips[|items|], lens, n)
    ensures st == Eof ==> 8 * |r.input| < ips[|items|] + 2 * BMAX
    ensures st == Undefined ==> LostList(cl, r.input, old(r.Pos()), n, items, ips, ips[|items|])
    ensures forall i, s, q: nat :: LostList(cl, r.input, old(r.Pos()), n, i, s, q) ==>
      st == Undefined || (st == Eof && 8 * |r.input| < q + 2 * BMAX)
    ensures ListHere(cl, r.input, old(r.Pos()), n) ==> st == Ok
  {
    hide Flat, ItemAt, PutItem, ItemHere, ListAt, Lost, NoItem, LostList;
    st, lens, items, ips := Ok, [], [], [r.Pos()];
    FlatLengths(cl, l, tabs);
    ghost var here := ListHere(cl, r.input, r.Pos(), n);
    ghost var items0: seq<Item>, ips0: seq<nat> := [], [];
    if here {
      items0, ips0 :| ListAt(cl, r.input, r.Pos(), n, items0, ips0);
    }
    var last := 0;
    while |lens| < n
      invariant r.Valid() && |lens| <= n && last == Last(lens) && Lengths(lens) && st == Ok
      invariant ItemsAt(cl, r.input, items, ips) && ips[|items|] == r.Pos() && ips[0] == old(r.Pos()) <= r.Pos()
      invariant ExpandItems(items) == lens
      invariant here ==> ListAt(cl, r.input, old(r.Pos()), n, items0, ips0) && |items| <= |items0|
      decreases 8 * |r.input| - r.Pos()
    {
      ghost var item;
      if here { NextHere(cl, r.input, old(r.Pos()), n, items0, ips0, items, ips); }
      st, lens, last, item := NextItem(r, tabs, l, n, lens, last, cl);
      if st != Ok {
        WhetherLostList(cl, r.input, n, items, ips, st);
        return;
      }
      ItemsMore(cl, r.input, items, ips, item, r.Pos());
      ExpandItemsMore(items, item);
      items, ips := items + [item], ips + [r.Pos()];
    }
    WhetherLostList(cl, r.input, n, items, ips, st);
  }

  /** Where the decoder stops decides whether it is lost. */
  lemma WhetherLostList(cl: seq<nat>, input: seq<nat>, n: nat, items: seq<Item>, ips: seq<nat>, st: Status)
    requires Lengths(cl) && ItemsAt(cl, input, items, ips)
    requires st == Ok ==> |ExpandItems(items)| == n
    requires st == Bad ==> NoItem(cl, input, ips[|items|], ExpandItems(items), n) && !Lost(cl, input, ips[|items|])
    requires st == Undefined ==> |ExpandItems(items)| < n && Lost(cl, input, ips[|items|])
    ensures st == Undefined ==> LostList(cl, input, ips[0], n, items, ips, ips[|items|])
    ensures forall i, s, q: nat :: LostList(cl, input, ips[0], n, i, s, q) ==>
      st == Undefined || (st == Eof && ips[|items|] <= q)
  {
    hide ItemAt, Lost, NoItem, ExpandItems;
    forall i, s, q: nat | LostList(cl, input, ips[0], n, i, s, q)
      ensures st == Undefined || (st == Eof && ips[|items|] <= q)
    {
      LostListBound(cl, input, n, items, ips, i, s, q);
    }
  }

  // ---- The whole block

  lemma FlatRoot(cl: seq<nat>)
    requires Feasible(cl) && forall i :: 0 <= i < |cl| ==> cl[i] < 8
    ensures RootBits(Counts(cl), 7) == MaxLen(Counts(cl), BMAX)
  {
    LongestIs(cl);
  }

  ghost predicate HeaderHere(input: seq<nat>, p: nat, cl: seq<nat>, items: seq<Item>, ips: seq<nat>,
                             ll: seq<nat>, dl: seq<nat>, q: nat) {
    HeaderAt(input, p, cl, items, ips, ll, dl, q) && Builds(cl) && q + BMAX <= 8 * |input|
  }

  /** The header of a dynamic block is here, and there are BMAX bits more after it. */
  ghost predicate HasHeader(input: seq<nat>, p: nat) {
    exists cl, items, ips, ll, dl, q: nat :: HeaderHere(input, p, cl, items, ips, ll, dl, q)
  }

  lemma HeaderRoom(input: seq<nat>, p: nat)
    requires HasHeader(input, p)
    ensures 257 + BitsAt(input, p, 5) <= 286 && 1 + BitsAt(input, p + 5, 5) <= 30
    ensures p + 14 + 3 * (4 + BitsAt(input, p + 10, 4)) + BMAX <= 8 * |input|
  {
    hide BitsAt, OrderAt, ItemAt, Builds;
    var cl, items, ips, ll, dl, q: nat :| HeaderHere(input, p, cl, items, ips, ll, dl, q);
    ItemsGrow(cl, input, items, ips, 0, |items|);
  }

  /** The code for code lengths that was read is the right one, and the list follows. */
  lemma HeaderOrder(input: seq<nat>, p: nat, order: seq<nat>)
    requires HasHeader(input, p) && OrderAt(input, p + 14, 4 + BitsAt(input, p + 10, 4), order)
    ensures Builds(order)
    ensures ListHere(order, input, p + 14 + 3 * (4 + BitsAt(input, p + 10, 4)),
      257 + BitsAt(input, p, 5) + (1 + BitsAt(input, p + 5, 5)))
  {
    hide BitsAt, OrderAt, ItemAt, Builds;
    var cl, items, ips, ll, dl, q: nat :| HeaderHere(input, p, cl, items, ips, ll, dl, q);
    OrderUnique(input, p + 14, 4 + BitsAt(input, p + 10, 4), cl, order);
    assert ListAt(cl, input, p + 14 + 3 * (4 + BitsAt(input, p + 10, 4)), |ll + dl|, items, ips);
  }

  /** A header whose sizes or code for code lengths are refused, or whose list does not fit. */
  lemma BadOrder(input: seq<nat>, p: nat, order: seq<nat>)
    requires OrderAt(input, p + 14, 4 + BitsAt(input, p + 10, 4), order) && !Builds(order)
    ensures NoHeader(input, p) && forall q: nat :: !LosesHeader(input, p, q)
  {
    hide BitsAt, OrderAt, Builds, ItemsAt, ExpandItems, LostList;
    forall c, i, s, l, d, q: nat ensures HeaderAt(input, p, c, i, s, l, d, q) ==> !Builds(c) {
      if HeaderAt(input, p, c, i, s, l, d, q) {
        OrderUnique(input, p + 14, 4 + BitsAt(input, p + 10, 4), c, order);
      }
    }
    forall c, i, s, q: nat ensures !LostHeader(input, p, c, i, s, q) {
      if LostHeader(input, p, c, i, s, q) {
        OrderUnique(input, p + 14, 4 + BitsAt(input, p + 10, 4), c, order);
      }
    }
  }

  lemma BadSizes(input: seq<nat>, p: nat)
    requires 257 + BitsAt(input, p, 5) > 286 || 1 + BitsAt(input, p + 5, 5) > 30
    ensures NoHeader(input, p) && forall q: nat :: !LosesHeader(input, p, q)
  {
    hide BitsAt, OrderAt, Builds, ItemsAt, ExpandItems, LostList;
  }

  lemma BadList(input: seq<nat>, p: nat, order: seq<nat>, items: seq<Item>, ips: seq<nat>)
    requires OrderAt(input, p + 14, 4 + BitsAt(input, p + 10, 4), order) && Lengths(order)
    requires ItemsAt(order, input, items, ips)
    requires ips[0] == p + 14 + 3 * (4 + BitsAt(input, p + 10, 4))
    requires var n := 257 + BitsAt(input, p, 5) + (1 + BitsAt(input, p + 5, 5));
      |ExpandItems(items)| < n && NoItem(order, input, ips[|items|], ExpandItems(items), n)
    ensures NoHeader(input, p)
  {
    hide BitsAt, OrderAt, Builds, ItemAt, ExpandItems, HeaderAt, NoItem;
    forall c, i, s, l, d, q: nat ensures !HeaderAt(input, p, c, i, s, l, d, q) {
      if HeaderAt(input, p, c, i, s, l, d, q) {
        HeaderList(input, p, c, i, s, l, d, q);
        OrderUnique(input, p + 14, 4 + BitsAt(input, p + 10, 4), c, order);
        StuckNoList(order, input, 257 + BitsAt(input, p, 5) + (1 + BitsAt(input, p + 5, 5)), items, ips, i, s);
      }
    }
  }

  /** The decoder gets lost in the list that it reads. */
  lemma LostInList(input: seq<nat>, p: nat, order: seq<nat>, q: nat) returns (i: seq<Item>, s: seq<nat>)
    requires OrderAt(input, p + 14, 4 + BitsAt(input, p + 10, 4), order) && LosesHeader(input, p, q)
    ensures var n := 257 + BitsAt(input, p, 5) + (1 + BitsAt(input, p + 5, 5));
      LostList(order, input, p + 14 + 3 * (4 + BitsAt(input, p + 10, 4)), n, i, s, q)
  {
    hide BitsAt, OrderAt, Builds, ItemAt, ExpandItems, Lost;
    var c;
    c, i, s :| LostHeader(input, p, c, i, s, q);
    OrderUnique(input, p + 14, 4 + BitsAt(input, p + 10, 4), c, order);
  }

  lemma LostBeyond(input: seq<nat>, p: nat, q: nat)
    requires LosesHeader(input, p, q)
    ensures p + 14 + 3 * (4 + BitsAt(input, p + 10, 4)) <= q
  {
    hide BitsAt, OrderAt, Builds, ItemAt, ExpandItems, Lost;
    var c, i, s :| LostHeader(input, p, c, i, s, q);
    ItemsGrow(c, input, i, s, 0, |i|);
  }

  /** The three numbers that begin the header, and the code for code lengths. */
  method ReadSizes(r: BitReader)
    returns (st: Status, nl: nat, nd: nat, order: seq<nat>)
    requires r.Valid()
    modifies r
    ensures r.Valid() && st != Undefined
    ensures st == Eof ==> 8 * |r.input| < old(r.Pos()) + 14 + 3 * (4 + BitsAt(r.input, old(r.Pos()) + 10, 4))
    ensures st == Bad ==> 257 + BitsAt(r.input, old(r.Pos()), 5) > 286 || 1 + BitsAt(r.input, old(r.Pos()) + 5, 5) > 30
    ensures st == Ok ==>
      && nl == 257 + BitsAt(r.input, old(r.Pos()), 5) <= 286 && nd == 1 + BitsAt(r.input, old(r.Pos()) + 5, 5) <= 30
      && OrderAt(r.input, old(r.Pos()) + 14, 4 + BitsAt(r.input, old(r.Pos()) + 10, 4), order)
      && r.Pos() == old(r.Pos()) + 14 + 3 * (4 + BitsAt(r.input, old(r.Pos()) + 10, 4))
      && |order| == 19 && forall i :: 0 <= i < 19 ==> order[i] < 8
  {
    hide BitsAt, OrderAt, Pow2;
    nl, nd, order := 0, 0, [];
    ghost var p := r.Pos();
    var ok, nb;
    ok, nl := GetBits(r, 5);
    if !ok { st := Eof; return; }
    ok, nd := GetBits(r, 5);
    if !ok { st := Eof; return; }
    ok, nb := GetBits(r, 4);
    if !ok { st := Eof; return; }
    nl, nd, nb := 257 + nl, 1 + nd, 4 + nb;
    BitsBound(r.input, p + 10, 4);
    Pow4();
    if nl > 286 || nd > 30 { st := Bad; return; }
    ok, order := ReadOrder(r, nb);
    if !ok { st := Eof; return; }
    OrderLength(r.input, p + 14, nb, order);
    st := Ok;
  }

  /** Everything before the tables for the block itself. */
  method ReadHeader(r: BitReader)
    returns (st: Status, ll: seq<nat>, dl: seq<nat>, ghost cl: seq<nat>, ghost items: seq<Item>, ghost ips: seq<nat>)
    requires r.Valid()
    modifies r
    ensures r.Valid()
    ensures st == Ok ==>
      && r.Pos() >= old(r.Pos()) && 257 <= |ll| <= 286 && 1 <= |dl| <= 30 && Lengths(ll) && Lengths(dl)
      && HeaderAt(r.input, old(r.Pos()), cl, items, ips, ll, dl, r.Pos()) && Builds(cl)
    ensures st == Bad ==> NoHeader(r.input, old(r.Pos()))
    ensures st == Undefined ==> |ips| == |items| + 1 && LosesHeader(r.input, old(r.Pos()), ips[|items|])
    ensures forall q: nat :: LosesHeader(r.input, old(r.Pos()), q) ==>
      st == Undefined || (st == Eof && 8 * |r.input| < q + 2 * BMAX)
    ensures HasHeader(r.input, old(r.Pos())) ==> st == Ok
  {
    hide Kraft, BitsAt, Sized, OrderAt, ItemAt, ExpandItems, Pow2, HasHeader, ListHere, Builds, LosesHeader, LostList;
    hide Decoder, NoItem, Suits, MaxLen, RootBits;
    ll, dl, cl, items, ips := [], [], [], [], [];
    ghost var p := r.Pos();
    ghost var has := HasHeader(r.input, p);
    if has { HeaderRoom(r.input, p); }
    forall q: nat | LosesHeader(r.input, p, q)
      ensures p + 14 + 3 * (4 + BitsAt(r.input, p + 10, 4)) <= q
    {
      LostBeyond(r.input, p, q);
    }
    var nl, nd, order;
    st, nl, nd, order := ReadSizes(r);
    if st == Bad { BadSizes(r.input, p); }
    if st != Ok { return; }
    cl := order;
    if has { HeaderOrder(r.input, p, order); }
    OrderSuits(order);
    var rc, tabs, l := MakeTables(order, 19, [], [], 7);
    if rc != 0 {
      BadOrder(r.input, p, order);
      st := Bad;
      return;
    }
    assert Flat(order, l, tabs) by { IsFlat(order, l, tabs); }
    var lens;
    st, lens, items, ips := ReadLengths(r, tabs, l, nl + nd, order);
    forall q: nat | LosesHeader(r.input, p, q) ensures st == Undefined || (st == Eof && 8 * |r.input| < q + 2 * BMAX) {
      var i, s := LostInList(r.input, p, order, q);
    }
    if st == Bad { BadList(r.input, p, order, items, ips); }
    if st == Undefined { assert LosesHeader(r.input, p, ips[|items|]) by { LosesIt(r.input, p, order, items, ips); } }
    if st != Ok { return; }
    ll, dl := lens[..nl], lens[nl..];
    assert ll + dl == lens;
  }

  lemma LosesIt(input: seq<nat>, p: nat, cl: seq<nat>, items: seq<Item>, ips: seq<nat>)
    requires |ips| == |items| + 1 && LostHeader(input, p, cl, items, ips, ips[|items|])
    ensures LosesHeader(input, p, ips[|items|])
  {
    hide LostHeader;
  }

  lemma OrderSuits(order: seq<nat>)
    requires |order| == 19 && forall i :: 0 <= i < 19 ==> order[i] < 8
    ensures Lengths(order) && Suits(order, 7) && Marks([])
  {
    hide Short;
    Pow7();
  }

  /** Without codes there are no tables. */
  lemma NeverWithout(b: seq<nat>, l: nat, tabs: Tables)
    requires Decoder(b, l, tabs, 19, [], []) && tabs != []
    ensures NotAllZero(b)
  {
  }

  /** Codes of at most seven bits are all in the root. */
  lemma IsFlat(b: seq<nat>, l: nat, tabs: Tables)
    requires |b| == 19 && (forall i :: 0 <= i < 19 ==> b[i] < 8) && Builds(b) && Decoder(b, l, tabs, 19, [], [])
    requires Sized(l, MaxLen(Counts(b), BMAX), tabs) && (NotAllZero(b) ==> l == RootBits(Counts(b), 7))
    ensures Flat(b, l, tabs)
  {
    hide Kraft, Sized, MaxLen, RootBits, Sound, Total;
    if tabs != [] && NotAllZero(b) {
      FlatRoot(b);
    } else if tabs != [] {
      NeverWithout(b, l, tabs);
    }
  }

  lemma OrderLength(input: seq<nat>, p: nat, nb: nat, cl: seq<nat>)
    requires OrderAt(input, p, nb, cl)
    ensures |cl| == 19
  {
  }

  lemma Pow4()
    ensures Pow2(4) == 16
  {
  }

  lemma Pow7()
    ensures Pow2(7) == 128
  {
    SmallPowers();
  }

  /** The decoder accepts the lists of lengths of the block. */
  ghost predicate Accepted(block: Block) {
    block.Dynamic? ==> Builds(block.cl) && Builds(block.ll) && Builds(block.dl)
  }

  ghost predicate DynamicAt(input: seq<nat>, p: nat, block: Block, q: nat) {
    && block.Dynamic? && block.ips != []
    && HeaderAt(input, p, block.cl, block.items, block.ips, block.ll, block.dl, block.ips[|block.ips| - 1])
    && CodesAt(block.ll, block.dl, input, block.ips[|block.ips| - 1], block.toks, block.ps, q)
  }

  /** A dynamic block that the decoder accepts is here, and there are BMAX bits more after it. */
  ghost predicate HasDynamic(input: seq<nat>, p: nat) {
    exists block, q: nat :: DynamicAt(input, p, block, q) && Accepted(block) && q + BMAX <= 8 * |input|
  }

  /** No dynamic block that the decoder accepts is here. */
  ghost predicate NoDynamic(input: seq<nat>, p: nat) {
    forall block, q: nat :: DynamicAt(input, p, block, q) ==> !Accepted(block)
  }

  lemma DynamicHeader(input: seq<nat>, p: nat)
    requires HasDynamic(input, p)
    ensures HasHeader(input, p)
  {
    hide BitsAt, CodeOf, Rev, HeaderAt, Builds, TokenAt;
    var block, q: nat :| DynamicAt(input, p, block, q) && Accepted(block) && q + BMAX <= 8 * |input|;
    var q1 := block.ips[|block.ips| - 1];
    CodesAdvance(block.ll, block.dl, input, q1, block.toks, block.ps, q);
    assert HeaderHere(input, p, block.cl, block.items, block.ips, block.ll, block.dl, q1);
  }

  lemma CodesAdvance(ll: seq<nat>, dl: seq<nat>, input: seq<nat>, p: nat, toks: seq<Token>, ps: seq<nat>, q: nat)
    requires CodesAt(ll, dl, input, p, toks, ps, q)
    ensures p < q
  {
    hide TokenAt, CodeAt;
    TokensAdvance(ll, dl, input, toks, ps, 0, |toks|);
    EndAfter(ll, dl, input, p, toks, ps, q);
  }

  /** The header that was read is that of the block. */
  lemma DynamicCodes(input: seq<nat>, p: nat, cl: seq<nat>, items: seq<Item>, ips: seq<nat>, ll: seq<nat>,
                     dl: seq<nat>, q1: nat,
                     block: Block, q: nat)
    requires HeaderAt(input, p, cl, items, ips, ll, dl, q1) && Lengths(cl) && DynamicAt(input, p, block, q)
    ensures block.cl == cl && block.ll == ll && block.dl == dl && CodesAt(ll, dl, input, q1, block.toks, block.ps, q)
  {
    hide BitsAt, HeaderAt, TokenAt, CodeAt;
    HeaderUnique(input, p, cl, items, ips, ll, dl, q1, block.cl, block.items, block.ips, block.ll, block.dl,
      block.ips[|block.ips| - 1]);
  }

  /** After a header with an accepted code for code lengths, what makes the block one that the
      decoder accepts. */
  lemma AfterHeader(input: seq<nat>, p: nat, cl: seq<nat>, items: seq<Item>, ips: seq<nat>, ll: seq<nat>,
                    dl: seq<nat>, h: nat)
    requires HeaderAt(input, p, cl, items, ips, ll, dl, h) && Builds(cl)
    ensures HasDynamic(input, p) ==> Builds(ll) && Builds(dl) && Ends(ll, dl, input, h)
    ensures !Builds(ll) || !Builds(dl) || NoCodes(ll, dl, input, h) ==> NoDynamic(input, p)
    ensures forall q: nat :: LostDynamic(input, p, q) ==> Builds(ll) && Builds(dl) && LostCodes(ll, dl, input, h, q)
  {
    hide BitsAt, HeaderAt, CodesAt, LostCodes, LostDynamic, Kraft;
    forall block, q: nat | DynamicAt(input, p, block, q)
      ensures block.ll == ll && block.dl == dl && CodesAt(ll, dl, input, h, block.toks, block.ps, q)
    {
      DynamicCodes(input, p, cl, items, ips, ll, dl, h, block, q);
    }
    if HasDynamic(input, p) {
      var block, q: nat :| DynamicAt(input, p, block, q) && Accepted(block) && q + BMAX <= 8 * |input|;
      assert EndsAt(ll, dl, input, h, block.toks, block.ps, q);
    }
    forall q: nat | LostDynamic(input, p, q) ensures Builds(ll) && Builds(dl) && LostCodes(ll, dl, input, h, q) {
      LostInBody(input, p, cl, items, ips, ll, dl, h, q);
    }
  }

  /** Without a header there is no block, and nowhere else to get lost. */
  lemma WithoutHeader(input: seq<nat>, p: nat)
    requires NoHeader(input, p)
    ensures NoDynamic(input, p) && forall q: nat :: !LosesBody(input, p, q)
  {
    hide HeaderAt, CodesAt, Builds, LosesBody;
    forall q: nat ensures !LosesBody(input, p, q) { NoHeaderNoBody(input, p, q); }
  }

  /** Where the input ends inside the header, it does so before the decoder could get lost. */
  lemma BodyBeyond(input: seq<nat>, p: nat, q: nat)
    requires LosesBody(input, p, q) && !HasHeader(input, p)
    ensures 8 * |input| < q + BMAX
  {
    hide HeaderAt, Builds, TokenAt, LostToken;
    var cl, items, ips, ll, dl, h: nat :| LostBody(input, p, cl, items, ips, ll, dl, h, q);
    var t, s :| LostAfter(ll, dl, input, h, t, s, q);
    TokensAdvance(ll, dl, input, t, s, 0, |t|);
    assert h + BMAX <= 8 * |input| ==> HeaderHere(input, p, cl, items, ips, ll, dl, h);
  }

  lemma HeaderEnd(input: seq<nat>, p: nat, cl: seq<nat>, items: seq<Item>, ips: seq<nat>, ll: seq<nat>, dl: seq<nat>,
                  q: nat)
    requires HeaderAt(input, p, cl, items, ips, ll, dl, q)
    ensures ips != [] && ips[|ips| - 1] == q
  {
    hide BitsAt, OrderAt, ItemAt;
  }

  /** Tables for the two codes of a block. */
  method BlockTables(ll: seq<nat>, dl: seq<nat>) returns (ok: bool, tl: Tables, bl: nat, td: Tables, bd: nat)
    requires 257 <= |ll| <= 286 && 1 <= |dl| <= 30 && Lengths(ll) && Lengths(dl)
    ensures ok <==> Builds(ll) && Builds(dl)
    ensures ok ==> TablesFor(ll, dl, bl, bd, tl, td)
  {
    hide Kraft, Decoder, Sized, MaxLen, RootBits, Builds, Pow2, Short, NotAllZero;
    td, bd := [], 0;
    assert |ll| < Pow2(9) && |dl| < Pow2(6) by { SmallPowers(); }
    assert Marks(CPLEXT) && Marks(CPDEXT);
    var rc;
    rc, tl, bl := MakeTables(ll, 257, CPLENS, CPLEXT, 9);
    if rc != 0 { return false, tl, bl, td, bd; }
    rc, td, bd := MakeTables(dl, 0, CPDIST, CPDEXT, 6);
    ok := rc == 0;
  }

  method DecodeDynamic(r: BitReader, win: Window) returns (st: Status, ghost block: Block, ghost at: nat)
    requires r.Valid() && win.Valid()
    modifies r, win, win.slide
    ensures r.Valid() && win.Valid() && win.slide == old(win.slide) && block.Dynamic?
    ensures st == Ok ==>
      && r.Pos() > old(r.Pos()) && DynamicAt(r.input, old(r.Pos()), block, r.Pos()) && Accepted(block)
      && win.hist == Expand(old(win.hist), block.toks)
    ensures st == Bad ==> NoDynamic(r.input, old(r.Pos()))
    ensures st == Undefined ==> LostDynamic(r.input, old(r.Pos()), at)
    ensures forall q: nat :: LostDynamic(r.input, old(r.Pos()), q) ==>
      st == Undefined || (st == Eof && 8 * |r.input| < q + 4 * BMAX)
    ensures HasDynamic(r.input, old(r.Pos())) ==> st == Ok
  {
    hide Expand, CodesAt, TokenAt, InWindow, HasHeader, HasDynamic, NoDynamic, Ends, HeaderAt, BitsAt, Builds;
    hide TablesFor, Garbled;
    hide LosesHeader, LosesBody, LostCodes, NoHeader;
    block, at := Dynamic([], [], [], [], [], [], []), 0;
    var ll, dl;
    ghost var cl, items, ips;
    ghost var p := r.Pos();
    if HasDynamic(r.input, p) { DynamicHeader(r.input, p); }
    st, ll, dl, cl, items, ips := ReadHeader(r);
    if st != Ok {
      if st == Bad { WithoutHeader(r.input, p); }
      if st == Undefined { at := ips[|items|]; }
      if st == Eof { forall q: nat | LosesBody(r.input, p, q)
        ensures 8 * |r.input| < q + BMAX { BodyBeyond(r.input, p, q); } }
      return;
    }
    ghost var h := r.Pos();
    AfterHeader(r.input, p, cl, items, ips, ll, dl, h);
    HeaderEnd(r.input, p, cl, items, ips, ll, dl, h);
    var ok, tl, bl, td, bd := BlockTables(ll, dl);
    if !ok { st := Bad; return; }
    ghost var toks, ps;
    st, toks, ps := DecodeCodes(r, win, tl, td, bl, bd, ll, dl);
    block, at := Dynamic(cl, items, ips, ll, dl, toks, ps), ps[|toks|];
    if st == Bad { Inflate.GarbledEverywhere(ll, dl, r.input, toks, ps); }
    if st == Undefined { LosesInBody(r.input, p, cl, items, ips, ll, dl, h, at); }
  }

  lemma LosesInBody(input: seq<nat>, p: nat, cl: seq<nat>, items: seq<Item>, ips: seq<nat>,
                    ll: seq<nat>, dl: seq<nat>, h: nat, q: nat)
    requires HeaderAt(input, p, cl, items, ips, ll, dl, h) && Builds(cl) && Builds(ll) && Builds(dl)
    requires LostCodes(ll, dl, input, h, q)
    ensures LosesBody(input, p, q)
  {
    hide HeaderAt, Builds, LostCodes;
    assert LostBody(input, p, cl, items, ips, ll, dl, h, q);
  }
}
