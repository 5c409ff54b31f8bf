/** Blocks and whole streams of deflate data (sections 3.2.3, 3.2.4, 3.2.6 and 3.2.7 of
    RFC 1951). A block carries the positions of its parts, so that its bits can be read off. */
module InflateFormat {
  import opened Bits
  import opened BitStream
  import opened Canonical
  import opened InflateInput
  import opened InflateSpec

  const BORDER: seq<nat> := [16, 17, 18, 0, 8, 7, 9, 6, 10, 5, 11, 4, 12, 3, 13, 2, 14, 1, 15]

  /** A code length, the last one repeated, or a run of zeros. */
  datatype Item = Len(n: nat) | Repeat(k: nat) | Zeros(k: nat)

  datatype Block =
    | Stored(bytes: seq<nat>)
    | Fixed(toks: seq<Token>, ps: seq<nat>)
    | Dynamic(cl: seq<nat>, items: seq<Item>, ips: seq<nat>, ll: seq<nat>, dl: seq<nat>, toks: seq<Token>, ps: seq<nat>)

  function NextByte(p: nat): nat { (p + 7) / 8 * 8 }

  ghost predicate StoredAt(input: seq<nat>, p: nat, bytes: seq<nat>, q: nat) {
    var p1 := NextByte(p);
    && BitsAt(input, p1, 16) == |bytes| && BitsAt(input, p1 + 16, 16) == 65535 - |bytes|
    && (forall i :: 0 <= i < |bytes| ==> bytes[i] == BitsAt(input, p1 + 32 + 8 * i, 8))
    && q == p1 + 32 + 8 * |bytes|
  }

  function FixedLit(): (r: seq<nat>)
    ensures |r| == 288
  {
    seq(288, i => if i < 144 then 8 else if i < 256 then 9 else if i < 280 then 7 else 8)
  }

  function FixedDist(): (r: seq<nat>)
    ensures |r| == 30
  {
    seq(30, i => 5)
  }

  /** The lengths of the code for code lengths, nb of them given, in their peculiar order. */
  ghost predicate OrderAt(input: seq<nat>, p: nat, nb: nat, cl: seq<nat>) {
    |cl| == 19 && forall j :: 0 <= j < 19 ==> cl[BORDER[j]] == if j < nb then BitsAt(input, p + 3 * j, 3) else 0
  }

  ghost predicate ItemAt(cl: seq<nat>, input: seq<nat>, p: nat, item: Item, q: nat) {
    match item
    case Len(n) => n < 16 && CodeAt(cl, input, p, n) && q == p + cl[n]
    case Repeat(k) => CodeAt(cl, input, p, 16) && k == 3 + BitsAt(input, p + cl[16], 2) && q == p + cl[16] + 2
    case Zeros(k) =>
      || (CodeAt(cl, input, p, 17) && k == 3 + BitsAt(input, p + cl[17], 3) && q == p + cl[17] + 3)
      || (CodeAt(cl, input, p, 18) && k == 11 + BitsAt(input, p + cl[18], 7) && q == p + cl[18] + 7)
  }

  ghost predicate ItemsAt(cl: seq<nat>, input: seq<nat>, items: seq<Item>, ips: seq<nat>) {
    |ips| == |items| + 1 && forall i :: 0 <= i < |items| ==> ItemAt(cl, input, ips[i], items[i], ips[i + 1])
  }

  function Last(lens: seq<nat>): nat {
    if lens == [] then 0 else lens[|lens| - 1]
  }

  function PutItem(lens: seq<nat>, item: Item): seq<nat> {
    match item
    case Len(n) => lens + [n]
    case Repeat(k) => lens + seq(k, _ => Last(lens))
    case Zeros(k) => lens + seq(k, _ => 0)
  }

  function ExpandItems(items: seq<Item>): seq<nat> {
    if items == [] then [] else PutItem(ExpandItems(items[..|items| - 1]), items[|items| - 1])
  }

  /** The header of a dynamic block, up to bit q. */
  ghost predicate HeaderAt(input: seq<nat>, p: nat, cl: seq<nat>, items: seq<Item>, ips: seq<nat>, ll: seq<nat>,
                           dl: seq<nat>, q: nat) {
    var nl, nd, nb := 257 + BitsAt(input, p, 5), 1 + BitsAt(input, p + 5, 5), 4 + BitsAt(input, p + 10, 4);
    && nl <= 286 && nd <= 30 && |ll| == nl && |dl| == nd
    && OrderAt(input, p + 14, nb, cl)
    && ItemsAt(cl, input, items, ips) && ips[0] == p + 14 + 3 * nb && ips[|items|] == q
    && ExpandItems(items) == ll + dl
  }

  /** The bits from p up to q are the block, marked last or not. */
  ghost predicate BlockAt(input: seq<nat>, p: nat, last: bool, block: Block, q: nat) {
    && BitsAt(input, p, 1) == (if last then 1 else 0)
    && match block
       case Stored(bytes) => BitsAt(input, p + 1, 2) == 0 && StoredAt(input, p + 3, bytes, q)
       case Fixed(toks, ps) =>
         BitsAt(input, p + 1, 2) == 1 && CodesAt(FixedLit(), FixedDist(), input, p + 3, toks, ps, q)
       case Dynamic(cl, items, ips, ll, dl, toks, ps) =>
         && BitsAt(input, p + 1, 2) == 2 && ips != [] && HeaderAt(input, p + 3, cl, items, ips, ll, dl, ips[|ips| - 1])
         && CodesAt(ll, dl, input, ips[|ips| - 1], toks, ps, q)
  }

  function PutBlock(hist: seq<nat>, block: Block): seq<nat> {
    match block
    case Stored(bytes) => hist + bytes
    case Fixed(toks, _) => Expand(hist, toks)
    case Dynamic(_, _, _, _, _, toks, _) => Expand(hist, toks)
  }

  function PutBlocks(hist: seq<nat>, blocks: seq<Block>): seq<nat> {
    if blocks == [] then hist else PutBlock(PutBlocks(hist, blocks[..|blocks| - 1]), blocks[|blocks| - 1])
  }

  /** Block i occupies the bits from bps[i] up to bps[i + 1]; exactly the last is marked so. */
  ghost predicate BlocksAt(input: seq<nat>, blocks: seq<Block>, bps: seq<nat>, ended: bool) {
    |bps| == |blocks| + 1 && bps[0] == 0 &&
    forall i :: 0 <= i < |blocks| ==> BlockAt(input, bps[i], ended && i == |blocks| - 1, blocks[i], bps[i + 1])
  }

  lemma ItemsMore(cl: seq<nat>, input: seq<nat>, items: seq<Item>, ips: seq<nat>, item: Item, q: nat)
    requires ItemsAt(cl, input, items, ips) && ItemAt(cl, input, ips[|items|], item, q)
    ensures ItemsAt(cl, input, items + [item], ips + [q])
  {
    hide ItemAt;
    var items', ips' := items + [item], ips + [q];
    forall i | 0 <= i < |items'| ensures ItemAt(cl, input, ips'[i], items'[i], ips'[i + 1]) {
      if i < |items| {
        assert ItemAt(cl, input, ips[i], items[i], ips[i + 1]);
      }
    }
  }

  lemma ExpandItemsMore(items: seq<Item>, item: Item)
    ensures ExpandItems(items + [item]) == PutItem(ExpandItems(items), item)
  {
    assert (items + [item])[..|items|] == items;
  }

  lemma PutBlocksMore(hist: seq<nat>, blocks: seq<Block>, block: Block)
    ensures PutBlocks(hist, blocks + [block]) == PutBlock(PutBlocks(hist, blocks), block)
  {
    assert (blocks + [block])[..|blocks|] == blocks;
  }

  lemma BlocksMore(input: seq<nat>, blocks: seq<Block>, bps: seq<nat>, block: Block, q: nat, last: bool)
    requires BlocksAt(input, blocks, bps, false) && BlockAt(input, bps[|blocks|], last, block, q)
    ensures BlocksAt(input, blocks + [block], bps + [q], last)
  {
    hide BlockAt;
    var blocks', bps' := blocks + [block], bps + [q];
    forall i | 0 <= i < |blocks'| ensures BlockAt(input, bps'[i], last && i == |blocks'| - 1, blocks'[i], bps'[i + 1]) {
      if i < |blocks| {
        assert BlockAt(input, bps[i], false, blocks[i], bps[i + 1]);
      }
    }
  }

  // ---- Readings are unique

  /** No bit string has two readings as an item of the list of code lengths. */
  lemma ItemUnique(cl: seq<nat>, input: seq<nat>, p: nat, i1: Item, q1: nat, i2: Item, q2: nat)
    requires Lengths(cl) && ItemAt(cl, input, p, i1, q1) && ItemAt(cl, input, p, i2, q2)
    ensures i1 == i2 && q1 == q2
  {
    hide BitsAt, CodeAt;
    var s1 := ItemSymbol(cl, input, p, i1, q1);
    var s2 := ItemSymbol(cl, input, p, i2, q2);
    SymbolUnique(cl, input, p, s1, s2);
  }

  /** The symbol that an item begins with says the rest. */
  lemma ItemSymbol(cl: seq<nat>, input: seq<nat>, p: nat, item: Item, q: nat) returns (s: nat)
    requires ItemAt(cl, input, p, item, q)
    ensures s < 19 && s < |cl| && CodeAt(cl, input, p, s)
    ensures s < 16 ==> item == Len(s) && q == p + cl[s]
    ensures s == 16 ==> item == Repeat(3 + BitsAt(input, p + cl[s], 2)) && q == p + cl[s] + 2
    ensures s == 17 ==> item == Zeros(3 + BitsAt(input, p + cl[s], 3)) && q == p + cl[s] + 3
    ensures s == 18 ==> item == Zeros(11 + BitsAt(input, p + cl[s], 7)) && q == p + cl[s] + 7
  {
    hide BitsAt, CodeOf, Rev;
    match item
    case Len(n) => s := n;
    case Repeat(_) => s := 16;
    case Zeros(k) =>
      if CodeAt(cl, input, p, 17) && k == 3 + BitsAt(input, p + cl[17], 3) && q == p + cl[17] + 3 {
        s := 17;
      } else {
        s := 18;
      }
  }

  lemma {:induction false} ItemsAgree(cl: seq<nat>, input: seq<nat>, t1: seq<Item>, p1: seq<nat>, t2: seq<Item>,
                                      p2: seq<nat>, i: nat)
    requires Lengths(cl) && ItemsAt(cl, input, t1, p1) && ItemsAt(cl, input, t2, p2) && p1[0] == p2[0] && i <= |t1|
    requires i <= |t2|
    ensures t1[..i] == t2[..i] && p1[..i + 1] == p2[..i + 1]
  {
    hide ItemAt;
    if i == 0 {
      assert p1[..1] == [p1[0]] && p2[..1] == [p2[0]];
    } else {
      ItemsAgree(cl, input, t1, p1, t2, p2, i - 1);
      assert p1[i - 1] == p1[..i][i - 1] == p2[i - 1];
      ItemUnique(cl, input, p1[i - 1], t1[i - 1], p1[i], t2[i - 1], p2[i]);
      assert t1[..i] == t1[..i - 1] + [t1[i - 1]] && t2[..i] == t2[..i - 1] + [t2[i - 1]];
      assert p1[..i + 1] == p1[..i] + [p1[i]] && p2[..i + 1] == p2[..i] + [p2[i]];
    }
  }

  lemma PutItemGrows(lens: seq<nat>, cl: seq<nat>, input: seq<nat>, p: nat, item: Item, q: nat)
    requires ItemAt(cl, input, p, item, q)
    ensures |PutItem(lens, item)| > |lens| && p < q
  {
    hide BitsAt, CodeOf, Rev;
  }

  lemma {:induction false} ItemsGrow(cl: seq<nat>, input: seq<nat>, items: seq<Item>, ips: seq<nat>, i: nat, j: nat)
    requires ItemsAt(cl, input, items, ips) && i <= j <= |items|
    ensures |ExpandItems(items[..i])| + (j - i) <= |ExpandItems(items[..j])| && ips[i] <= ips[j]
    decreases j
  {
    hide ItemAt, PutItem;
    if i < j {
      ItemsGrow(cl, input, items, ips, i, j - 1);
      assert items[..j] == items[..j - 1] + [items[j - 1]];
      ExpandItemsMore(items[..j - 1], items[j - 1]);
      PutItemGrows(ExpandItems(items[..j - 1]), cl, input, ips[j - 1], items[j - 1], ips[j]);
    }
  }

  /** Two lists of items for the same number of lengths, from the same place, are the same. */
  lemma ItemsUnique(cl: seq<nat>, input: seq<nat>, t1: seq<Item>, p1: seq<nat>, t2: seq<Item>, p2: seq<nat>)
    requires Lengths(cl) && ItemsAt(cl, input, t1, p1) && ItemsAt(cl, input, t2, p2) && p1[0] == p2[0]
    requires |ExpandItems(t1)| == |ExpandItems(t2)|
    ensures t1 == t2 && p1 == p2
  {
    hide ItemAt, ExpandItems;
    var i := if |t1| < |t2| then |t1| else |t2|;
    ItemsAgree(cl, input, t1, p1, t2, p2, i);
    assert t1[..|t1|] == t1 && t2[..|t2|] == t2;
    ItemsGrow(cl, input, t1, p1, i, |t1|);
    ItemsGrow(cl, input, t2, p2, i, |t2|);
    assert p1[..|t1| + 1] == p1 && p2[..|t2| + 1] == p2;
  }

  lemma OrderUnique(input: seq<nat>, p: nat, nb: nat, c1: seq<nat>, c2: seq<nat>)
    requires OrderAt(input, p, nb, c1) && OrderAt(input, p, nb, c2)
    ensures c1 == c2
  {
    hide BitsAt;
    forall i | 0 <= i < 19 ensures c1[i] == c2[i] {
      var j := PLACE[i];
      assert BORDER[j] == i;
    }
  }

  /** Where each code length comes in BORDER. */
  const PLACE: seq<nat> := [3, 17, 15, 13, 11, 9, 7, 5, 4, 6, 8, 10, 12, 14, 16, 18, 0, 1, 2]

  /** The header of a dynamic block has one meaning. */
  lemma HeaderUnique(input: seq<nat>, p: nat, c1: seq<nat>, i1: seq<Item>, s1: seq<nat>, l1: seq<nat>, d1: seq<nat>,
                     q1: nat,
                     c2: seq<nat>, i2: seq<Item>, s2: seq<nat>, l2: seq<nat>, d2: seq<nat>, q2: nat)
    requires Lengths(c1) && HeaderAt(input, p, c1, i1, s1, l1, d1, q1) && HeaderAt(input, p, c2, i2, s2, l2, d2, q2)
    ensures c1 == c2 && i1 == i2 && s1 == s2 && l1 == l2 && d1 == d2 && q1 == q2
  {
    hide BitsAt, OrderAt, ItemsAt, ExpandItems;
    OrderUnique(input, p + 14, 4 + BitsAt(input, p + 10, 4), c1, c2);
    ItemsUnique(c1, input, i1, s1, i2, s2);
    assert l1 == (l1 + d1)[..|l1|] && d1 == (l1 + d1)[|l1|..] && l2 == (l2 + d2)[..|l2|] && d2 == (l2 + d2)[|l2|..];
  }

  lemma StoredUnique(input: seq<nat>, p: nat, b1: seq<nat>, q1: nat, b2: seq<nat>, q2: nat)
    requires StoredAt(input, p, b1, q1) && StoredAt(input, p, b2, q2)
    ensures b1 == b2 && q1 == q2
  {
    hide BitsAt;
  }
}
