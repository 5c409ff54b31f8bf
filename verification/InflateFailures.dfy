/** What deflate data can be that the decoder cannot read: lists of code lengths that it
    refuses, patterns that are no symbol's code, and patterns that it looks up in a table that
    does not exist or in an entry made from a value that was never set. */
module InflateFailures {
  import opened Bits
  import opened BitStream
  import opened Canonical
  import opened Huffman
  import opened InflateInput
  import opened InflateSpec
  import opened InflateFormat

  /** Every bit pattern is a code, or no symbol is without one. */
  ghost predicate Proper(b: seq<nat>) {
    Lengths(b) && (Kraft(b, |b|) == Pow2(BMAX) || 0 !in b)
  }

  /** huft_build reports success: a complete code, none at all, or a single code of one bit. */
  ghost predicate Builds(b: seq<nat>) {
    Lengths(b) &&
    (NotAllZero(b) ==>
       && Kraft(b, |b|) <= Pow2(BMAX)
       && (Kraft(b, |b|) == Pow2(BMAX) || forall j :: 0 <= j < |b| ==> b[j] <= 1))
  }

  /** No symbol's code is here. */
  ghost predicate NoCode(b: seq<nat>, input: seq<nat>, p: nat) {
    forall sym: nat :: !CodeAt(b, input, p, sym)
  }

  /** The lookup here ends in no table, or in an entry made from a value that was never set. */
  ghost predicate Lost(b: seq<nat>, input: seq<nat>, p: nat) {
    !Proper(b) && NoCode(b, input, p)
  }

  lemma {:induction false} KraftZeros(b: seq<nat>, i: nat)
    requires Lengths(b) && i <= |b| && forall j :: 0 <= j < |b| ==> b[j] == 0
    ensures Kraft(b, i) == 0
  {
    if i > 0 {
      KraftZeros(b, i - 1);
    }
  }

  lemma CompleteNotZero(b: seq<nat>)
    requires Lengths(b) && Kraft(b, |b|) == Pow2(BMAX)
    ensures NotAllZero(b)
  {
    hide Kraft;
    if !NotAllZero(b) {
      KraftZeros(b, |b|);
    }
  }

  /** The lists that are accepted but not proper: those without any code, and those with one
      code of one bit and a symbol without a code. */
  lemma ImproperIff(b: seq<nat>)
    requires Builds(b) && b != []
    ensures !Proper(b) <==> !NotAllZero(b) || (0 in b && Kraft(b, |b|) < Pow2(BMAX))
  {
    hide Kraft, Pow2;
    if Kraft(b, |b|) == Pow2(BMAX) { CompleteNotZero(b); }
    if !NotAllZero(b) { assert b[0] == 0; }
  }

  /** Without any code every lookup is lost. */
  lemma ZeroLost(b: seq<nat>, input: seq<nat>, p: nat)
    requires Lengths(b) && b != [] && !NotAllZero(b)
    ensures Lost(b, input, p)
  {
    hide Kraft, Rev, CodeOf, BitsAt;
    if Kraft(b, |b|) == Pow2(BMAX) { CompleteNotZero(b); }
    assert b[0] == 0;
  }

  // ---- Tokens

  /** A length symbol whose distance is lost. */
  ghost predicate LostMatch(ll: seq<nat>, dl: seq<nat>, input: seq<nat>, p: nat, sym: nat) {
    && 257 <= sym <= 285 && CodeAt(ll, input, p, sym)
    && Lost(dl, input, p + ll[sym] + CPLEXT[sym - 257])
  }

  ghost predicate LostToken(ll: seq<nat>, dl: seq<nat>, input: seq<nat>, p: nat) {
    Lost(ll, input, p) || exists sym: nat :: LostMatch(ll, dl, input, p, sym)
  }

  ghost predicate NoToken(ll: seq<nat>, dl: seq<nat>, input: seq<nat>, p: nat) {
    forall tok, q: nat :: !TokenAt(ll, dl, input, p, tok, q)
  }

  /** Neither a token nor the end of the block, and not for want of a table entry. */
  ghost predicate Garbled(ll: seq<nat>, dl: seq<nat>, input: seq<nat>, p: nat) {
    NoToken(ll, dl, input, p) && !CodeAt(ll, input, p, 256) && !LostToken(ll, dl, input, p)
  }

  lemma TokenNotLost(ll: seq<nat>, dl: seq<nat>, input: seq<nat>, p: nat, tok: Token, q: nat)
    requires Lengths(ll) && TokenAt(ll, dl, input, p, tok, q)
    ensures !LostToken(ll, dl, input, p)
  {
    hide CodeAt, BitsAt, Lost;
    var here := TokenSymbol(ll, dl, input, p, tok, q);
    forall sym: nat ensures !LostMatch(ll, dl, input, p, sym) {
      if LostMatch(ll, dl, input, p, sym) {
        SymbolUnique(ll, input, p, sym, here);
      }
    }
  }

  /** The symbol that a token begins with, and neither it nor its distance is lost. */
  lemma TokenSymbol(ll: seq<nat>, dl: seq<nat>, input: seq<nat>, p: nat, tok: Token, q: nat) returns (here: nat)
    requires TokenAt(ll, dl, input, p, tok, q)
    ensures CodeAt(ll, input, p, here) && !Lost(ll, input, p)
    ensures 257 <= here <= 285 ==> here < |ll| && !Lost(dl, input, p + ll[here] + CPLEXT[here - 257])
  {
    hide CodeAt, MatchAt, Proper, BitsAt;
    if tok.Lit? {
      here := tok.byte;
    } else {
      var sym: nat, dsym: nat :| MatchAt(ll, dl, input, p, tok.len, tok.dist, q, sym, dsym);
      here := sym;
      MatchSymbols(ll, dl, input, p, tok.len, tok.dist, q, sym, dsym);
    }
  }

  lemma EndIsEnd(ll: seq<nat>, dl: seq<nat>, input: seq<nat>, p: nat)
    requires Lengths(ll) && CodeAt(ll, input, p, 256)
    ensures NoToken(ll, dl, input, p) && !LostToken(ll, dl, input, p)
  {
    hide CodeAt, TokenAt, Proper;
    forall tok, q: nat ensures !TokenAt(ll, dl, input, p, tok, q) {
      if TokenAt(ll, dl, input, p, tok, q) {
        EndNotToken(ll, dl, input, p, tok, q);
      }
    }
    forall sym: nat ensures !LostMatch(ll, dl, input, p, sym) {
      if LostMatch(ll, dl, input, p, sym) {
        SymbolUnique(ll, input, p, sym, 256);
      }
    }
  }

  /** Tokens up to the place q, where the decoder is lost. */
  ghost predicate LostAfter(ll: seq<nat>, dl: seq<nat>, input: seq<nat>, p: nat, toks: seq<Token>, ps: seq<nat>,
                            q: nat) {
    TokensAt(ll, dl, input, toks, ps) && ps[0] == p && ps[|toks|] == q && LostToken(ll, dl, input, q)
  }

  ghost predicate LostCodes(ll: seq<nat>, dl: seq<nat>, input: seq<nat>, p: nat, q: nat) {
    exists toks, ps :: LostAfter(ll, dl, input, p, toks, ps, q)
  }

  /** The tokens of two readings, one longer than the other. */
  lemma TokensMeet(ll: seq<nat>, dl: seq<nat>, input: seq<nat>, t1: seq<Token>, p1: seq<nat>, t2: seq<Token>,
                   p2: seq<nat>)
    requires Lengths(ll) && Lengths(dl) && TokensAt(ll, dl, input, t1, p1) && TokensAt(ll, dl, input, t2, p2)
    requires p1[0] == p2[0] && |t1| <= |t2|
    ensures p1[|t1|] == p2[|t1|]
    ensures |t1| < |t2| ==> TokenAt(ll, dl, input, p1[|t1|], t2[|t1|], p2[|t1| + 1])
  {
    hide TokenAt;
    var n := |t1|;
    TokensAgree(ll, dl, input, t1, p1, t2, p2, n);
    assert p1[n] == p1[..n + 1][n] == p2[n];
  }

  /** No reading goes past the place where the decoder is lost; one that stops where there is no
      token, and not because it is lost, shows that it does not get lost. */
  lemma LostCodesBound(ll: seq<nat>, dl: seq<nat>, input: seq<nat>, toks: seq<Token>, ps: seq<nat>, q: nat)
    requires Lengths(ll) && Lengths(dl) && TokensAt(ll, dl, input, toks, ps) && LostCodes(ll, dl, input, ps[0], q)
    ensures ps[|toks|] <= q
    ensures LostToken(ll, dl, input, ps[|toks|]) || !NoToken(ll, dl, input, ps[|toks|])
  {
    hide TokenAt, LostToken;
    var t, s :| LostAfter(ll, dl, input, ps[0], t, s, q);
    if |toks| <= |t| {
      TokensMeet(ll, dl, input, toks, ps, t, s);
      TokensAdvance(ll, dl, input, t, s, |toks|, |t|);
    } else {
      TokensMeet(ll, dl, input, t, s, toks, ps);
      TokenNotLost(ll, dl, input, s[|t|], toks[|t|], ps[|t| + 1]);
    }
  }

  /** No coded part of a block is here. */
  ghost predicate NoCodes(ll: seq<nat>, dl: seq<nat>, input: seq<nat>, p: nat) {
    forall toks, ps, q: nat :: !CodesAt(ll, dl, input, p, toks, ps, q)
  }

  ghost predicate NoStored(input: seq<nat>, p: nat) {
    forall bytes, q: nat :: !StoredAt(input, p, bytes, q)
  }

  /** Where the coded part is garbled there is no end to it. */
  lemma GarbledNoEnd(ll: seq<nat>, dl: seq<nat>, input: seq<nat>, p: nat, toks: seq<Token>, ps: seq<nat>,
                     t: seq<Token>, s: seq<nat>, q: nat)
    requires Lengths(ll) && Lengths(dl) && TokensAt(ll, dl, input, toks, ps) && ps[0] == p
    requires NoToken(ll, dl, input, ps[|toks|]) && !CodeAt(ll, input, ps[|toks|], 256)
    ensures !CodesAt(ll, dl, input, p, t, s, q)
  {
    hide TokenAt, CodeAt;
    if CodesAt(ll, dl, input, p, t, s, q) {
      if |toks| <= |t| {
        TokensMeet(ll, dl, input, toks, ps, t, s);
      } else {
        TokensMeet(ll, dl, input, t, s, toks, ps);
        EndNotToken(ll, dl, input, s[|t|], toks[|t|], ps[|t| + 1]);
      }
    }
  }

  /** The same for a decoder that is lost. */
  lemma LostNoEnd(ll: seq<nat>, dl: seq<nat>, input: seq<nat>, p: nat, q0: nat, t: seq<Token>, s: seq<nat>, q: nat)
    requires Lengths(ll) && Lengths(dl) && LostCodes(ll, dl, input, p, q0)
    ensures !CodesAt(ll, dl, input, p, t, s, q)
  {
    hide TokenAt, CodeAt, LostToken, LostCodes;
    if CodesAt(ll, dl, input, p, t, s, q) {
      EndIsEnd(ll, dl, input, s[|t|]);
      LostCodesBound(ll, dl, input, t, s, q0);
    }
  }

  // ---- Lists of code lengths

  ghost predicate NoItem(cl: seq<nat>, input: seq<nat>, p: nat, lens: seq<nat>, n: nat) {
    forall item, q: nat :: ItemAt(cl, input, p, item, q) ==> |PutItem(lens, item)| > n
  }

  /** Items up to the place q, where the decoder is lost, before there are n lengths. */
  ghost predicate LostList(cl: seq<nat>, input: seq<nat>, p: nat, n: nat, items: seq<Item>, ips: seq<nat>, q: nat) {
    && ItemsAt(cl, input, items, ips) && ips[0] == p && ips[|items|] == q && |ExpandItems(items)| < n
    && Lost(cl, input, q)
  }

  lemma ItemNotLost(cl: seq<nat>, input: seq<nat>, p: nat, item: Item, q: nat)
    requires ItemAt(cl, input, p, item, q)
    ensures !Lost(cl, input, p)
  {
    hide CodeAt, BitsAt;
    var s := ItemSymbol(cl, input, p, item, q);
  }

  /** The items of two readings, as far as both go. */
  lemma ItemsMeet(cl: seq<nat>, input: seq<nat>, i1: seq<Item>, p1: seq<nat>, i2: seq<Item>, p2: seq<nat>)
    requires Lengths(cl) && ItemsAt(cl, input, i1, p1) && ItemsAt(cl, input, i2, p2) && p1[0] == p2[0]
    requires |i1| < |i2|
    ensures p1[|i1|] == p2[|i1|] && ItemAt(cl, input, p1[|i1|], i2[|i1|], p2[|i1| + 1])
    ensures |PutItem(ExpandItems(i1), i2[|i1|])| <= |ExpandItems(i2)|
  {
    hide ItemAt, PutItem;
    var i := |i1|;
    ItemsAgree(cl, input, i1, p1, i2, p2, i);
    assert p1[i] == p1[..i + 1][i] == p2[i] && i1[..i] == i1 && i2[..|i2|] == i2;
    ItemsGrow(cl, input, i2, p2, i + 1, |i2|);
    assert i2[..i + 1] == i2[..i] + [i2[i]];
    ExpandItemsMore(i2[..i], i2[i]);
  }

  lemma ItemsSame(cl: seq<nat>, input: seq<nat>, i1: seq<Item>, p1: seq<nat>, i2: seq<Item>, p2: seq<nat>)
    requires Lengths(cl) && ItemsAt(cl, input, i1, p1) && ItemsAt(cl, input, i2, p2) && p1[0] == p2[0]
    requires |i1| == |i2|
    ensures i1 == i2 && p1 == p2
  {
    hide ItemAt;
    var i := |i1|;
    ItemsAgree(cl, input, i1, p1, i2, p2, i);
    assert i1[..i] == i1 && i2[..i] == i2 && p1[..i + 1] == p1 && p2[..i + 1] == p2;
  }

  /** No reading goes past the place where the decoder is lost; one that is complete, or stops
      where no item fits and not because it is lost, shows that it does not get lost. */
  lemma LostListBound(cl: seq<nat>, input: seq<nat>, n: nat, items: seq<Item>, ips: seq<nat>,
                      items2: seq<Item>, ips2: seq<nat>, q: nat)
    requires Lengths(cl) && ItemsAt(cl, input, items, ips) && LostList(cl, input, ips[0], n, items2, ips2, q)
    ensures ips[|items|] <= q && |ExpandItems(items)| < n
    ensures Lost(cl, input, ips[|items|]) || !NoItem(cl, input, ips[|items|], ExpandItems(items), n)
  {
    hide ItemAt, Lost, PutItem;
    if |items| < |items2| {
      ItemsMeet(cl, input, items, ips, items2, ips2);
      PutItemGrows(ExpandItems(items), cl, input, ips[|items|], items2[|items|], ips2[|items| + 1]);
      ItemsGrow(cl, input, items2, ips2, |items|, |items2|);
    } else if |items2| < |items| {
      ItemsMeet(cl, input, items2, ips2, items, ips);
      ItemNotLost(cl, input, ips2[|items2|], items[|items2|], ips[|items2| + 1]);
    } else {
      ItemsSame(cl, input, items, ips, items2, ips2);
    }
  }

  /** A reading that stops where no item fits shows that there is no list. */
  lemma StuckNoList(cl: seq<nat>, input: seq<nat>, n: nat, items: seq<Item>, ips: seq<nat>, items2: seq<Item>,
                    ips2: seq<nat>)
    requires Lengths(cl) && ItemsAt(cl, input, items, ips) && |ExpandItems(items)| < n
    requires NoItem(cl, input, ips[|items|], ExpandItems(items), n)
    requires ItemsAt(cl, input, items2, ips2) && ips2[0] == ips[0]
    ensures |ExpandItems(items2)| != n
  {
    hide ItemAt, PutItem;
    if |items| < |items2| {
      ItemsMeet(cl, input, items, ips, items2, ips2);
    } else {
      ItemsAgree(cl, input, items, ips, items2, ips2, |items2|);
      assert items2[..|items2|] == items2 && items[..|items|] == items;
      ItemsGrow(cl, input, items, ips, |items2|, |items|);
    }
  }

  // ---- Dynamic blocks

  /** The start of a dynamic block with an accepted code for code lengths, and some of the
      lengths, up to the place q, where the decoder is lost. */
  ghost predicate LostHeader(input: seq<nat>, p: nat, cl: seq<nat>, items: seq<Item>, ips: seq<nat>, q: nat) {
    var nl, nd, nb := 257 + BitsAt(input, p, 5), 1 + BitsAt(input, p + 5, 5), 4 + BitsAt(input, p + 10, 4);
    && nl <= 286 && nd <= 30 && OrderAt(input, p + 14, nb, cl) && Builds(cl)
    && LostList(cl, input, p + 14 + 3 * nb, nl + nd, items, ips, q)
  }

  /** A header whose three lists are all accepted. */
  ghost predicate GoodHeader(input: seq<nat>, p: nat, cl: seq<nat>, items: seq<Item>, ips: seq<nat>,
                             ll: seq<nat>, dl: seq<nat>, q: nat) {
    HeaderAt(input, p, cl, items, ips, ll, dl, q) && Builds(cl) && Builds(ll) && Builds(dl)
  }

  ghost predicate LosesHeader(input: seq<nat>, p: nat, q: nat) {
    exists cl, items, ips :: LostHeader(input, p, cl, items, ips, q)
  }

  ghost predicate LostBody(input: seq<nat>, p: nat, cl: seq<nat>, items: seq<Item>, ips: seq<nat>,
                           ll: seq<nat>, dl: seq<nat>, h: nat, q: nat) {
    GoodHeader(input, p, cl, items, ips, ll, dl, h) && LostCodes(ll, dl, input, h, q)
  }

  ghost predicate LosesBody(input: seq<nat>, p: nat, q: nat) {
    exists cl, items, ips, ll, dl, h: nat :: LostBody(input, p, cl, items, ips, ll, dl, h, q)
  }

  /** The decoder gets lost in the dynamic block here, at place q. */
  ghost predicate LostDynamic(input: seq<nat>, p: nat, q: nat) {
    LosesHeader(input, p, q) || LosesBody(input, p, q)
  }

  /** No header here has an accepted code for code lengths. */
  ghost predicate NoHeader(input: seq<nat>, p: nat) {
    forall cl, items, ips, ll, dl, q: nat :: HeaderAt(input, p, cl, items, ips, ll, dl, q) ==> !Builds(cl)
  }

  lemma HeaderList(input: seq<nat>, p: nat, cl: seq<nat>, items: seq<Item>, ips: seq<nat>, ll: seq<nat>, dl: seq<nat>,
                   q: nat)
    requires HeaderAt(input, p, cl, items, ips, ll, dl, q)
    ensures var nb := 4 + BitsAt(input, p + 10, 4);
      && OrderAt(input, p + 14, nb, cl) && ItemsAt(cl, input, items, ips)
      && |ips| > 0 && ips[0] == p + 14 + 3 * nb && ips[|items|] == q
      && |ExpandItems(items)| == 257 + BitsAt(input, p, 5) + (1 + BitsAt(input, p + 5, 5))
  {
    hide BitsAt, OrderAt, ItemAt, ExpandItems;
  }

  /** Where there is a header, the decoder does not get lost in it. */
  lemma HeaderNotLost(input: seq<nat>, p: nat, cl: seq<nat>, items: seq<Item>, ips: seq<nat>,
                      ll: seq<nat>, dl: seq<nat>, h: nat, q: nat)
    requires HeaderAt(input, p, cl, items, ips, ll, dl, h) && Lengths(cl)
    ensures !LosesHeader(input, p, q)
  {
    hide BitsAt, OrderAt, HeaderAt, ItemsAt, ExpandItems, LostList, Builds;
    HeaderList(input, p, cl, items, ips, ll, dl, h);
    forall c, i, s ensures !LostHeader(input, p, c, i, s, q) {
      if LostHeader(input, p, c, i, s, q) {
        OrderUnique(input, p + 14, 4 + BitsAt(input, p + 10, 4), c, cl);
        LostListBound(cl, input, |ExpandItems(items)|, items, ips, i, s, q);
      }
    }
  }

  /** After a header with an accepted code for code lengths, the decoder can only be lost in the
      coded part, and only when the other lists are accepted too. */
  lemma LostInBody(input: seq<nat>, p: nat, cl: seq<nat>, items: seq<Item>, ips: seq<nat>,
                   ll: seq<nat>, dl: seq<nat>, h: nat, q: nat)
    requires HeaderAt(input, p, cl, items, ips, ll, dl, h) && Builds(cl) && LostDynamic(input, p, q)
    ensures Builds(ll) && Builds(dl) && LostCodes(ll, dl, input, h, q)
  {
    hide BitsAt, HeaderAt, LostCodes, Kraft, LosesHeader;
    HeaderNotLost(input, p, cl, items, ips, ll, dl, h, q);
    var c, i, s, l, d, e: nat :| LostBody(input, p, c, i, s, l, d, e, q);
    HeaderUnique(input, p, cl, items, ips, ll, dl, h, c, i, s, l, d, e);
  }

  lemma NoHeaderNoBody(input: seq<nat>, p: nat, q: nat)
    requires NoHeader(input, p)
    ensures !LosesBody(input, p, q)
  {
    hide HeaderAt, LostCodes, Builds;
  }

  // ---- Input that the decoder cannot get lost in

  /** Every list that the decoder would build tables from is proper. */
  ghost predicate ProperHeaders(input: seq<nat>, p: nat) {
    && (forall cl :: OrderAt(input, p + 14, 4 + BitsAt(input, p + 10, 4), cl) && Builds(cl) ==> Proper(cl))
    && forall cl, items, ips, ll, dl, q: nat :: GoodHeader(input, p, cl, items, ips, ll, dl, q) ==>
      Proper(ll) && Proper(dl)
  }

  lemma ProperTokens(ll: seq<nat>, dl: seq<nat>, input: seq<nat>, p: nat, q: nat)
    requires Proper(ll) && Proper(dl)
    ensures !LostCodes(ll, dl, input, p, q)
  {
    hide Proper, TokenAt, CodeAt;
  }

  /** Whatever the bits are, proper lists keep the decoder from getting lost. */
  lemma ProperNotLost(input: seq<nat>, p: nat, q: nat)
    requires ProperHeaders(input, p)
    ensures !LostDynamic(input, p, q)
  {
    hide BitsAt, OrderAt, HeaderAt, Builds, Proper, LostCodes, ItemsAt, ExpandItems;
    forall cl, items, ips, ll, dl, h: nat ensures !LostBody(input, p, cl, items, ips, ll, dl, h, q) {
      if LostBody(input, p, cl, items, ips, ll, dl, h, q) {
        ProperTokens(ll, dl, input, h, q);
      }
    }
  }
}
