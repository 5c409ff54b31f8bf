/** What a block of deflate data means (sections 3.2.3 to 3.2.5 of RFC 1951), over the bits
    of the input and an unbounded history of output bytes. */
module InflateSpec {
  import opened Bits
  import opened BitStream
  import opened Canonical
  import opened InflateInput
  import opened SlideWindow
  import Huffman

  const CPLENS: seq<nat> := [3, 4, 5, 6, 7, 8, 9, 10, 11, 13, 15, 17, 19, 23, 27, 31,
                             35, 43, 51, 59, 67, 83, 99, 115, 131, 163, 195, 227, 258, 0, 0]
  const CPLEXT: seq<nat> := [0, 0, 0, 0, 0, 0, 0, 0, 1, 1, 1, 1, 2, 2, 2, 2,
                             3, 3, 3, 3, 4, 4, 4, 4, 5, 5, 5, 5, 0, 99, 99]
  const CPDIST: seq<nat> := [1, 2, 3, 4, 5, 7, 9, 13, 17, 25, 33, 49, 65, 97, 129, 193,
                             257, 385, 513, 769, 1025, 1537, 2049, 3073, 4097, 6145,
                             8193, 12289, 16385, 24577]
  const CPDEXT: seq<nat> := [0, 0, 0, 0, 1, 1, 2, 2, 3, 3, 4, 4, 5, 5, 6, 6,
                             7, 7, 8, 8, 9, 9, 10, 10, 11, 11, 12, 12, 13, 13]

  /** A literal byte, or a copy of `len` bytes from `dist` back. */
  datatype Token = Lit(byte: nat) | Match(len: nat, dist: nat)

  ghost predicate LitAt(ll: seq<nat>, input: seq<nat>, p: nat, byte: nat, q: nat) {
    byte < 256 && CodeAt(ll, input, p, byte) && q == p + ll[byte]
  }

  /** A length symbol, its extra bits, a distance symbol, its extra bits. */
  ghost predicate MatchAt(ll: seq<nat>, dl: seq<nat>, input: seq<nat>, p: nat, len: nat, dist: nat, q: nat, sym: nat,
                          dsym: nat) {
    && 257 <= sym <= 285 && CodeAt(ll, input, p, sym) && dsym < 30
    && var p1 := p + ll[sym];
       var p2 := p1 + CPLEXT[sym - 257];
       && len == CPLENS[sym - 257] + BitsAt(input, p1, CPLEXT[sym - 257])
       && CodeAt(dl, input, p2, dsym)
       && var p3 := p2 + dl[dsym];
          && dist == CPDIST[dsym] + BitsAt(input, p3, CPDEXT[dsym])
          && q == p3 + CPDEXT[dsym]
  }

  /** The bits from p up to q spell the token. */
  ghost predicate TokenAt(ll: seq<nat>, dl: seq<nat>, input: seq<nat>, p: nat, tok: Token, q: nat) {
    match tok
    case Lit(byte) => LitAt(ll, input, p, byte, q)
    case Match(len, dist) => exists sym: nat, dsym: nat :: MatchAt(ll, dl, input, p, len, dist, q, sym, dsym)
  }

  /** Token i occupies the bits from ps[i] up to ps[i + 1]. */
  ghost predicate TokensAt(ll: seq<nat>, dl: seq<nat>, input: seq<nat>, toks: seq<Token>, ps: seq<nat>) {
    |ps| == |toks| + 1 && forall i :: 0 <= i < |toks| ==> TokenAt(ll, dl, input, ps[i], toks[i], ps[i + 1])
  }

  /** The bits from p up to q are tokens followed by the end-of-block code. */
  ghost predicate CodesAt(ll: seq<nat>, dl: seq<nat>, input: seq<nat>, p: nat, toks: seq<Token>, ps: seq<nat>, q: nat) {
    && TokensAt(ll, dl, input, toks, ps) && ps[0] == p
    && CodeAt(ll, input, ps[|toks|], 256) && q == ps[|toks|] + ll[256]
  }

  /** The effect of a token on the history. */
  function Put(hist: seq<nat>, tok: Token): seq<nat> {
    match tok
    case Lit(byte) => hist + [byte]
    case Match(len, dist) => if 1 <= dist <= |hist| then CopyBack(hist, dist, len) else hist
  }

  function Expand(hist: seq<nat>, toks: seq<Token>): seq<nat> {
    if toks == [] then hist else Put(Expand(hist, toks[..|toks| - 1]), toks[|toks| - 1])
  }

  lemma ExpandMore(hist: seq<nat>, toks: seq<Token>, tok: Token)
    ensures Expand(hist, toks + [tok]) == Put(Expand(hist, toks), tok)
  {
    assert (toks + [tok])[..|toks|] == toks;
  }

  lemma TokensMore(ll: seq<nat>, dl: seq<nat>, input: seq<nat>, toks: seq<Token>, ps: seq<nat>, tok: Token, q: nat)
    requires TokensAt(ll, dl, input, toks, ps) && TokenAt(ll, dl, input, ps[|toks|], tok, q)
    ensures TokensAt(ll, dl, input, toks + [tok], ps + [q])
  {
    hide TokenAt;
    var toks', ps' := toks + [tok], ps + [q];
    forall i | 0 <= i < |toks'| ensures TokenAt(ll, dl, input, ps'[i], toks'[i], ps'[i + 1]) {
      if i < |toks| {
        assert TokenAt(ll, dl, input, ps[i], toks[i], ps[i + 1]);
      }
    }
  }

  /** No bit string has two readings as a token, when the codes are prefix free. */
  lemma TokenUnique(ll: seq<nat>, dl: seq<nat>, input: seq<nat>, p: nat, t1: Token, q1: nat, t2: Token, q2: nat)
    requires Lengths(ll) && Lengths(dl)
    requires TokenAt(ll, dl, input, p, t1, q1) && TokenAt(ll, dl, input, p, t2, q2)
    ensures t1 == t2 && q1 == q2
  {
    hide BitsAt, Rev, CodeOf, Lengths;
    if t1.Lit? {
      if t2.Lit? {
        SymbolUnique(ll, input, p, t1.byte, t2.byte);
      } else {
        var sym: nat, dsym: nat :| MatchAt(ll, dl, input, p, t2.len, t2.dist, q2, sym, dsym);
        SymbolUnique(ll, input, p, t1.byte, sym);
      }
    } else {
      var sym: nat, dsym: nat :| MatchAt(ll, dl, input, p, t1.len, t1.dist, q1, sym, dsym);
      if t2.Lit? {
        SymbolUnique(ll, input, p, sym, t2.byte);
      } else {
        var sym2: nat, dsym2: nat :| MatchAt(ll, dl, input, p, t2.len, t2.dist, q2, sym2, dsym2);
        hide MatchAt;
        MatchUnique(ll, dl, input, p, t1, q1, sym, dsym, t2, q2, sym2, dsym2);
      }
    }
  }

  lemma MatchUnique(ll: seq<nat>, dl: seq<nat>, input: seq<nat>, p: nat, t1: Token, q1: nat, sym1: nat, dsym1: nat,
                    t2: Token, q2: nat, sym2: nat, dsym2: nat)
    requires Lengths(ll) && Lengths(dl) && t1.Match? && t2.Match?
    requires MatchAt(ll, dl, input, p, t1.len, t1.dist, q1, sym1, dsym1)
    requires MatchAt(ll, dl, input, p, t2.len, t2.dist, q2, sym2, dsym2)
    ensures t1 == t2 && q1 == q2
  {
    hide MatchAt, CodeAt, Lengths;
    MatchSymbols(ll, dl, input, p, t1.len, t1.dist, q1, sym1, dsym1);
    MatchSymbols(ll, dl, input, p, t2.len, t2.dist, q2, sym2, dsym2);
    SymbolUnique(ll, input, p, sym1, sym2);
    SymbolUnique(dl, input, p + ll[sym1] + CPLEXT[sym1 - 257], dsym1, dsym2);
    MatchSame(ll, dl, input, p, t1, q1, t2, q2, sym1, dsym1);
  }

  lemma MatchSymbols(ll: seq<nat>, dl: seq<nat>, input: seq<nat>, p: nat, len: nat, dist: nat, q: nat, sym: nat,
                     dsym: nat)
    requires MatchAt(ll, dl, input, p, len, dist, q, sym, dsym)
    ensures 257 <= sym <= 285 && sym < |ll| && CodeAt(ll, input, p, sym)
    ensures dsym < 30 && CodeAt(dl, input, p + ll[sym] + CPLEXT[sym - 257], dsym)
  {
    hide BitsAt, Rev, CodeOf;
  }

  lemma MatchSame(ll: seq<nat>, dl: seq<nat>, input: seq<nat>, p: nat, t1: Token, q1: nat, t2: Token, q2: nat,
                  sym: nat, dsym: nat)
    requires t1.Match? && MatchAt(ll, dl, input, p, t1.len, t1.dist, q1, sym, dsym)
    requires t2.Match? && MatchAt(ll, dl, input, p, t2.len, t2.dist, q2, sym, dsym)
    ensures t1 == t2 && q1 == q2
  {
    hide CodeAt, BitsAt;
  }

  lemma SymbolUnique(b: seq<nat>, input: seq<nat>, p: nat, s: nat, t: nat)
    requires Lengths(b) && CodeAt(b, input, p, s) && CodeAt(b, input, p, t)
    ensures s == t
  {
    Huffman.AtMostOne(b, BitsAt(input, p, BMAX), s, t);
  }

  lemma EndNotToken(ll: seq<nat>, dl: seq<nat>, input: seq<nat>, p: nat, tok: Token, q: nat)
    requires Lengths(ll) && TokenAt(ll, dl, input, p, tok, q)
    ensures !CodeAt(ll, input, p, 256)
  {
    hide CodeAt, BitsAt;
    if CodeAt(ll, input, p, 256) {
      if tok.Lit? {
        SymbolUnique(ll, input, p, tok.byte, 256);
      } else {
        var sym: nat, dsym: nat :| MatchAt(ll, dl, input, p, tok.len, tok.dist, q, sym, dsym);
        SymbolUnique(ll, input, p, sym, 256);
      }
    }
  }

  /** The first i tokens of two readings of the same bits agree. */
  lemma {:induction false} TokensAgree(ll: seq<nat>, dl: seq<nat>, input: seq<nat>, t1: seq<Token>, p1: seq<nat>,
                                       t2: seq<Token>, p2: seq<nat>, i: nat)
    requires Lengths(ll) && Lengths(dl) && TokensAt(ll, dl, input, t1, p1) && TokensAt(ll, dl, input, t2, p2)
    requires p1[0] == p2[0] && i <= |t1| && i <= |t2|
    ensures t1[..i] == t2[..i] && p1[..i + 1] == p2[..i + 1]
  {
    hide TokenAt;
    if i == 0 {
      assert p1[..1] == [p1[0]] && p2[..1] == [p2[0]];
    } else {
      TokensAgree(ll, dl, input, t1, p1, t2, p2, i - 1);
      assert p1[i - 1] == p1[..i][i - 1] == p2[i - 1];
      TokenUnique(ll, dl, input, p1[i - 1], t1[i - 1], p1[i], t2[i - 1], p2[i]);
      assert t1[..i] == t1[..i - 1] + [t1[i - 1]] && t2[..i] == t2[..i - 1] + [t2[i - 1]];
      assert p1[..i + 1] == p1[..i] + [p1[i]] && p2[..i + 1] == p2[..i] + [p2[i]];
    }
  }

  /** The coded part of a block has one meaning: the tokens and the end are determined. */
  lemma CodesUnique(ll: seq<nat>, dl: seq<nat>, input: seq<nat>, p: nat,
                    t1: seq<Token>, p1: seq<nat>, q1: nat, t2: seq<Token>, p2: seq<nat>, q2: nat)
    requires Lengths(ll) && Lengths(dl)
    requires CodesAt(ll, dl, input, p, t1, p1, q1) && CodesAt(ll, dl, input, p, t2, p2, q2)
    ensures t1 == t2 && q1 == q2
  {
    hide TokenAt, CodeAt;
    var n := if |t1| < |t2| then |t1| else |t2|;
    TokensAgree(ll, dl, input, t1, p1, t2, p2, n);
    assert p1[n] == p1[..n + 1][n] == p2[n];
    if |t1| < |t2| {
      EndNotToken(ll, dl, input, p2[n], t2[n], p2[n + 1]);
    } else if |t2| < |t1| {
      EndNotToken(ll, dl, input, p1[n], t1[n], p1[n + 1]);
    }
    assert t1[..n] == t1 && t2[..n] == t2;
  }

  lemma TokenAdvances(ll: seq<nat>, dl: seq<nat>, input: seq<nat>, p: nat, tok: Token, q: nat)
    requires TokenAt(ll, dl, input, p, tok, q)
    ensures p < q
  {
    hide BitsAt, CodeOf, Rev;
    if tok.Match? {
      var sym: nat, dsym: nat :| MatchAt(ll, dl, input, p, tok.len, tok.dist, q, sym, dsym);
    }
  }

  lemma {:induction false} TokensAdvance(ll: seq<nat>, dl: seq<nat>, input: seq<nat>, toks: seq<Token>, ps: seq<nat>,
                                         i: nat, j: nat)
    requires TokensAt(ll, dl, input, toks, ps) && i <= j <= |toks|
    ensures ps[i] <= ps[j]
    decreases j
  {
    hide TokenAt;
    if i < j {
      TokensAdvance(ll, dl, input, toks, ps, i, j - 1);
      TokenAdvances(ll, dl, input, ps[j - 1], toks[j - 1], ps[j]);
    }
  }
}
