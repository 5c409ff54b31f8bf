/** What the symbols of deflate data stand for (sections 3.2.5 to 3.2.7 of RFC 1951): the tables
    and formulas of the decoder cover every length, distance and run, and the fixed code is the
    one that section 3.2.6 writes out. */
module InflateAlphabet {
  import opened Bits
  import opened BitStream
  import opened Canonical
  import opened InflateInput
  import opened InflateSpec
  import opened InflateFormat
  import opened InflateCodes
  import opened SlideWindow

  // ---- Lengths and distances

  /** Symbol i with extra bits x stands for v. */
  ghost predicate Stands(base: seq<nat>, extra: seq<nat>, i: nat, x: nat, v: nat) {
    i < |base| && i < |extra| && x < Pow2(extra[i]) && v == base[i] + x
  }

  /** The values of a symbol follow those of the symbol before it. */
  ghost predicate Follows(base: seq<nat>, extra: seq<nat>, i: nat) {
    i + 1 < |base| && i + 1 < |extra| && base[i + 1] == base[i] + Pow2(extra[i])
  }

  ghost predicate Consecutive(base: seq<nat>, extra: seq<nat>, n: nat) {
    1 <= n <= |base| && n <= |extra| && forall i: nat :: i < n - 1 ==> Follows(base, extra, i)
  }

  lemma {:induction false} Reached(base: seq<nat>, extra: seq<nat>, n: nat, v: nat)
    requires Consecutive(base, extra, n) && base[0] <= v < base[n - 1] + Pow2(extra[n - 1])
    ensures exists i: nat, x: nat :: i < n && Stands(base, extra, i, x, v)
  {
    if base[n - 1] <= v {
      assert Stands(base, extra, n - 1, v - base[n - 1], v);
    } else {
      assert Follows(base, extra, n - 2);
      Reached(base, extra, n - 1, v);
    }
  }

  lemma {:induction false} Ordered(base: seq<nat>, extra: seq<nat>, n: nat, i: nat, j: nat)
    requires Consecutive(base, extra, n) && i < j < n
    ensures base[i] + Pow2(extra[i]) <= base[j]
  {
    assert Follows(base, extra, j - 1);
    if i < j - 1 {
      Ordered(base, extra, n, i, j - 1);
    }
  }

  /** Extra bits grow by one every four symbols; 258 has a symbol of its own besides. */
  lemma LengthTable()
    ensures Consecutive(CPLENS, CPLEXT, 28) && CPLENS[0] == 3 && CPLENS[27] + Pow2(CPLEXT[27]) == 259
    ensures CPLENS[28] == 258 && CPLEXT[28] == 0
    ensures forall i :: 0 <= i < 8 ==> CPLEXT[i] == 0
    ensures forall i :: 8 <= i < 28 ==> CPLEXT[i] == CPLEXT[i - 4] + 1
  {
    hide Pow2, Follows;
    SmallPowers();
    forall i: nat | i < 27 ensures Follows(CPLENS, CPLEXT, i) { NextLength(i); }
  }

  lemma NextLength(i: nat)
    requires i < 27
    ensures Follows(CPLENS, CPLEXT, i)
  {
    hide Pow2;
    SmallPowers();
  }

  /** Extra bits grow by one every two symbols. */
  lemma DistanceTable()
    ensures Consecutive(CPDIST, CPDEXT, 30) && CPDIST[0] == 1 && CPDIST[29] + Pow2(CPDEXT[29]) == WSIZE + 1
    ensures forall i :: 0 <= i < 4 ==> CPDEXT[i] == 0
    ensures forall i :: 4 <= i < 30 ==> CPDEXT[i] == CPDEXT[i - 2] + 1
  {
    hide Pow2, Follows;
    SmallPowers();
    forall i: nat | i < 29 ensures Follows(CPDIST, CPDEXT, i) { NextDistance(i); }
  }

  lemma NextDistance(i: nat)
    requires i < 29
    ensures Follows(CPDIST, CPDEXT, i)
  {
    hide Pow2;
    SmallPowers();
  }

  /** Every length and every distance can be written. */
  lemma EveryMatch(len: nat, dist: nat) returns (sym: nat, x: nat, dsym: nat, y: nat)
    requires 3 <= len <= 258 && 1 <= dist <= WSIZE
    ensures 257 <= sym <= 285 && Stands(CPLENS, CPLEXT, sym - 257, x, len)
    ensures dsym < 30 && Stands(CPDIST, CPDEXT, dsym, y, dist)
  {
    hide Stands, Consecutive, Pow2;
    LengthTable();
    DistanceTable();
    Reached(CPLENS, CPLEXT, 28, len);
    Reached(CPDIST, CPDEXT, 30, dist);
    var i: nat, x0: nat :| i < 28 && Stands(CPLENS, CPLEXT, i, x0, len);
    var j: nat, y0: nat :| j < 30 && Stands(CPDIST, CPDEXT, j, y0, dist);
    sym, x, dsym, y := 257 + i, x0, j, y0;
  }

  /** In the order of the symbols; only 258 can be written in two ways. */
  lemma LengthOrder(i: nat, x: nat, v: nat, j: nat, y: nat, w: nat)
    requires i < j <= 28 && Stands(CPLENS, CPLEXT, i, x, v) && Stands(CPLENS, CPLEXT, j, y, w)
    ensures v <= w && (v == w <==> i == 27 && x == 31 && j == 28) && (v == w ==> v == 258)
  {
    LengthTable();
    hide Consecutive;
    if j < 28 {
      Ordered(CPLENS, CPLEXT, 28, i, j);
    } else {
      hide Pow2;
      SmallPowers();
      if i < 27 {
        Ordered(CPLENS, CPLEXT, 28, i, 27);
      }
    }
  }

  /** No distance can be written in two ways. */
  lemma DistanceOrder(i: nat, x: nat, v: nat, j: nat, y: nat, w: nat)
    requires i < j < 30 && Stands(CPDIST, CPDEXT, i, x, v) && Stands(CPDIST, CPDEXT, j, y, w)
    ensures v < w
  {
    hide Consecutive, Pow2;
    DistanceTable();
    Ordered(CPDIST, CPDEXT, 30, i, j);
  }

  /** A match in the input is such a pair. */
  lemma MatchStands(ll: seq<nat>, dl: seq<nat>, input: seq<nat>, p: nat, len: nat, dist: nat, q: nat, sym: nat,
                    dsym: nat)
    requires MatchAt(ll, dl, input, p, len, dist, q, sym, dsym)
    ensures sym < |ll| && Stands(CPLENS, CPLEXT, sym - 257, BitsAt(input, p + ll[sym], CPLEXT[sym - 257]), len)
    ensures var p2 := p + ll[sym] + CPLEXT[sym - 257];
      dsym < |dl| && Stands(CPDIST, CPDEXT, dsym, BitsAt(input, p2 + dl[dsym], CPDEXT[dsym]), dist)
  {
    hide BitsAt, Rev, CodeOf, Pow2;
    BitsBound(input, p + ll[sym], CPLEXT[sym - 257]);
    BitsBound(input, p + ll[sym] + CPLEXT[sym - 257] + dl[dsym], CPDEXT[dsym]);
  }

  // ---- Code lengths

  /** The repeat codes first, then zero, then from 8 outwards. */
  lemma OrderOutwards(k: nat)
    requires k < 8
    ensures BORDER[..4] == [16, 17, 18, 0] && BORDER[4 + 2 * k] == 8 + k && (k < 7 ==> BORDER[5 + 2 * k] == 7 - k)
  {
  }

  /** A length is repeated three to six times; runs of three to ten zeros have one symbol, those
      of eleven to 138 another. */
  lemma ItemCounts(cl: seq<nat>, input: seq<nat>, p: nat, item: Item, q: nat)
    requires Lengths(cl) && ItemAt(cl, input, p, item, q)
    ensures item.Repeat? ==> 3 <= item.k <= 6
    ensures item.Zeros? ==> 3 <= item.k <= 138
    ensures item.Zeros? && CodeAt(cl, input, p, 17) ==> item.k <= 10
    ensures item.Zeros? && CodeAt(cl, input, p, 18) ==> item.k >= 11
  {
    hide BitsAt, Rev, CodeOf, Pow2, Lengths;
    SmallPowers();
    BitsBound(input, p + (if item.Repeat? then cl[16] else 0), 2);
    if item.Zeros? {
      if CodeAt(cl, input, p, 17) {
        BitsBound(input, p + cl[17], 3);
        if CodeAt(cl, input, p, 18) { SymbolUnique(cl, input, p, 17, 18); }
      } else {
        BitsBound(input, p + cl[18], 7);
      }
    }
  }

  // ---- The fixed code

  lemma {:induction false} CountRun(b: seq<nat>, i: nat, j: nat, k: nat, n: nat)
    requires i <= j <= |b| && forall t :: i <= t < j ==> b[t] == n
    ensures CountTo(b, j, k) == CountTo(b, i, k) + (if n == k then j - i else 0)
    decreases j
  {
    if i < j {
      CountRun(b, i, j - 1, k, n);
    }
  }

  lemma NoCount(b: seq<nat>, k: nat)
    ensures CountTo(b, 0, k) == 0
  {
  }

  lemma FixedCounts(k: nat)
    ensures CountTo(FixedLit(), 0, k) == 0
    ensures CountTo(FixedLit(), 144, k) == (if k == 8 then 144 else 0)
    ensures CountTo(FixedLit(), 256, k) == (if k == 8 then 144 else if k == 9 then 112 else 0)
    ensures CountTo(FixedLit(), 280, k) == (if k == 7 then 24 else if k == 8 then 144 else if k == 9 then 112 else 0)
    ensures CountTo(FixedLit(), 288, k) == (if k == 7 then 24 else if k == 8 then 152 else if k == 9 then 112 else 0)
  {
    var b := FixedLit();
    NoCount(b, k);
    hide CountTo, FixedLit;
    forall t: nat | t < 288
      ensures b[t] == if t < 144 then 8 else if t < 256 then 9 else if t < 280 then 7 else 8
    {
      FixedLength(t);
    }
    CountRun(b, 0, 144, k, 8);
    CountRun(b, 144, 256, k, 9);
    CountRun(b, 256, 280, k, 7);
    CountRun(b, 280, 288, k, 8);
  }

  lemma FixedFirst()
    ensures var c := Counts(FixedLit()); First(c, 7) == 0 && First(c, 8) == 48 && First(c, 9) == 400
  {
    hide CountTo, FixedLit;
    var c := Counts(FixedLit());
    forall k: nat | k <= BMAX
      ensures c[k] == if k == 7 then 24 else if k == 8 then 152 else if k == 9 then 112 else 0
    {
      FixedCounts(k);
    }
    assert First(c, 1) == First(c, 2) == First(c, 3) == 0;
    assert First(c, 4) == First(c, 5) == First(c, 6) == 0;
    assert First(c, 7) == 0;
    assert First(c, 8) == 48;
  }

  /** The table of section 3.2.6: for literals 0 to 143 the codes 00110000 to 10111111, for 144 to
      255 the codes 110010000 to 111111111, for 256 to 279 the codes 0000000 to 0010111, for 280 to
      287 the codes 11000000 to 11000111. */
  lemma FixedCodes(s: nat)
    requires s < 288
    ensures var n := FixedLit()[s];
      && 1 <= n <= BMAX
      && (n, CodeOf(FixedLit(), s)) ==
        if s < 144 then (8, 0x30 + s) else if s < 256 then (9, 0x190 + (s - 144))
        else if s < 280 then (7, s - 256) else (8, 0xc0 + (s - 280))
  {
    hide CodeOf, CountTo, FixedLit, First, Counts;
    var i := if s < 144 then 0 else if s < 256 then 144 else if s < 280 then 256 else 280;
    FixedLength(s);
    forall t | i <= t < s ensures FixedLit()[t] == FixedLit()[s] { FixedLength(t); }
    FixedFirst();
    FixedCounts(FixedLit()[s]);
    RunCode(FixedLit(), i, s);
  }

  lemma FixedLength(s: nat)
    requires s < 288
    ensures FixedLit()[s] == if s < 144 then 8 else if s < 256 then 9 else if s < 280 then 7 else 8
  {
  }

  /** Codes of the same length, in the order of the symbols. */
  lemma RunCode(b: seq<nat>, i: nat, s: nat)
    requires i <= s < |b| && 1 <= b[s] <= BMAX && forall t :: i <= t < s ==> b[t] == b[s]
    ensures CodeOf(b, s) == First(Counts(b), b[s]) + CountTo(b, i, b[s]) + (s - i)
  {
    hide First, Counts;
    CountRun(b, i, s, b[s], b[s]);
  }

  /** The two rules of section 3.2.2, for any list of lengths: codes of the same length are in the
      order of the symbols, and a shorter code comes before every longer one. */
  lemma CanonicalRules(b: seq<nat>, s: nat, t: nat)
    requires s < |b| && t < |b| && 1 <= b[s] <= BMAX && 1 <= b[t] <= BMAX
    ensures b[s] == b[t] && s < t ==> CodeOf(b, s) < CodeOf(b, t)
    ensures b[s] < b[t] ==> (CodeOf(b, s) + 1) * Pow2(b[t] - b[s]) <= CodeOf(b, t)
  {
    var (c, k) := (Counts(b), b[s]);
    CountLater(b, s, |b|);
    if k == b[t] && s < t {
      CountLater(b, s, t);
    } else if k < b[t] {
      FirstAfterUsed(c, k, b[t]);
      MulMonotone(CodeOf(b, s) + 1, Used(c, k), Pow2(b[t] - k));
    }
  }

  lemma {:induction false} CountLater(b: seq<nat>, s: nat, t: nat)
    requires s < t <= |b|
    ensures CountTo(b, s, b[s]) + 1 <= CountTo(b, t, b[s])
    decreases t
  {
    if s + 1 < t {
      CountLater(b, s, t - 1);
    }
  }

  /** Distances have their number as a code of five bits. */
  lemma FixedDistances(s: nat)
    requires s < 30
    ensures FixedDist()[s] == 5 && CodeOf(FixedDist(), s) == s
  {
    var b := FixedDist();
    var c := Counts(b);
    CountRun(b, 0, s, 5, 5);
    forall k: nat | k <= BMAX ensures c[k] == if k == 5 then 30 else 0 { CountRun(b, 0, 30, k, 5); }
    hide CountTo, FixedDist;
    assert First(c, 1) == First(c, 2) == First(c, 3) == 0;
    assert First(c, 4) == First(c, 5) == 0;
  }
}
