/** Tables as the block decoders ask huft_build for them. */
module InflateTables {
  import opened Bits
  import opened Canonical
  import opened HuffmanTables
  import opened HuffmanLoop
  import opened Huffman
  import opened InflateFailures
  import opened InflateCodes

  /** No code needs more than one table below the root. */
  ghost predicate Short(b: seq<nat>, m: nat) {
    Feasible(b) && MaxLen(Counts(b), BMAX) < 2 * RootBits(Counts(b), m)
  }

  /** The tables are narrow enough whenever huft_build reports success. */
  ghost predicate Suits(b: seq<nat>, m: nat) {
    Lengths(b) && (|b| < Pow2(m) || Short(b, m))
  }

  lemma {:induction false} SizedUpTo(l: nat, g: nat, g': nat, tabs: Tables)
    requires Sized(l, g, tabs) && g <= g'
    ensures Sized(l, g', tabs)
  {
    forall t, j | 0 <= t < |tabs| && 0 <= j < |tabs[t]| ensures EntrySized(l, g', tabs, t, tabs[t][j]) {
      assert EntrySized(l, g, tabs, t, tabs[t][j]);
    }
  }

  lemma NarrowWhenSuited(b: seq<nat>, m: nat)
    requires Feasible(b) && Suits(b, m)
    requires Kraft(b, |b|) == Pow2(BMAX) || (forall j :: 0 <= j < |b| ==> b[j] <= 1) || Short(b, m)
    ensures NarrowTables(b, m)
  {
    hide Kraft, NarrowTables, Pow2;
    if Short(b, m) {
      ShortCodesNarrow(b, m);
    } else if Kraft(b, |b|) == Pow2(BMAX) {
      FewSymbolsNarrow(b, m);
    } else {
      LongestIs(b);
      ShortRoot(b, m);
      ShortCodesNarrow(b, m);
    }
  }

  lemma ShortRoot(b: seq<nat>, m: nat)
    requires Feasible(b)
    ensures RootBits(Counts(b), m) >= 1
  {
    var k := CountsNotZero(b);
    MaxLenIs(Counts(b), BMAX, k);
    MinLenIs(Counts(b), 1, k);
  }

  lemma TotalHasRoot(tabs: Tables, l: nat)
    requires Total(tabs, l)
    ensures tabs != []
  {
    assert Walk(tabs, 0, l, 0, 0).Found?;
  }

  /** The values array and the entries for values out of range, as the decoders see them: a value
      that was never set is out of range, and what is made from it is marked. */
  function NeverSet(s: nat, d: seq<nat>): (v0: seq<nat>)
    ensures |v0| == N_MAX
  {
    seq(N_MAX, _ => s + |d|)
  }

  /** With a single code of one bit, the other pattern's entry comes from a value never set. */
  lemma OneBitSlot(b: seq<nat>, stream: nat)
    requires Feasible(b) && (forall j :: 0 <= j < |b| ==> b[j] <= 1) && 0 in b
    ensures ExtraSlot(b, stream) < |b|
  {
    hide Kraft;
    LongestIs(b);
    var s :| 0 <= s < |b| && b[s] != 0;
    var t :| 0 <= t < |b| && b[t] == 0;
    RevBound(1, stream);
    assert Pow2(1) == 2;
  }

  /** What a stream without a symbol yields. */
  lemma OtherMark(b: seq<nat>, s: nat, d: seq<nat>, e: seq<nat>, stream: nat)
    requires Feasible(b) && |b| <= N_MAX && NoCodeHere(b, stream) && ExtraSlot(b, stream) >= Coded(b)
    requires Proper(b) || forall j :: 0 <= j < |b| ==> b[j] <= 1
    ensures EntryFor(NeverSet(s, d), |b|, s, d, e, Leaf(JUNK, 0), ExtraSlot(b, stream)).e == if Proper(b) then 99
      else JUNK
  {
    hide Kraft, ExtraSlot, Coded, StartsWith;
    if Proper(b) {
      if 0 in b {
        var sym := ExactlyOne(b, stream);
        assert false;
      }
      NoZeros(b, |b|);
      CodedAndZero(b);
    } else {
      OneBitSlot(b, stream);
    }
  }

  /** Tables that decode every symbol, and yield what they do for the other streams, are sound. */
  lemma SoundTables(b: seq<nat>, l: nat, tabs: Tables, s: nat, d: seq<nat>, e: seq<nat>)
    requires Feasible(b) && |b| <= N_MAX && |b| - s <= |d| && |b| - s <= |e|
    requires Proper(b) || forall j :: 0 <= j < |b| ==> b[j] <= 1
    requires DecodesSymbols(b, l, tabs, s, d, e, Leaf(JUNK, 0))
    requires AnswersOthers(b, l, tabs, s, d, e, NeverSet(s, d), Leaf(JUNK, 0))
    ensures Sound(b, l, tabs, s, d, e)
  {
    hide Walk, StartsWith, Kraft, Feasible, ExtraSlot, Coded, Proper, NeverSet, EntryFor;
    forall stream: nat ensures SoundAt(b, Walk(tabs, 0, l, 0, stream), s, d, e, stream) {
      if sym: nat :| StartsWith(b, stream, sym) {
        assert sym < |b| by { InRange(b, stream, sym); }
        assert Walk(tabs, 0, l, 0, stream) == Found(LeafFor(sym, s, d, e, Leaf(JUNK, 0)), b[sym]);
        assert LeafFor(sym, s, d, e, Leaf(JUNK, 0)) == LeafFor(sym, s, d, e, Leaf(99, 0));
      } else {
        OtherMark(b, s, d, e, stream);
        assert MaxLen(Counts(b), BMAX) <= BMAX;
      }
    }
  }

  lemma InRange(b: seq<nat>, stream: nat, sym: nat)
    requires StartsWith(b, stream, sym)
    ensures sym < |b|
  {
  }

  /** huft_build, with what its callers need: result 0 means complete, all zero, or a single
      code of one bit; 1 means incomplete; 2 means oversubscribed. */
  method MakeTables(b: seq<nat>, s: nat, d: seq<nat>, e: seq<nat>, m: nat)
    returns (rc: nat, tabs: Tables, l: nat)
    requires 1 <= |b| <= N_MAX && Suits(b, m) && |b| - s <= |d| && |b| - s <= |e| && Marks(e)
    ensures rc <= 2 && (rc == 0 <==> Builds(b))
    ensures NotAllZero(b) ==> (rc == 2 <==> Kraft(b, |b|) > Pow2(BMAX))
    ensures rc == 0 ==> Decoder(b, l, tabs, s, d, e) && Sized(l, MaxLen(Counts(b), BMAX), tabs)
    ensures rc == 0 && NotAllZero(b) ==> l == RootBits(Counts(b), m)
    ensures rc == 1 && Short(b, m) && Proper(b) ==> Decoder(b, l, tabs, s, d, e)
  {
    hide Kraft, DecodesSymbols, AnswersOthers, RejectsOthers, NarrowTables, Total, Sized, Walk, Sound, Pow2, MaxLen;
    hide NeverSet;
    ghost var lost;
    rc, tabs, l, lost := HuftBuild(b, s, d, e, m, NeverSet(s, d), Leaf(JUNK, 0));
    if rc <= 1 && NotAllZero(b) && (rc == 0 || Short(b, m)) {
      NarrowWhenSuited(b, m);
      TotalHasRoot(tabs, l);
      assert MaxLen(Counts(b), BMAX) <= BMAX;
      SizedUpTo(l, MaxLen(Counts(b), BMAX), BMAX, tabs);
      if rc == 0 || Proper(b) {
        SoundTables(b, l, tabs, s, d, e);
      }
    }
  }
}
