/** The ways in which the decoder gets lost, each shown at one input, and two streams that it
    decodes. */
module InflateExamples {
  import opened Bits
  import opened BitStream
  import opened Canonical
  import opened Huffman
  import opened InflateInput
  import opened InflateFormat
  import opened InflateFailures
  import opened InflateCodes
  import opened InflateDynamic
  import opened InflateStream
  import opened InflateSpec
  import opened InflateAlphabet
  import opened SlideWindow

  // ---- Reading the inputs

  /** n bits that lie in two bytes. */
  lemma Field(input: seq<nat>, i: nat, j: nat, n: nat)
    requires Bytes(input) && j + n <= 16
    ensures BitsAt(input, 8 * i + j, n) == (ByteAt(input, i) + 256 * ByteAt(input, i + 1)) / Pow2(j) % Pow2(n)
  {
    hide BitsAt, Pow2, ByteAt, Bytes;
    ByteBits(input, i);
    ByteBits(input, i + 1);
    assert 8 * i + 8 == 8 * (i + 1);
    BitsSplit(input, 8 * i, 8, 8);
    Pow8();
    BitsCut(input, 8 * i, 16, j);
    BitsCut(input, 8 * i + j, 16 - j, n);
  }

  lemma CodeIs(b: seq<nat>, input: seq<nat>, p: nat, sym: nat)
    requires sym < |b| && 1 <= b[sym] <= BMAX
    ensures CodeAt(b, input, p, sym) <==> Rev(b[sym], BitsAt(input, p, b[sym])) == CodeOf(b, sym)
  {
    hide Rev, Low, CodeOf, BitsAt;
    BitsCut(input, p, BMAX, b[sym]);
    RevMod(b[sym], BitsAt(input, p, BMAX));
  }

  /** A stream whose first block loses the decoder. */
  lemma LostAtOnce(input: seq<nat>, q: nat)
    requires BitsAt(input, 1, 2) == 2 && LostDynamic(input, 3, q)
    ensures LostStream(input, q)
  {
    hide BitsAt, LostDynamic, BlockAt;
    assert LostStreamAt(input, [], [0], q);
  }

  // ---- Lists of mostly zeros

  lemma {:induction false} CountSkip(b: seq<nat>, i: nat, j: nat, k: nat)
    requires i <= j <= |b| && forall t :: i <= t < j ==> b[t] != k
    ensures CountTo(b, j, k) == CountTo(b, i, k)
    decreases j
  {
    if i < j { CountSkip(b, i, j - 1, k); }
  }

  lemma {:induction false} KraftSkip(b: seq<nat>, i: nat, j: nat)
    requires Lengths(b) && i <= j <= |b| && forall t :: i <= t < j ==> b[t] == 0
    ensures Kraft(b, j) == Kraft(b, i)
    decreases j
  {
    if i < j { KraftSkip(b, i, j - 1); }
  }

  lemma Ones(b: seq<nat>, i: nat, j: nat)
    requires Lengths(b) && i < j < |b| && b[i] == b[j] == 1
    requires forall t :: 0 <= t < |b| && t != i && t != j ==> b[t] == 0
    ensures CountTo(b, i, 1) == 0 && CountTo(b, j, 1) == 1 && Builds(b) && Proper(b)
  {
    hide Pow2;
    CountSkip(b, 0, i, 1);
    CountSkip(b, i + 1, j, 1);
    KraftSkip(b, 0, i);
    KraftSkip(b, i + 1, j);
    KraftSkip(b, j + 1, |b|);
    Doubles();
  }

  /** Two codes of one bit, and where they are. */
  lemma OneBitCodes(b: seq<nat>, i: nat, j: nat, input: seq<nat>, p: nat)
    requires Lengths(b) && i < j < |b| && b[i] == b[j] == 1
    requires forall t :: 0 <= t < |b| && t != i && t != j ==> b[t] == 0
    ensures BitsAt(input, p, 1) == 1 ==> CodeAt(b, input, p, j)
  {
    hide BitsAt, Kraft, Builds, Proper, CodeAt;
    Ones(b, i, j);
    CodeIs(b, input, p, j);
    assert Rev(1, 1) == 1;
  }

  // ---- No code for code lengths

  const NO_ORDER: seq<nat> := [5, 0, 0, 0, 0, 0, 0, 0, 0, 0, 0, 0, 0, 0, 0, 0]

  lemma NoOrderBits()
    ensures BitsAt(NO_ORDER, 1, 2) == 2 && BitsAt(NO_ORDER, 3, 5) == 0
    ensures BitsAt(NO_ORDER, 8, 5) == 0 && BitsAt(NO_ORDER, 13, 4) == 0 && BitsAt(NO_ORDER, 17, 3) == 0
    ensures BitsAt(NO_ORDER, 20, 3) == 0 && BitsAt(NO_ORDER, 23, 3) == 0 && BitsAt(NO_ORDER, 26, 3) == 0
  {
    hide BitsAt, Pow2;
    SmallPowers();
    Field(NO_ORDER, 0, 1, 2);
    Field(NO_ORDER, 0, 3, 5);
    Field(NO_ORDER, 1, 0, 5);
    Field(NO_ORDER, 1, 5, 4);
    Field(NO_ORDER, 2, 1, 3);
    Field(NO_ORDER, 2, 4, 3);
    Field(NO_ORDER, 2, 7, 3);
    Field(NO_ORDER, 3, 2, 3);
  }

  lemma NoOrder()
    ensures LostStream(NO_ORDER, 29) && 29 + 4 * BMAX <= 8 * |NO_ORDER|
  {
    hide BitsAt, Lost;
    NoOrderBits();
    var cl: seq<nat> := seq(19, _ => 0);
    ZeroLost(cl, NO_ORDER, 29);
    assert OrderAt(NO_ORDER, 17, 4, cl);
    assert LostHeader(NO_ORDER, 3, cl, [], [29], 29);
    LostAtOnce(NO_ORDER, 29);
  }

  // ---- No literal code

  /** Its literal code is a list of zeros, given by two runs of them. */
  const NO_LITERALS: seq<nat> := [5, 0, 128, 228, 127, 27, 0, 0, 0, 0, 0, 0, 0, 0, 0, 0]

  lemma NoLiteralsBits()
    ensures BitsAt(NO_LITERALS, 1, 2) == 2 && BitsAt(NO_LITERALS, 3, 5) == 0
    ensures BitsAt(NO_LITERALS, 8, 5) == 0 && BitsAt(NO_LITERALS, 13, 4) == 0 && BitsAt(NO_LITERALS, 17, 3) == 0
    ensures BitsAt(NO_LITERALS, 20, 3) == 0 && BitsAt(NO_LITERALS, 23, 3) == 1 && BitsAt(NO_LITERALS, 26, 3) == 1
    ensures BitsAt(NO_LITERALS, 29, 1) == 1 && BitsAt(NO_LITERALS, 30, 7) == 127
    ensures BitsAt(NO_LITERALS, 37, 1) == 1 && BitsAt(NO_LITERALS, 38, 7) == 109
  {
    hide BitsAt, Pow2;
    SmallPowers();
    Field(NO_LITERALS, 0, 1, 2);
    Field(NO_LITERALS, 0, 3, 5);
    Field(NO_LITERALS, 1, 0, 5);
    Field(NO_LITERALS, 1, 5, 4);
    Field(NO_LITERALS, 2, 1, 3);
    Field(NO_LITERALS, 2, 4, 3);
    Field(NO_LITERALS, 2, 7, 3);
    Field(NO_LITERALS, 3, 2, 3);
    Field(NO_LITERALS, 3, 5, 1);
    Field(NO_LITERALS, 3, 6, 7);
    Field(NO_LITERALS, 4, 5, 1);
    Field(NO_LITERALS, 4, 6, 7);
  }

  /** Code lengths for the lengths 0 and the long run of zeros. */
  const ORDER1: seq<nat> := [1, 0, 0, 0, 0, 0, 0, 0, 0, 0, 0, 0, 0, 0, 0, 0, 0, 0, 1]

  lemma NoLiteralsLists()
    ensures OrderAt(NO_LITERALS, 17, 4, ORDER1)
    ensures ItemsAt(ORDER1, NO_LITERALS, [Zeros(138), Zeros(120)], [29, 37, 45])
  {
    hide BitsAt, CodeAt, Kraft, Builds, Proper;
    NoLiteralsBits();
    OneBitCodes(ORDER1, 0, 18, NO_LITERALS, 29);
    OneBitCodes(ORDER1, 0, 18, NO_LITERALS, 37);
  }

  lemma AllZeros()
    ensures ExpandItems([Zeros(138), Zeros(120)]) == seq(257, _ => 0) + [0]
  {
    hide ExpandItems;
    NoItems();
    ExpandItemsMore([], Zeros(138));
    ExpandItemsMore([Zeros(138)], Zeros(120));
    assert [Zeros(138)] + [Zeros(120)] == [Zeros(138), Zeros(120)] && [] + [Zeros(138)] == [Zeros(138)];
    assert seq(138, _ => 0) + seq(120, _ => 0) == seq(257, _ => 0) + [0];
  }

  lemma NoLiteralsHeader()
    ensures GoodHeader(NO_LITERALS, 3, ORDER1, [Zeros(138), Zeros(120)], [29, 37, 45], seq(257, _ => 0), [0], 45)
  {
    hide BitsAt, OrderAt, ItemAt, ExpandItems, Kraft;
    NoLiteralsBits();
    NoLiteralsLists();
    AllZeros();
    Ones(ORDER1, 0, 18);
  }

  lemma NoLiterals()
    ensures LostStream(NO_LITERALS, 45) && 45 + 4 * BMAX <= 8 * |NO_LITERALS|
  {
    hide BitsAt, GoodHeader, LostToken, Lost;
    NoLiteralsBits();
    NoLiteralsHeader();
    var zeros: seq<nat> := seq(257, _ => 0);
    ZeroLost(zeros, NO_LITERALS, 45);
    assert LostToken(zeros, [0], NO_LITERALS, 45) by { LostFirst(zeros, [0], NO_LITERALS, 45); }
    assert LostAfter(zeros, [0], NO_LITERALS, 45, [], [45], 45);
    assert LostBody(NO_LITERALS, 3, ORDER1, [Zeros(138), Zeros(120)], [29, 37, 45], zeros, [0], 45, 45);
    LostAtOnce(NO_LITERALS, 45);
  }

  lemma LostFirst(ll: seq<nat>, dl: seq<nat>, input: seq<nat>, p: nat)
    requires Lost(ll, input, p)
    ensures LostToken(ll, dl, input, p)
  {
  }

  // ---- No distance code, and a distance that has none

  /** Its codes are one bit for the end of the block and one for the shortest length; there is no
      distance code, and the first symbol is the length. */
  const NO_DISTANCES: seq<nat> := [13, 192, 129, 8, 0, 0, 0, 0, 32, 127, 235, 47, 0, 0, 0, 0, 0, 0, 0, 0]

  /** The same with one distance code of one bit; after the length comes the other bit. */
  const OTHER_DISTANCE: seq<nat> := [13, 193, 129, 8, 0, 0, 0, 0, 32, 127, 235, 239, 1, 0, 0, 0, 0, 0, 0, 0, 0]

  /** Code lengths for the lengths 0 and 1 and the long run of zeros. */
  const ORDER2: seq<nat> := [2, 2, 0, 0, 0, 0, 0, 0, 0, 0, 0, 0, 0, 0, 0, 0, 0, 0, 1]

  /** The first bytes of both, up to the distances. */
  ghost predicate Starts(input: seq<nat>) {
    && Bytes(input) && |input| > 12 && input[0] == 13 && input[1] / 2 == 96 && input[2] == 129 && input[3] == 8
    && input[4] == 0 && input[5] == 0 && input[6] == 0 && input[7] == 0 && input[8] == 32 && input[9] == 127
    && input[10] == 235 && input[11] % 64 == 47
  }

  lemma StartsOrder(input: seq<nat>)
    requires Starts(input)
    ensures BitsAt(input, 1, 2) == 2 && BitsAt(input, 3, 5) == 1 && BitsAt(input, 13, 4) == 14
    ensures OrderAt(input, 17, 18, ORDER2)
  {
    hide BitsAt, Pow2;
    SmallPowers();
    Field(input, 0, 1, 2);
    Field(input, 0, 3, 5);
    Field(input, 1, 5, 4);
    Field(input, 2, 1, 3);
    Field(input, 2, 4, 3);
    Field(input, 2, 7, 3);
    Field(input, 3, 2, 3);
    StartsZeros(input);
    Field(input, 8, 4, 3);
  }

  lemma StartsZeros(input: seq<nat>)
    requires Starts(input)
    ensures BitsAt(input, 29, 3) == 0 && BitsAt(input, 32, 3) == 0 && BitsAt(input, 35, 3) == 0
    ensures BitsAt(input, 38, 3) == 0
    ensures BitsAt(input, 41, 3) == 0 && BitsAt(input, 44, 3) == 0 && BitsAt(input, 47, 3) == 0
    ensures BitsAt(input, 50, 3) == 0
    ensures BitsAt(input, 53, 3) == 0 && BitsAt(input, 56, 3) == 0 && BitsAt(input, 59, 3) == 0
    ensures BitsAt(input, 62, 3) == 0
    ensures BitsAt(input, 65, 3) == 0
  {
    hide BitsAt, Pow2;
    SmallPowers();
    Field(input, 3, 5, 3);
    Field(input, 4, 0, 3);
    Field(input, 4, 3, 3);
    Field(input, 4, 6, 3);
    Field(input, 5, 1, 3);
    Field(input, 5, 4, 3);
    Field(input, 5, 7, 3);
    Field(input, 6, 2, 3);
    Field(input, 6, 5, 3);
    Field(input, 7, 0, 3);
    Field(input, 7, 3, 3);
    Field(input, 7, 6, 3);
    Field(input, 8, 1, 3);
  }

  lemma StartsItems(input: seq<nat>)
    requires Starts(input)
    ensures BitsAt(input, 71, 1) == 0 && BitsAt(input, 72, 7) == 127 && BitsAt(input, 79, 1) == 0
    ensures BitsAt(input, 80, 7) == 107
    ensures BitsAt(input, 87, 2) == 3 && BitsAt(input, 89, 2) == 3 && BitsAt(input, 91, 2) == 1
    ensures BitsAt(input, 93, 1) == 1
  {
    hide BitsAt, Pow2;
    SmallPowers();
    Field(input, 8, 7, 1);
    Field(input, 9, 0, 7);
    Field(input, 9, 7, 1);
    Field(input, 10, 0, 7);
    StartsLast(input);
  }

  lemma StartsLast(input: seq<nat>)
    requires Starts(input)
    ensures BitsAt(input, 87, 2) == 3 && BitsAt(input, 89, 2) == 3 && BitsAt(input, 91, 2) == 1
    ensures BitsAt(input, 93, 1) == 1
  {
    hide BitsAt, Pow2;
    SmallPowers();
    var t := input[11] / 64 + 4 * input[12];
    assert input[11] + 256 * input[12] == 64 * t + 47;
    LowSix(t);
    Field(input, 10, 7, 2);
    assert BitsAt(input, 87, 2) == 3 by { LastTwo(input[11]); }
    Field(input, 11, 1, 2);
    Field(input, 11, 3, 2);
    Field(input, 11, 5, 1);
  }

  lemma LowSix(t: nat)
    ensures (64 * t + 47) / 2 % 4 == 3 && (64 * t + 47) / 8 % 4 == 1 && (64 * t + 47) / 32 % 2 == 1
  {
    assert (64 * t + 47) / 2 == 32 * t + 23;
    assert (64 * t + 47) / 8 == 8 * t + 5;
    assert (64 * t + 47) / 32 == 2 * t + 1;
  }

  lemma LastTwo(x: nat)
    requires x % 64 == 47
    ensures (235 + 256 * x) / 128 % 4 == 3
  {
    assert (235 + 256 * x) / 128 == 2 * x + 1;
  }

  lemma Order2Is()
    ensures |ORDER2| == 19 && ORDER2[0] == 2 && ORDER2[1] == 2 && ORDER2[18] == 1
    ensures Lengths(ORDER2) && forall t :: 2 <= t < 18 ==> ORDER2[t] == 0
  {
  }

  lemma Order2Counts()
    ensures CountTo(ORDER2, 18, 1) == 0 && CountTo(ORDER2, 1, 2) == 1 && Counts(ORDER2)[1] == 1
  {
    Order2Is();
    CountSkip(ORDER2, 0, 18, 1);
    assert CountTo(ORDER2, 19, 1) == CountTo(ORDER2, 18, 1) + 1;
    assert CountTo(ORDER2, 1, 2) == CountTo(ORDER2, 0, 2) + 1;
  }

  lemma Order2Builds()
    ensures Builds(ORDER2)
  {
    hide Pow2;
    Order2Is();
    KraftSkip(ORDER2, 2, 18);
    assert Kraft(ORDER2, 2) == Kraft(ORDER2, 1) + Pow2(BMAX - 2);
    assert Kraft(ORDER2, 1) == Kraft(ORDER2, 0) + Pow2(BMAX - 2);
    assert Kraft(ORDER2, 19) == Kraft(ORDER2, 18) + Pow2(BMAX - 1);
    Doubles();
    Halves();
  }

  lemma Halves()
    ensures Pow2(BMAX - 1) == 2 * Pow2(BMAX - 2)
  {
  }

  lemma Order2Codes(input: seq<nat>, p: nat)
    ensures BitsAt(input, p, 1) == 0 ==> CodeAt(ORDER2, input, p, 18)
    ensures BitsAt(input, p, 2) == 1 ==> CodeAt(ORDER2, input, p, 0)
    ensures BitsAt(input, p, 2) == 3 ==> CodeAt(ORDER2, input, p, 1)
  {
    hide BitsAt, CodeAt, Builds;
    Order2Counts();
    CodeIs(ORDER2, input, p, 18);
    CodeIs(ORDER2, input, p, 0);
    CodeIs(ORDER2, input, p, 1);
    assert First(Counts(ORDER2), 1) == 0 && First(Counts(ORDER2), 2) == 2;
    assert Rev(1, 0) == 0 && Rev(2, 1) == 2 && Rev(2, 3) == 3;
  }

  const ITEMS: seq<Item> := [Zeros(138), Zeros(118), Len(1), Len(1), Len(0)]
  const PLACES: seq<nat> := [71, 79, 87, 89, 91, 93]

  lemma StartsList(input: seq<nat>)
    requires Starts(input)
    ensures ItemsAt(ORDER2, input, ITEMS, PLACES)
  {
    hide BitsAt, CodeAt, Starts;
    StartsItems(input);
    Order2Codes(input, 71);
    Order2Codes(input, 79);
    Order2Codes(input, 87);
    Order2Codes(input, 89);
    Order2Codes(input, 91);
  }

  function TwoCodes(): seq<nat> { seq(256, _ => 0) + [1, 1] }

  lemma ListExpands()
    ensures ExpandItems(ITEMS) == TwoCodes() + [0]
  {
    hide ExpandItems;
    assert ExpandItems([]) == [] by { NoItems(); }
    ExpandItemsMore([], Zeros(138));
    ExpandItemsMore([Zeros(138)], Zeros(118));
    ExpandItemsMore([Zeros(138), Zeros(118)], Len(1));
    ExpandItemsMore([Zeros(138), Zeros(118), Len(1)], Len(1));
    ExpandItemsMore([Zeros(138), Zeros(118), Len(1), Len(1)], Len(0));
    assert [] + [Zeros(138)] == [Zeros(138)] && [Zeros(138)] + [Zeros(118)] == [Zeros(138), Zeros(118)];
    assert [Zeros(138), Zeros(118)] + [Len(1)] == [Zeros(138), Zeros(118), Len(1)];
    assert [Zeros(138), Zeros(118), Len(1)] + [Len(1)] == [Zeros(138), Zeros(118), Len(1), Len(1)];
    assert [Zeros(138), Zeros(118), Len(1), Len(1)] + [Len(0)] == ITEMS;
    assert seq(138, _ => 0) + seq(118, _ => 0) == seq(256, _ => 0);
  }

  lemma NoItems()
    ensures ExpandItems([]) == []
  {
  }

  /** A length symbol follows at bit p. */
  lemma LengthHere(input: seq<nat>, p: nat)
    requires BitsAt(input, p, 1) == 1
    ensures Builds(TwoCodes()) && CodeAt(TwoCodes(), input, p, 257)
  {
    hide BitsAt, Kraft;
    Ones(TwoCodes(), 256, 257);
    OneBitCodes(TwoCodes(), 256, 257, input, p);
  }

  lemma LostDistance(input: seq<nat>, dl: seq<nat>, p: nat)
    requires BitsAt(input, p, 1) == 1 && Lost(dl, input, p + 1)
    ensures LostCodes(TwoCodes(), dl, input, p, p)
  {
    hide BitsAt, CodeAt, Lost;
    LengthHere(input, p);
    assert LostMatch(TwoCodes(), dl, input, p, 257);
    assert LostAfter(TwoCodes(), dl, input, p, [], [p], p);
  }

  lemma NoDistancesHeader()
    ensures GoodHeader(NO_DISTANCES, 3, ORDER2, ITEMS, PLACES, TwoCodes(), [0], 93)
  {
    hide BitsAt, ItemAt, ExpandItems, Kraft, OrderAt, CodeAt;
    assert Starts(NO_DISTANCES);
    StartsOrder(NO_DISTANCES);
    StartsItems(NO_DISTANCES);
    StartsList(NO_DISTANCES);
    ListExpands();
    Order2Builds();
    LengthHere(NO_DISTANCES, 93);
    assert BitsAt(NO_DISTANCES, 8, 5) == 0 by {
      Field(NO_DISTANCES, 1, 0, 5);
      SmallPowers();
    }
  }

  lemma NoDistances()
    ensures LostStream(NO_DISTANCES, 93) && 93 + 4 * BMAX <= 8 * |NO_DISTANCES|
  {
    hide BitsAt, GoodHeader, LostCodes, Lost;
    assert Starts(NO_DISTANCES);
    StartsOrder(NO_DISTANCES);
    StartsItems(NO_DISTANCES);
    NoDistancesHeader();
    ZeroLost([0], NO_DISTANCES, 94);
    LostDistance(NO_DISTANCES, [0], 93);
    assert LostBody(NO_DISTANCES, 3, ORDER2, ITEMS, PLACES, TwoCodes(), [0], 93, 93);
    LostAtOnce(NO_DISTANCES, 93);
  }

  /** With one distance code of one bit, the other bit is no distance. */
  lemma OtherBitLost(input: seq<nat>, p: nat)
    requires BitsAt(input, p, 1) == 1
    ensures Builds([0, 1]) && Lost([0, 1], input, p)
  {
    hide BitsAt, CodeAt, Kraft, Pow2, ExtraSlot, NoCodeHere, NotAllZero;
    JunkExample();
    assert [0, 1][0] == 0;
    forall sym: nat ensures !CodeAt([0, 1], input, p, sym) { NotOther(input, p, sym); }
  }

  lemma NotOther(input: seq<nat>, p: nat, sym: nat)
    requires BitsAt(input, p, 1) == 1
    ensures !CodeAt([0, 1], input, p, sym)
  {
    hide BitsAt, CodeAt;
    if CodeAt([0, 1], input, p, sym) {
      CodeHasLength([0, 1], input, p, sym);
      CodeIs([0, 1], input, p, 1);
      OtherCode();
    }
  }

  lemma OtherCode()
    ensures CodeOf([0, 1], 1) == 0 && Rev(1, 1) == 1
  {
    assert CountTo([0, 1], 1, 1) == CountTo([0, 1], 0, 1) == 0;
  }

  lemma CodeHasLength(b: seq<nat>, input: seq<nat>, p: nat, sym: nat)
    requires CodeAt(b, input, p, sym)
    ensures sym < |b| && b[sym] >= 1
  {
  }

  lemma OtherDistanceHeader()
    ensures GoodHeader(OTHER_DISTANCE, 3, ORDER2, ITEMS + [Len(1)], PLACES + [95], TwoCodes(), [0, 1], 95)
    ensures BitsAt(OTHER_DISTANCE, 1, 2) == 2 && BitsAt(OTHER_DISTANCE, 95, 1) == 1
    ensures BitsAt(OTHER_DISTANCE, 96, 1) == 1
  {
    hide BitsAt, ItemAt, ExpandItems, Kraft, OrderAt, CodeAt, Lost;
    var input := OTHER_DISTANCE;
    assert Starts(input);
    StartsOrder(input);
    StartsList(input);
    ListExpands();
    Order2Builds();
    OtherDistanceBits();
    assert ItemAt(ORDER2, input, 93, Len(1), 95) by { LengthItem(input); }
    ItemsMore(ORDER2, input, ITEMS, PLACES, Len(1), 95);
    ExpandItemsMore(ITEMS, Len(1));
    assert TwoCodes() + [0] + [1] == TwoCodes() + [0, 1];
    LengthHere(input, 95);
    OtherBitLost(input, 96);
  }

  lemma OtherDistanceBits()
    ensures BitsAt(OTHER_DISTANCE, 8, 5) == 1 && BitsAt(OTHER_DISTANCE, 93, 2) == 3
    ensures BitsAt(OTHER_DISTANCE, 95, 1) == 1 && BitsAt(OTHER_DISTANCE, 96, 1) == 1
  {
    hide BitsAt, Pow2;
    SmallPowers();
    Field(OTHER_DISTANCE, 1, 0, 5);
    Field(OTHER_DISTANCE, 11, 5, 2);
    Field(OTHER_DISTANCE, 11, 7, 1);
    Field(OTHER_DISTANCE, 12, 0, 1);
  }

  lemma LengthItem(input: seq<nat>)
    requires BitsAt(input, 93, 2) == 3
    ensures ItemAt(ORDER2, input, 93, Len(1), 95)
  {
    hide BitsAt, CodeAt;
    Order2Codes(input, 93);
  }

  lemma OtherDistance()
    ensures LostStream(OTHER_DISTANCE, 95) && 95 + 4 * BMAX <= 8 * |OTHER_DISTANCE|
  {
    hide BitsAt, GoodHeader, LostCodes, Lost;
    OtherDistanceHeader();
    OtherBitLost(OTHER_DISTANCE, 96);
    LostDistance(OTHER_DISTANCE, [0, 1], 95);
    assert LostBody(OTHER_DISTANCE, 3, ORDER2, ITEMS + [Len(1)], PLACES + [95], TwoCodes(), [0, 1], 95, 95);
    LostAtOnce(OTHER_DISTANCE, 95);
  }

  // ---- Two streams that are decoded

  /** Thirteen letters a: two of them, and a match of length 11, the first one with an extra bit. */
  const REPEATS: seq<nat> := [75, 76, 68, 2, 0, 0, 0]

  lemma RepeatsBits()
    ensures BitsAt(REPEATS, 0, 1) == 1 && BitsAt(REPEATS, 1, 2) == 1
    ensures BitsAt(REPEATS, 3, 8) == 137 && BitsAt(REPEATS, 11, 8) == 137
    ensures BitsAt(REPEATS, 19, 7) == 72 && BitsAt(REPEATS, 26, 1) == 0
    ensures BitsAt(REPEATS, 27, 5) == 0 && BitsAt(REPEATS, 32, 7) == 0
  {
    hide BitsAt, Pow2;
    SmallPowers();
    Field(REPEATS, 0, 0, 1);
    Field(REPEATS, 0, 1, 2);
    Field(REPEATS, 0, 3, 8);
    Field(REPEATS, 1, 3, 8);
    Field(REPEATS, 2, 3, 7);
    Field(REPEATS, 3, 2, 1);
    Field(REPEATS, 3, 3, 5);
    Field(REPEATS, 4, 0, 7);
  }

  lemma Reversals()
    ensures Rev(8, 137) == 145 && Rev(7, 72) == 9 && Rev(7, 0) == 0 && Rev(5, 0) == 0
  {
    assert Rev(4, 8) == 1 && Rev(8, 137) == 145;
    assert Rev(4, 9) == 9 && Rev(7, 72) == 9;
    assert Rev(3, 0) == 0 && Rev(5, 0) == 0 && Rev(7, 0) == 0;
  }

  lemma RepeatsCodes()
    ensures CodeAt(FixedLit(), REPEATS, 3, 97) && CodeAt(FixedLit(), REPEATS, 11, 97)
    ensures CodeAt(FixedLit(), REPEATS, 19, 265) && CodeAt(FixedDist(), REPEATS, 27, 0)
    ensures CodeAt(FixedLit(), REPEATS, 32, 256)
    ensures FixedLit()[97] == 8 && FixedLit()[265] == 7 && FixedLit()[256] == 7 && FixedDist()[0] == 5
  {
    hide BitsAt, Rev, CodeOf, FixedLit, FixedDist, CodeAt;
    RepeatsBits();
    Reversals();
    FixedCodes(97);
    FixedCodes(265);
    FixedCodes(256);
    FixedDistances(0);
    CodeIs(FixedLit(), REPEATS, 3, 97);
    CodeIs(FixedLit(), REPEATS, 11, 97);
    CodeIs(FixedLit(), REPEATS, 19, 265);
    CodeIs(FixedDist(), REPEATS, 27, 0);
    CodeIs(FixedLit(), REPEATS, 32, 256);
  }

  lemma RepeatsTokens()
    ensures CodesAt(FixedLit(), FixedDist(), REPEATS, 3, [Lit(97), Lit(97), Match(11, 1)], [3, 11, 19, 32], 39)
  {
    hide BitsAt, FixedLit, FixedDist, CodeAt;
    RepeatsBits();
    RepeatsCodes();
    assert BitsAt(REPEATS, 32, 0) == 0 by { BitsNone(REPEATS, 32); }
    assert MatchAt(FixedLit(), FixedDist(), REPEATS, 19, 11, 1, 32, 265, 0);
    var toks, ps := [Lit(97), Lit(97), Match(11, 1)], [3, 11, 19, 32];
    forall i | 0 <= i < 3 ensures TokenAt(FixedLit(), FixedDist(), REPEATS, ps[i], toks[i], ps[i + 1]) {
      assert i == 0 || i == 1 || i == 2;
    }
  }

  lemma BitsNone(input: seq<nat>, p: nat)
    ensures BitsAt(input, p, 0) == 0
  {
  }

  lemma RepeatsExpand()
    ensures Expand([], [Lit(97), Lit(97), Match(11, 1)]) == seq(13, _ => 97)
  {
    hide CopyBack;
    var toks := [Lit(97), Lit(97), Match(11, 1)];
    assert toks[..2] == [Lit(97), Lit(97)] && toks[..2][..1] == [Lit(97)] && toks[..2][..1][..0] == [];
    assert Expand([], [Lit(97), Lit(97)]) == [97, 97];
    AllAlike([97, 97], 11, 97);
  }

  lemma {:induction false} AllAlike(hist: seq<nat>, len: nat, byte: nat)
    requires hist != [] && forall i :: 0 <= i < |hist| ==> hist[i] == byte
    ensures CopyBack(hist, 1, len) == seq(|hist| + len, _ => byte)
    decreases len
  {
    if len > 0 {
      AllAlike(hist + [byte], len - 1, byte);
    }
  }

  lemma Repeats()
    ensures Compressed(REPEATS, [], seq(13, _ => 97), 39)
  {
    hide BitsAt, CodesAt, Expand;
    RepeatsBits();
    RepeatsTokens();
    RepeatsExpand();
    var block := Fixed([Lit(97), Lit(97), Match(11, 1)], [3, 11, 19, 32]);
    assert BlockAt(REPEATS, 0, true, block, 39);
    assert [block][..0] == [];
    assert StreamAt(REPEATS, [block], [0, 39]);
  }

  /** The letter A, stored. */
  const STORED: seq<nat> := [1, 1, 0, 254, 255, 65, 0, 0]

  lemma StoredLetter()
    ensures Compressed(STORED, [], [65], 48)
  {
    hide BitsAt, Pow2;
    assert Pow2(0) == 1 && Pow2(8) == 256 && Pow2(16) == 65536 by { SixteenBits(); }
    SmallPowers();
    Field(STORED, 0, 0, 1);
    Field(STORED, 0, 1, 2);
    Field(STORED, 1, 0, 16);
    Field(STORED, 3, 0, 16);
    Field(STORED, 5, 0, 8);
    assert BlockAt(STORED, 0, true, Stored([65]), 48);
    assert [Stored([65])][..0] == [];
    assert StreamAt(STORED, [Stored([65])], [0, 48]);
  }

  lemma SixteenBits()
    ensures Pow2(0) == 1 && Pow2(8) == 256 && Pow2(16) == 65536
  {
    Pow8();
    Pow2Add(8, 8);
  }
}
