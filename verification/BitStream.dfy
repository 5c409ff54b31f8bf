/** The compressed data as a sequence of bits, lowest bit of each byte first (section 3.1.1
    of RFC 1951). */
module BitStream {
  import opened Bits

  ghost predicate Bytes(input: seq<nat>) {
    forall i :: 0 <= i < |input| ==> input[i] < 256
  }

  function ByteAt(input: seq<nat>, i: nat): nat {
    if i < |input| then input[i] else 0
  }

  function BitAt(input: seq<nat>, p: nat): nat {
    Shr(ByteAt(input, p / 8), p % 8) % 2
  }

  /** The n bits from bit p on, the first one lowest. */
  function BitsAt(input: seq<nat>, p: nat, n: nat): nat
    decreases n
  {
    if n == 0 then 0 else BitAt(input, p) + 2 * BitsAt(input, p + 1, n - 1)
  }

  lemma {:induction false} BitsBound(input: seq<nat>, p: nat, n: nat)
    ensures BitsAt(input, p, n) < Pow2(n)
    decreases n
  {
    if n > 0 { BitsBound(input, p + 1, n - 1); }
  }

  lemma {:induction false} BitsSplit(input: seq<nat>, p: nat, a: nat, b: nat)
    ensures BitsAt(input, p, a + b) == BitsAt(input, p + a, b) * Pow2(a) + BitsAt(input, p, a)
    decreases a
  {
    if a > 0 {
      hide BitAt;
      assert p + 1 + (a - 1) == p + a && a - 1 + b == a + b - 1;
      BitsSplit(input, p + 1, a - 1, b);
      TwiceMul(BitsAt(input, p + a, b), Pow2(a - 1));
    }
  }

  /** Looking at some of the bits, and dropping some of them. */
  lemma BitsCut(input: seq<nat>, p: nat, n: nat, a: nat)
    requires a <= n
    ensures Low(BitsAt(input, p, n), a) == BitsAt(input, p, a)
    ensures Shr(BitsAt(input, p, n), a) == BitsAt(input, p + a, n - a)
  {
    BitsSplit(input, p, a, n - a);
    BitsBound(input, p, a);
    ShrLowUnique(BitsAt(input, p, n), a, BitsAt(input, p + a, n - a), BitsAt(input, p, a));
  }

  lemma LowStep(y: nat, n: nat)
    requires n > 0
    ensures Low(y, n) == y % 2 + 2 * Low(y / 2, n - 1)
  {
    ShiftShift(y, 1, n - 1);
    assert Pow2(1) == 2;
  }

  lemma ShrOne(y: nat)
    ensures Shr(y, 1) == y / 2
  {
    assert Pow2(1) == 2;
  }

  lemma {:induction false} BitsInByte(input: seq<nat>, i: nat, j: nat, n: nat)
    requires j + n <= 8
    ensures BitsAt(input, 8 * i + j, n) == Low(Shr(ByteAt(input, i), j), n)
    decreases n
  {
    hide Shr, Low, Pow2, ByteAt;
    var y := Shr(ByteAt(input, i), j);
    if n == 0 {
      LowNone(y);
    } else {
      BitsInByte(input, i, j + 1, n - 1);
      LowStep(y, n);
      ShiftShift(ByteAt(input, i), j, 1);
      ShrOne(y);
      assert (8 * i + j) / 8 == i && (8 * i + j) % 8 == j;
    }
  }

  lemma ByteBits(input: seq<nat>, i: nat)
    requires Bytes(input)
    ensures BitsAt(input, 8 * i, 8) == ByteAt(input, i)
  {
    hide *;
    assert Bytes(input) ==> ByteAt(input, i) < 256 by { ByteBound(input, i); }
    BitsInByte(input, i, 0, 8);
    ShrNone(ByteAt(input, i));
    Pow8();
    LowSmall(ByteAt(input, i), 8);
  }

  lemma ByteBound(input: seq<nat>, i: nat)
    ensures Bytes(input) ==> ByteAt(input, i) < 256
  {
  }

  lemma Pow8()
    ensures Pow2(8) == 256
  {
    Pow2Add(4, 4);
    assert Pow2(4) == 16;
  }
}
