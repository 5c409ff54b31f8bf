/** Canonical Huffman codes, as section 3.2.2 of RFC 1951 assigns them to a list of
    code lengths, and a slow reference decoder for them.

    A stream of bits is a number whose lowest bit comes first, so its first k bits, read
    as a code (most significant bit first), are `Rev(k, stream)`. */
module Canonical {
  import opened Bits

  const BMAX: nat := 16

  ghost predicate Lengths(b: seq<nat>) {
    forall s :: 0 <= s < |b| ==> b[s] <= BMAX
  }

  /** How many of the first i symbols have code length k. */
  function CountTo(b: seq<nat>, i: nat, k: nat): nat
    requires i <= |b|
  {
    if i == 0 then 0 else CountTo(b, i - 1, k) + (if b[i - 1] == k then 1 else 0)
  }

  function Counts(b: seq<nat>): (c: seq<nat>)
    ensures |c| == BMAX + 1
  {
    seq(BMAX + 1, k requires 0 <= k => CountTo(b, |b|, k))
  }

  /** The smallest code of k bits: step 2 of section 3.2.2. */
  function First(c: seq<nat>, k: nat): nat
    requires 1 <= k <= |c|
  {
    if k == 1 then 0 else 2 * (First(c, k - 1) + c[k - 1])
  }

  /** One past the largest code of k bits. */
  function Used(c: seq<nat>, k: nat): nat
    requires 1 <= k < |c|
  {
    First(c, k) + c[k]
  }

  /** The number of codes shorter than k bits. */
  function Off(c: seq<nat>, k: nat): nat
    requires 1 <= k <= |c|
  {
    if k == 1 then 0 else Off(c, k - 1) + c[k - 1]
  }

  /** The code of symbol s: step 3 of section 3.2.2. */
  function CodeOf(b: seq<nat>, s: nat): nat
    requires s < |b| && 1 <= b[s] <= BMAX
  {
    First(Counts(b), b[s]) + CountTo(b, s, b[s])
  }

  /** The stream starts with the code of symbol s. */
  ghost predicate StartsWith(b: seq<nat>, stream: nat, s: nat) {
    s < |b| && 1 <= b[s] <= BMAX && Rev(b[s], stream) == CodeOf(b, s)
  }

  /** The Kraft sum of the first i lengths, in units of 2^-16. */
  function Kraft(b: seq<nat>, i: nat): nat
    requires i <= |b| && Lengths(b)
  {
    if i == 0 then 0
    else Kraft(b, i - 1) + (if b[i - 1] == 0 then 0 else Pow2(BMAX - b[i - 1]))
  }

  // ---- Order of codes of different lengths

  lemma {:induction false} FirstAfterUsed(c: seq<nat>, j: nat, k: nat)
    requires 1 <= j < k <= |c|
    ensures Used(c, j) * Pow2(k - j) <= First(c, k)
  {
    if j + 1 == k {
      assert Pow2(1) == 2;
    } else {
      FirstAfterUsed(c, j, k - 1);
      Assoc(Used(c, j), Pow2(k - 1 - j), 2);
      Assoc(Used(c, j), 2, Pow2(k - 1 - j));
    }
  }

  lemma {:induction false} OffMonotone(c: seq<nat>, j: nat, k: nat)
    requires 1 <= j < k <= |c|
    ensures Off(c, j) + c[j] <= Off(c, k)
  {
    if j + 1 < k {
      OffMonotone(c, j, k - 1);
    }
  }

  lemma {:induction false} FirstAgrees(c: seq<nat>, d: seq<nat>, k: nat)
    requires 1 <= k <= |c| && |c| == |d| && c[..k] == d[..k]
    ensures First(c, k) == First(d, k) && Off(c, k) == Off(d, k)
  {
    if k > 1 {
      assert c[k - 1] == c[..k][k - 1] == d[k - 1];
      assert c[..k - 1] == c[..k][..k - 1];
      assert d[..k - 1] == d[..k][..k - 1];
      FirstAgrees(c, d, k - 1);
    }
  }

  // ---- Prefixes of streams

  lemma NextPrefix(k: nat, x: nat)
    ensures Rev(k + 1, x) / 2 == Rev(k, x)
  {
    RevHigh(k + 1, k, x);
    assert Shr(Rev(k + 1, x), 1) == Rev(k, x) && Pow2(1) == 2;
  }

  /** Matching a code bit by bit is comparing low bits with the reversed code. */
  lemma MatchLow(k: nat, x: nat, code: nat)
    requires code < Pow2(k)
    ensures Rev(k, x) == code <==> Low(x, k) == Rev(k, code)
  {
    RevMod(k, x);
    RevRev(k, Low(x, k));
    RevRev(k, code);
  }

  // ---- Reference decoder

  ghost predicate IsCode(c: seq<nat>, k: nat, code: nat) {
    1 <= k < |c| && First(c, k) <= code < Used(c, k)
  }

  /** Read one bit at a time until the bits read are a code; zero if they never are. */
  function SlowLength(c: seq<nat>, stream: nat, k: nat): (r: nat)
    requires 1 <= k
    ensures r != 0 ==> k <= r < |c| && IsCode(c, r, Rev(r, stream))
    decreases |c| - k
  {
    if k >= |c| then 0
    else if First(c, k) <= Rev(k, stream) < Used(c, k) then k
    else SlowLength(c, stream, k + 1)
  }

  /** No code is a prefix of another. */
  lemma PrefixFree(c: seq<nat>, stream: nat, j: nat, k: nat)
    requires IsCode(c, j, Rev(j, stream)) && IsCode(c, k, Rev(k, stream))
    ensures j == k
  {
    if j < k {
      LongerIsLater(c, stream, j, k);
    } else if k < j {
      LongerIsLater(c, stream, k, j);
    }
  }

  lemma LongerIsLater(c: seq<nat>, stream: nat, j: nat, k: nat)
    requires 1 <= j < k < |c|
    requires Rev(j, stream) < Used(c, j)
    ensures Rev(k, stream) < First(c, k)
  {
    RevHigh(k, j, stream);
    FirstAfterUsed(c, j, k);
    QuotientAbove(Rev(k, stream), Pow2(k - j), Used(c, j));
  }

  lemma {:induction false} SlowLengthFinds(c: seq<nat>, stream: nat, j: nat, k: nat)
    requires 1 <= j <= k && IsCode(c, k, Rev(k, stream))
    ensures SlowLength(c, stream, j) == k
    decreases k - j
  {
    if First(c, j) <= Rev(j, stream) < Used(c, j) {
      PrefixFree(c, stream, j, k);
    } else if j < k {
      SlowLengthFinds(c, stream, j + 1, k);
    }
  }

  // ---- Kraft sums

  /** The sum over the counts of lengths 1 to k. */
  function KraftCounts(c: seq<nat>, k: nat): nat
    requires k < |c| && k <= BMAX
  {
    if k == 0 then 0 else KraftCounts(c, k - 1) + c[k] * Pow2(BMAX - k)
  }

  lemma {:induction false} KraftIsUsed(c: seq<nat>, k: nat)
    requires 1 <= k < |c| && k <= BMAX
    ensures KraftCounts(c, k) == Used(c, k) * Pow2(BMAX - k)
  {
    var p := Pow2(BMAX - k);
    if k == 1 {
      assert KraftCounts(c, 0) == 0;
    } else {
      KraftIsUsed(c, k - 1);
      Assoc(Used(c, k - 1), 2, p);
      Assoc(2, Used(c, k - 1), p);
    }
    Distribute(First(c, k), c[k], p);
  }

  lemma {:induction false} KraftBump(c: seq<nat>, d: seq<nat>, j: nat, k: nat)
    requires |c| == |d| && k < |c| && k <= BMAX && 1 <= j < |c|
    requires forall i :: 0 <= i < |c| ==> d[i] == c[i] + (if i == j then 1 else 0)
    ensures KraftCounts(d, k) == KraftCounts(c, k) + (if j <= k then Pow2(BMAX - j) else 0)
  {
    if k > 0 {
      KraftBump(c, d, j, k - 1);
      Distribute(c[k], 1, Pow2(BMAX - k));
    }
  }

  function PrefixCounts(b: seq<nat>, i: nat): seq<nat>
    requires i <= |b|
  {
    seq(BMAX + 1, k requires 0 <= k => CountTo(b, i, k))
  }

  lemma {:induction false} KraftAgreesTo(b: seq<nat>, i: nat)
    requires Lengths(b) && i <= |b|
    ensures Kraft(b, i) == KraftCounts(PrefixCounts(b, i), BMAX)
  {
    var d := PrefixCounts(b, i);
    if i == 0 {
      KraftOfZeros(d, BMAX);
    } else {
      KraftAgreesTo(b, i - 1);
      var c := PrefixCounts(b, i - 1);
      if b[i - 1] != 0 {
        KraftBump(c, d, b[i - 1], BMAX);
      } else {
        KraftIgnoresZero(c, d, BMAX);
      }
    }
  }

  lemma {:induction false} KraftOfZeros(c: seq<nat>, k: nat)
    requires k < |c| && k <= BMAX && forall i :: 0 <= i < |c| ==> c[i] == 0
    ensures KraftCounts(c, k) == 0
  {
    if k > 0 { KraftOfZeros(c, k - 1); }
  }

  lemma {:induction false} KraftIgnoresZero(c: seq<nat>, d: seq<nat>, k: nat)
    requires |c| == |d| && k < |c| && k <= BMAX && forall i :: 1 <= i < |c| ==> c[i] == d[i]
    ensures KraftCounts(c, k) == KraftCounts(d, k)
  {
    if k > 0 { KraftIgnoresZero(c, d, k - 1); }
  }

  /** Summing over the symbols is summing over the counts. */
  lemma KraftAgrees(b: seq<nat>)
    requires Lengths(b)
    ensures Kraft(b, |b|) == KraftCounts(Counts(b), BMAX)
  {
    KraftAgreesTo(b, |b|);
    assert PrefixCounts(b, |b|) == Counts(b);
  }
}
