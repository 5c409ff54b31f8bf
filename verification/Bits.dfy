/** Powers of two, shifts and masks on natural numbers, and bit reversal. */
module Bits {

  // Multiplication facts, stated on plain numbers so that they are cheap to apply.

  lemma MulMonotone(a: nat, b: nat, d: nat)
    requires a <= b
    ensures a * d <= b * d
  {
    assert b * d == a * d + (b - a) * d;
  }

  lemma Distribute(a: int, b: int, c: int)
    ensures (a + b) * c == a * c + b * c
  {
  }

  lemma Assoc(a: int, b: int, c: int)
    ensures a * b * c == a * (b * c)
    ensures a * b == b * a
  {
  }

  lemma TwiceMul(x: nat, p: nat)
    ensures x * (2 * p) == 2 * (x * p)
  {
  }

  /** A quotient and a remainder are determined by what they add up to. */
  lemma DivModUnique(x: nat, d: nat, q: nat, r: nat)
    requires d > 0 && r < d && x == q * d + r
    ensures x / d == q && x % d == r
  {
    var q', r' := x / d, x % d;
    if q' < q {
      MulMonotone(q' + 1, q, d);
      Distribute(q', 1, d);
    } else if q < q' {
      MulMonotone(q + 1, q', d);
      Distribute(q, 1, d);
    }
  }

  lemma QuotientBelow(x: nat, d: nat, q: nat)
    requires d > 0 && x < q * d
    ensures x / d < q
  {
    if x / d >= q {
      MulMonotone(q, x / d, d);
    }
  }

  lemma QuotientAbove(x: nat, d: nat, q: nat)
    requires d > 0 && x / d < q
    ensures x < q * d
  {
    MulMonotone(x / d + 1, q, d);
    Distribute(x / d, 1, d);
  }

  lemma ScaleUp(u: nat, b: nat, p: nat, q: nat)
    requires u >= b * p
    ensures u * q >= b * (p * q)
  {
    MulMonotone(b * p, u, q);
    Assoc(b, p, q);
  }

  lemma Regroup(p: nat, q: nat, r: nat, z: nat, t: nat)
    requires r < p && t < q
    ensures (z * q + t) * p + r == z * (p * q) + (t * p + r)
    ensures t * p + r < p * q
  {
    Distribute(z * q, t, p);
    Assoc(z, q, p);
    Assoc(q, p, 1);
    MulMonotone(t + 1, q, p);
    Distribute(t, 1, p);
  }

  /** Dividing by p and then by q, and what the two remainders add up to. */
  lemma DivTwice(x: nat, p: nat, q: nat)
    requires p > 0 && q > 0
    ensures p * q > 0
    ensures x / p / q == x / (p * q)
    ensures x % (p * q) == x / p % q * p + x % p
  {
    MulMonotone(1, q, p);
    Assoc(p, q, 1);
    DivTwiceParts(x, p, q, x / p, x % p, x / p / q, x / p % q);
  }

  lemma DivTwiceParts(x: nat, p: nat, q: nat, y: nat, r: nat, z: nat, t: nat)
    requires p * q > 0 && r < p && t < q && x == y * p + r && y == z * q + t
    ensures x / (p * q) == z && x % (p * q) == t * p + r
  {
    Regroup(p, q, r, z, t);
    DivModUnique(x, p * q, z, t * p + r);
  }

  function Pow2(n: nat): (r: nat)
    ensures r >= 1
  {
    if n == 0 then 1 else 2 * Pow2(n - 1)
  }

  lemma {:induction false} Pow2Add(a: nat, b: nat)
    ensures Pow2(a + b) == Pow2(a) * Pow2(b)
  {
    if a == 0 {
      Assoc(Pow2(a), Pow2(b), 1);
    } else {
      Pow2Add(a - 1, b);
      Assoc(2, Pow2(a - 1), Pow2(b));
    }
  }

  lemma {:induction false} Pow2Monotone(a: nat, b: nat)
    requires a <= b
    ensures Pow2(a) <= Pow2(b)
    ensures a < b ==> 2 * Pow2(a) <= Pow2(b)
    decreases b
  {
    if a < b {
      Pow2Monotone(a, b - 1);
    }
  }

  lemma DivNonNegative(x: nat, d: nat)
    requires d > 0
    ensures x / d >= 0
  {
  }

  /** x >> n */
  function Shr(x: nat, n: nat): nat
  {
    DivNonNegative(x, Pow2(n));
    x / Pow2(n)
  }

  /** x & ((1 << n) - 1) */
  function Low(x: nat, n: nat): (r: nat)
    ensures r < Pow2(n)
  {
    x % Pow2(n)
  }

  lemma ShrLow(x: nat, n: nat)
    ensures x == Shr(x, n) * Pow2(n) + Low(x, n)
  {
  }

  lemma ShrLowUnique(x: nat, n: nat, hi: nat, lo: nat)
    requires lo < Pow2(n) && x == hi * Pow2(n) + lo
    ensures Shr(x, n) == hi && Low(x, n) == lo
  {
    DivModUnique(x, Pow2(n), hi, lo);
  }

  lemma ShiftShift(x: nat, a: nat, b: nat)
    ensures Shr(Shr(x, a), b) == Shr(x, a + b)
    ensures Low(x, a + b) == Low(Shr(x, a), b) * Pow2(a) + Low(x, a)
  {
    Pow2Add(a, b);
    DivTwice(x, Pow2(a), Pow2(b));
  }

  /** Masking after a shift is shifting after a wider mask. */
  lemma ShiftMask(x: nat, a: nat, b: nat)
    ensures Low(Shr(x, a), b) == Shr(Low(x, a + b), a)
    ensures Low(Low(x, a + b), a) == Low(x, a)
  {
    ShiftShift(x, a, b);
    ShrLowUnique(Low(x, a + b), a, Low(Shr(x, a), b), Low(x, a));
  }

  lemma LowLow(x: nat, a: nat, b: nat)
    requires a <= b
    ensures Low(Low(x, b), a) == Low(x, a)
  {
    ShiftMask(x, a, b - a);
  }

  lemma ShrBound(x: nat, a: nat, b: nat)
    requires x < Pow2(a + b)
    ensures Shr(x, a) < Pow2(b)
  {
    Pow2Add(a, b);
    Assoc(Pow2(a), Pow2(b), 1);
    QuotientBelow(x, Pow2(a), Pow2(b));
  }

  lemma ShrBelow(x: nat, n: nat, q: nat)
    requires Shr(x, n) < q
    ensures x < q * Pow2(n)
  {
    QuotientAbove(x, Pow2(n), q);
  }

  lemma ShrNone(x: nat)
    ensures Shr(x, 0) == x
  {
  }

  lemma LowNone(x: nat)
    ensures Low(x, 0) == 0
  {
  }

  lemma LowSmall(x: nat, n: nat)
    requires x < Pow2(n)
    ensures Low(x, n) == x && Shr(x, n) == 0
  {
    ShrLowUnique(x, n, 0, x);
  }

  /** The n low bits of x in the opposite order. */
  function Rev(n: nat, x: nat): nat
  {
    if n == 0 then 0 else (if x % 2 == 1 then Pow2(n - 1) else 0) + Rev(n - 1, x / 2)
  }

  lemma {:induction false} RevBound(n: nat, x: nat)
    ensures Rev(n, x) < Pow2(n)
  {
    if n > 0 {
      RevBound(n - 1, x / 2);
    }
  }

  lemma Halve(hi: nat, p: nat, lo: nat)
    ensures (hi * (2 * p) + lo) % 2 == lo % 2
    ensures (hi * (2 * p) + lo) / 2 == hi * p + lo / 2
  {
    Assoc(2, hi, p);
    Assoc(hi, 2, p);
    assert hi * (2 * p) == 2 * (hi * p);
  }

  /** Reversing a concatenation reverses the parts and their order. */
  lemma {:induction false} RevSplit(a: nat, b: nat, hi: nat, lo: nat)
    requires lo < Pow2(b)
    ensures Rev(a + b, hi * Pow2(b) + lo) == Rev(b, lo) * Pow2(a) + Rev(a, hi)
    decreases b
  {
    if b > 0 {
      Halve(hi, Pow2(b - 1), lo);
      RevSplit(a, b - 1, hi, lo / 2);
      Pow2Add(b - 1, a);
      Distribute(if lo % 2 == 1 then Pow2(b - 1) else 0, Rev(b - 1, lo / 2), Pow2(a));
    }
  }

  lemma {:induction false} RevRev(n: nat, x: nat)
    requires x < Pow2(n)
    ensures Rev(n, Rev(n, x)) == x
  {
    if n > 0 {
      RevRev(n - 1, x / 2);
      RevBound(n - 1, x / 2);
      RevTop(n - 1, x % 2, Rev(n - 1, x / 2));
    }
  }

  /** The top bit comes out last. */
  lemma RevTop(n: nat, bit: nat, r: nat)
    requires bit < 2 && r < Pow2(n)
    ensures Rev(n + 1, (if bit == 1 then Pow2(n) else 0) + r) == 2 * Rev(n, r) + bit
  {
    RevSplit(1, n, bit, r);
    RevOne(bit);
  }

  lemma RevOne(bit: nat)
    requires bit < 2
    ensures Rev(1, bit) == bit && Pow2(1) == 2
  {
  }

  /** RevSplit, with the number cut at bit b. */
  lemma RevCut(a: nat, b: nat, x: nat)
    ensures Rev(a + b, x) == Rev(b, Low(x, b)) * Pow2(a) + Rev(a, Shr(x, b))
  {
    ShrLow(x, b);
    RevSplit(a, b, Shr(x, b), Low(x, b));
  }

  /** Reversal looks at no bit beyond the n low ones. */
  lemma RevMod(n: nat, x: nat)
    ensures Rev(n, x) == Rev(n, Low(x, n))
  {
    RevCut(0, n, x);
  }

  /** The low a bits of a reversal are the reversal of the high a bits. */
  lemma RevLow(n: nat, a: nat, x: nat)
    requires a <= n
    ensures Low(Rev(n, x), a) == Rev(a, Shr(x, n - a))
  {
    RevCut(a, n - a, x);
    RevBound(a, Shr(x, n - a));
    ShrLowUnique(Rev(n, x), a, Rev(n - a, Low(x, n - a)), Rev(a, Shr(x, n - a)));
  }

  /** The high bits of a reversal are the reversal of the low bits. */
  lemma RevHigh(n: nat, a: nat, x: nat)
    requires a <= n
    ensures Shr(Rev(n, x), n - a) == Rev(a, x)
  {
    RevCut(n - a, a, x);
    RevMod(a, x);
    RevBound(n - a, Shr(x, a));
    ShrLowUnique(Rev(n, x), n - a, Rev(a, x), Rev(n - a, Shr(x, a)));
  }
}
