/** huft_build as a whole: from code lengths to decoding tables, and what the tables decode. */
module Huffman {
  import opened Bits
  import opened Canonical
  import opened HuffmanTables
  import opened HuffmanSteps
  import opened HuffmanBuild
  import opened HuffmanLoop

  // ---- Shortest and longest code

  function MinLen(c: seq<nat>, j: nat): (r: nat)
    ensures j <= r <= |c| || (j > |c| && r == j)
    decreases |c| - j
  {
    if j >= |c| || c[j] > 0 then j else MinLen(c, j + 1)
  }

  function MaxLen(c: seq<nat>, i: nat): (r: nat)
    requires i < |c|
    ensures r <= i
  {
    if i == 0 || c[i] > 0 then i else MaxLen(c, i - 1)
  }

  lemma {:induction false} MinLenIs(c: seq<nat>, j: nat, k: nat)
    requires j <= k < |c| && c[k] > 0
    ensures MinLen(c, j) <= k && c[MinLen(c, j)] > 0
    ensures forall t :: j <= t < MinLen(c, j) ==> c[t] == 0
    decreases k - j
  {
    if c[j] == 0 { MinLenIs(c, j + 1, k); }
  }

  lemma {:induction false} MaxLenIs(c: seq<nat>, i: nat, k: nat)
    requires 1 <= k <= i < |c| && c[k] > 0
    ensures k <= MaxLen(c, i) && c[MaxLen(c, i)] > 0
    ensures forall t :: MaxLen(c, i) < t <= i ==> c[t] == 0
    decreases i
  {
    if c[i] == 0 { MaxLenIs(c, i - 1, k); }
  }

  /** The root index bits: what was asked for, but within the lengths that occur. */
  function RootBits(c: seq<nat>, m: nat): nat
    requires |c| == BMAX + 1
  {
    var j, i := MinLen(c, 1), MaxLen(c, BMAX);
    var l := if m < j then j else m;
    if l > i then i else l
  }

  // ---- Counting symbols

  lemma {:induction false} CountMonotone(b: seq<nat>, i: nat, j: nat, k: nat)
    requires i <= j <= |b|
    ensures CountTo(b, i, k) <= CountTo(b, j, k)
    ensures i < j && b[i] == k ==> CountTo(b, i, k) < CountTo(b, j, k)
    decreases j
  {
    if i < j { CountMonotone(b, i, j - 1, k); }
  }

  lemma {:induction false} TotalCount(b: seq<nat>, i: nat)
    requires Lengths(b) && i <= |b|
    ensures Off(PrefixCounts(b, i), BMAX + 1) + CountTo(b, i, 0) == i
  {
    var d := PrefixCounts(b, i);
    if i == 0 {
      OffZero(d, BMAX + 1);
    } else {
      TotalCount(b, i - 1);
      OffBump(PrefixCounts(b, i - 1), d, b[i - 1], BMAX + 1);
    }
  }

  lemma {:induction false} OffZero(c: seq<nat>, k: nat)
    requires 1 <= k <= |c| && forall t :: 0 <= t < |c| ==> c[t] == 0
    ensures Off(c, k) == 0
  {
    if k > 1 { OffZero(c, k - 1); }
  }

  lemma {:induction false} OffBump(c: seq<nat>, d: seq<nat>, j: nat, k: nat)
    requires |c| == |d| && 1 <= k <= |c| && j < |c|
    requires forall t :: 0 <= t < |c| ==> d[t] == c[t] + (if t == j then 1 else 0)
    ensures Off(d, k) == Off(c, k) + (if 1 <= j < k then 1 else 0)
  {
    if k > 1 { OffBump(c, d, j, k - 1); }
  }

  /** The position of symbol s when symbols are ordered by length and then by number. */
  function SlotOf(b: seq<nat>, s: nat): nat
    requires s < |b| && 1 <= b[s] <= BMAX
  {
    Off(Counts(b), b[s]) + CountTo(b, s, b[s])
  }

  lemma SlotBound(b: seq<nat>, s: nat)
    requires Lengths(b) && s < |b| && 1 <= b[s]
    ensures CountTo(b, s, b[s]) < Counts(b)[b[s]] && SlotOf(b, s) < |b|
  {
    var c := Counts(b);
    CountMonotone(b, s, |b|, b[s]);
    OffMonotone(c, b[s], BMAX + 1);
    TotalCount(b, |b|);
    assert PrefixCounts(b, |b|) == c;
  }

  lemma SlotInjective(b: seq<nat>, s: nat, t: nat)
    requires Lengths(b) && s < |b| && t < |b| && 1 <= b[s] && 1 <= b[t] && s != t
    ensures SlotOf(b, s) != SlotOf(b, t)
  {
    SlotBound(b, s);
    SlotBound(b, t);
    var c := Counts(b);
    if b[s] < b[t] {
      OffMonotone(c, b[s], b[t]);
    } else if b[t] < b[s] {
      OffMonotone(c, b[t], b[s]);
    } else if s < t {
      CountMonotone(b, s, t, b[s]);
    } else {
      CountMonotone(b, t, s, b[s]);
    }
  }

  /** The symbol of length k that r symbols of that length precede. */
  lemma {:induction false} NthSymbol(b: seq<nat>, i: nat, k: nat, r: nat) returns (s: nat)
    requires i <= |b| && r < CountTo(b, i, k)
    ensures s < i && b[s] == k && CountTo(b, s, k) == r
    decreases i
  {
    if r < CountTo(b, i - 1, k) {
      s := NthSymbol(b, i - 1, k, r);
    } else {
      s := i - 1;
    }
  }

  // ---- Completing the code

  ghost predicate NotAllZero(b: seq<nat>) {
    exists s :: 0 <= s < |b| && b[s] != 0
  }

  /** The counts once the longest length has been topped up to use every bit pattern. */
  function Topped(c: seq<nat>): seq<nat>
    requires |c| == BMAX + 1
  {
    var g := MaxLen(c, BMAX);
    if 1 <= g && Used(c, g) <= Pow2(g) then c[g := c[g] + (Pow2(g) - Used(c, g))] else c
  }

  lemma ToppedAgrees(c: seq<nat>, k: nat)
    requires |c| == BMAX + 1 && 1 <= k <= MaxLen(c, BMAX)
    ensures First(Topped(c), k) == First(c, k) && Off(Topped(c), k) == Off(c, k)
  {
    FirstAgrees(c, Topped(c), k);
  }

  ghost function EnvOf(b: seq<nat>, m: nat, leaves: seq<Leaf>): Env {
    var c := Counts(b);
    Env(Topped(c), MaxLen(c, BMAX), RootBits(c, m), leaves)
  }

  lemma CountsNotZero(b: seq<nat>) returns (k: nat)
    requires Lengths(b) && NotAllZero(b)
    ensures 1 <= k <= BMAX && Counts(b)[k] > 0
  {
    var s :| 0 <= s < |b| && b[s] != 0;
    k := b[s];
    CountMonotone(b, s, |b|, k);
  }

  /** The lengths do not oversubscribe: no more codes than bit patterns. */
  ghost predicate Feasible(b: seq<nat>) {
    Lengths(b) && NotAllZero(b) && Kraft(b, |b|) <= Pow2(BMAX)
  }

  lemma KraftAtLongest(b: seq<nat>)
    requires Lengths(b) && NotAllZero(b)
    ensures var c := Counts(b); var g := MaxLen(c, BMAX);
      1 <= g <= BMAX && c[g] > 0 && Kraft(b, |b|) == Used(c, g) * Pow2(BMAX - g)
  {
    var c := Counts(b);
    var k := CountsNotZero(b);
    MaxLenIs(c, BMAX, k);
    var g := MaxLen(c, BMAX);
    KraftAgrees(b);
    KraftAbove(c, g, BMAX);
    KraftIsUsed(c, g);
  }

  lemma {:induction false} KraftAbove(c: seq<nat>, g: nat, k: nat)
    requires |c| == BMAX + 1 && g <= k <= BMAX && forall t :: g < t <= k ==> c[t] == 0
    ensures KraftCounts(c, k) == KraftCounts(c, g)
    decreases k
  {
    if g < k { KraftAbove(c, g, k - 1); }
  }

  lemma ScaleCompare(u: nat, p: nat, q: nat)
    requires q > 0
    ensures u * q <= p * q <==> u <= p
    ensures u * q == p * q <==> u == p
  {
    if u < p { MulMonotone(u + 1, p, q); Distribute(u, 1, q); }
    if p < u { MulMonotone(p + 1, u, q); Distribute(p, 1, q); }
  }

  /** The Kraft sum against the patterns left at the longest length. */
  lemma KraftMeaning(b: seq<nat>)
    requires Lengths(b) && NotAllZero(b)
    ensures var c := Counts(b);
      var g := MaxLen(c, BMAX);
      && 1 <= g <= BMAX && c[g] > 0
      && (Kraft(b, |b|) <= Pow2(BMAX) <==> Used(c, g) <= Pow2(g))
      && (Kraft(b, |b|) == Pow2(BMAX) <==> Used(c, g) == Pow2(g))
  {
    KraftAtLongest(b);
    var c := Counts(b);
    var g := MaxLen(c, BMAX);
    Pow2Add(g, BMAX - g);
    ScaleCompare(Used(c, g), Pow2(g), Pow2(BMAX - g));
  }

  lemma EnvComplete(b: seq<nat>, m: nat, leaves: seq<Leaf>)
    requires Feasible(b)
    requires |leaves| == Off(Topped(Counts(b)), MaxLen(Counts(b), BMAX) + 1)
    ensures Complete(EnvOf(b, m, leaves))
    ensures var c := Counts(b);
      && 1 <= MinLen(c, 1) <= RootBits(c, m) && Topped(c)[MinLen(c, 1)] > 0
      && forall j :: 1 <= j < MinLen(c, 1) ==> Topped(c)[j] == 0
  {
    hide Kraft, Pow2, KraftCounts, CountTo, MinLen, MaxLen;
    var c := Counts(b);
    var k := CountsNotZero(b);
    MinLenIs(c, 1, k);
    MaxLenIs(c, BMAX, k);
    KraftMeaning(b);
    ToppedAgrees(c, MaxLen(c, BMAX));
    MaxLenIs(c, BMAX, MinLen(c, 1));
  }

  // ---- What the tables decode

  /** What symbol `sym` decodes to. */
  function LeafFor(sym: nat, s: nat, d: seq<nat>, e: seq<nat>, wild: Leaf): Leaf {
    if sym < s then Leaf(if sym < 256 then 16 else 15, sym)
    else if sym - s < |d| && sym - s < |e| then Leaf(e[sym - s], d[sym - s])
    else wild
  }

  ghost predicate Placed(b: seq<nat>, v: seq<nat>, sym: nat)
    requires sym < |b| && 1 <= b[sym] <= BMAX
  {
    SlotOf(b, sym) < |v| && v[SlotOf(b, sym)] == sym
  }

  /** v lists the symbols that have codes in order of code. */
  ghost predicate Ordered(b: seq<nat>, v: seq<nat>) {
    OrderedTo(b, v, |b|)
  }

  ghost function LeavesOf(b: seq<nat>, v: seq<nat>, s: nat, d: seq<nat>, e: seq<nat>, wild: Leaf): seq<Leaf>
    requires |b| <= |v|
  {
    seq(Off(Topped(Counts(b)), MaxLen(Counts(b), BMAX) + 1),
        p requires 0 <= p => EntryFor(v, |b|, s, d, e, wild, p))
  }

  lemma SymbolCode(b: seq<nat>, sym: nat)
    requires Feasible(b) && sym < |b| && b[sym] != 0
    ensures var c' := Topped(Counts(b));
      && b[sym] <= MaxLen(Counts(b), BMAX) && IsCode(c', b[sym], CodeOf(b, sym))
      && Off(c', b[sym]) + (CodeOf(b, sym) - First(c', b[sym])) == SlotOf(b, sym) < |b|
  {
    SlotBound(b, sym);
    MaxLenIs(Counts(b), BMAX, b[sym]);
    ToppedAgrees(Counts(b), b[sym]);
  }

  lemma LeafAt(env: Env, leaf: Leaf, k: nat, code: nat, p: nat)
    requires Complete(env) && k <= env.g && IsCode(env.c, k, code) && Off(env.c, k) + (code - First(env.c, k)) == p
    requires p < |env.leaves| ==> env.leaves[p] == leaf
    ensures LeafOf(env, k, code) == leaf
  {
    OffMonotone(env.c, k, env.g + 1);
  }

  lemma SymbolLeaf(b: seq<nat>, m: nat, v: seq<nat>, s: nat, d: seq<nat>, e: seq<nat>, wild: Leaf, sym: nat)
    requires |b| <= |v| && Feasible(b) && Ordered(b, v) && sym < |b| && b[sym] != 0
    ensures var env := EnvOf(b, m, LeavesOf(b, v, s, d, e, wild));
      && Complete(env) && b[sym] <= env.g && IsCode(env.c, b[sym], CodeOf(b, sym))
      && LeafOf(env, b[sym], CodeOf(b, sym)) == LeafFor(sym, s, d, e, wild)
  {
    hide LeafOf, Complete, IsCode, SlotOf, CodeOf, Topped, Kraft;
    var env := EnvOf(b, m, LeavesOf(b, v, s, d, e, wild));
    EnvComplete(b, m, env.leaves);
    SymbolCode(b, sym);
    assert v[SlotOf(b, sym)] == sym by { assert Placed(b, v, sym); }
    LeafAt(env, LeafFor(sym, s, d, e, wild), b[sym], CodeOf(b, sym), SlotOf(b, sym));
  }

  /** A stream that starts with the code of a symbol decodes to that symbol. */
  lemma SymbolFound(b: seq<nat>, m: nat, v: seq<nat>, s: nat, d: seq<nat>, e: seq<nat>, wild: Leaf, stream: nat,
                    sym: nat)
    requires |b| <= |v| && Feasible(b) && Ordered(b, v) && StartsWith(b, stream, sym)
    ensures var env := EnvOf(b, m, LeavesOf(b, v, s, d, e, wild));
      Complete(env) && Ref(env, stream) == Found(LeafFor(sym, s, d, e, wild), b[sym])
  {
    hide Complete, Ref, LeafOf, EnvOf, LeavesOf, LeafFor, OrderedTo, Ordered, Feasible, CodeOf, IsCode;
    SymbolLeaf(b, m, v, s, d, e, wild, sym);
    RefFinds(EnvOf(b, m, LeavesOf(b, v, s, d, e, wild)), stream, b[sym]);
  }

  /** A stream whose decoding is the p-th code, p a real symbol's position, starts with it. */
  lemma FoundSymbol(b: seq<nat>, stream: nat, k: nat) returns (sym: nat)
    requires Lengths(b) && IsCode(Counts(b), k, Rev(k, stream)) && k <= BMAX
    ensures StartsWith(b, stream, sym) && b[sym] == k
  {
    var c := Counts(b);
    sym := NthSymbol(b, |b|, k, Rev(k, stream) - First(c, k));
  }

  /** With a complete code every stream starts with exactly one symbol's code. */
  lemma ExactlyOne(b: seq<nat>, stream: nat) returns (sym: nat)
    requires Lengths(b) && NotAllZero(b) && Kraft(b, |b|) == Pow2(BMAX)
    ensures StartsWith(b, stream, sym)
    ensures forall t :: StartsWith(b, stream, t) ==> t == sym
  {
    var c := Counts(b);
    KraftMeaning(b);
    var g := MaxLen(c, BMAX);
    RevBound(g, stream);
    var k := SomeCode(c, stream, g);
    sym := FoundSymbol(b, stream, k);
    forall t | StartsWith(b, stream, t) ensures t == sym {
      AtMostOne(b, stream, sym, t);
    }
  }

  lemma {:induction false} SomeCode(c: seq<nat>, stream: nat, j: nat) returns (k: nat)
    requires 1 <= j < |c| && Rev(j, stream) < Used(c, j)
    ensures 1 <= k <= j && IsCode(c, k, Rev(k, stream))
  {
    if First(c, j) <= Rev(j, stream) {
      k := j;
    } else {
      NextPrefix(j - 1, stream);
      k := SomeCode(c, stream, j - 1);
    }
  }

  lemma AtMostOne(b: seq<nat>, stream: nat, s: nat, t: nat)
    requires Lengths(b) && StartsWith(b, stream, s) && StartsWith(b, stream, t)
    ensures s == t
  {
    SlotBound(b, s);
    SlotBound(b, t);
    PrefixFree(Counts(b), stream, b[s], b[t]);
    if s != t { SlotInjective(b, s, t); }
  }

  /** How many symbols have a code. */
  ghost function Coded(b: seq<nat>): nat {
    Off(Counts(b), BMAX + 1)
  }

  lemma CodedAndZero(b: seq<nat>)
    requires Lengths(b)
    ensures Coded(b) + CountTo(b, |b|, 0) == |b|
  {
    TotalCount(b, |b|);
    assert PrefixCounts(b, |b|) == Counts(b);
  }

  lemma SlotCoded(b: seq<nat>, s: nat)
    requires Lengths(b) && s < |b| && 1 <= b[s]
    ensures SlotOf(b, s) < Coded(b)
  {
    SlotBound(b, s);
    OffMonotone(Counts(b), b[s], BMAX + 1);
  }

  ghost predicate NoCodeHere(b: seq<nat>, stream: nat) {
    forall sym: nat :: !StartsWith(b, stream, sym)
  }

  /** The place in the value array that the entry for a pattern without a symbol is made from. */
  ghost function ExtraSlot(b: seq<nat>, stream: nat): int {
    var c := Counts(b);
    var g := MaxLen(c, BMAX);
    if g == 0 then 0 else Off(c, g) + (Rev(g, stream) - First(c, g))
  }

  /** Codes added by topping up have the greatest length and come after all symbols'. */
  lemma ExtraCode(b: seq<nat>, k: nat, code: nat)
    requires Feasible(b) && 1 <= k <= MaxLen(Counts(b), BMAX)
    requires IsCode(Topped(Counts(b)), k, code) && !IsCode(Counts(b), k, code)
    ensures k == MaxLen(Counts(b), BMAX)
    ensures Off(Topped(Counts(b)), k) + (code - First(Topped(Counts(b)), k))
      == Off(Counts(b), k) + (code - First(Counts(b), k)) >= Coded(b)
  {
    var c := Counts(b);
    var g := MaxLen(c, BMAX);
    ToppedAgrees(c, k);
    var k0 := CountsNotZero(b);
    MaxLenIs(c, BMAX, k0);
    OffAbove(c, g + 1, BMAX + 1);
  }

  /** A stream that starts with no symbol's code starts with a code added by topping up. */
  lemma ExtraStart(b: seq<nat>, stream: nat)
    requires Feasible(b) && NoCodeHere(b, stream)
    ensures var c := Counts(b); var g := MaxLen(c, BMAX);
      && 1 <= g && IsCode(Topped(c), g, Rev(g, stream)) && ExtraSlot(b, stream) >= Coded(b)
      && ExtraSlot(b, stream) == Off(Topped(c), g) + (Rev(g, stream) - First(Topped(c), g))
  {
    hide Kraft, Coded, StartsWith;
    KraftMeaning(b);
    var c := Counts(b);
    var g := MaxLen(c, BMAX);
    ToppedUsed(c);
    RevBound(g, stream);
    var k := SomeCode(Topped(c), stream, g);
    if IsCode(c, k, Rev(k, stream)) {
      var sym := FoundSymbol(b, stream, k);
    } else {
      ExtraCode(b, k, Rev(k, stream));
    }
  }

  lemma ToppedUsed(c: seq<nat>)
    requires |c| == BMAX + 1 && 1 <= MaxLen(c, BMAX) && Used(c, MaxLen(c, BMAX)) <= Pow2(MaxLen(c, BMAX))
    ensures Used(Topped(c), MaxLen(c, BMAX)) == Pow2(MaxLen(c, BMAX))
  {
    ToppedAgrees(c, MaxLen(c, BMAX));
  }

  /** Such a stream gives the entry of that code. */
  lemma NoSymbol(b: seq<nat>, m: nat, v: seq<nat>, s: nat, d: seq<nat>, e: seq<nat>, wild: Leaf, stream: nat)
    requires |b| <= |v| && Feasible(b) && Ordered(b, v) && NoCodeHere(b, stream)
    ensures var env := EnvOf(b, m, LeavesOf(b, v, s, d, e, wild));
      && Complete(env) && ExtraSlot(b, stream) >= Coded(b)
      && Ref(env, stream) == Found(EntryFor(v, |b|, s, d, e, wild, ExtraSlot(b, stream)), env.g)
  {
    hide Ref, SlowLength, Ordered, OrderedTo, Topped, NoCodeHere, Kraft, Coded, ExtraSlot, IsCode, Off, First;
    var env := EnvOf(b, m, LeavesOf(b, v, s, d, e, wild));
    EnvComplete(b, m, env.leaves);
    ExtraStart(b, stream);
    RefFinds(env, stream, env.g);
    LeafIsEntry(b, env, v, s, d, e, wild, env.g, Rev(env.g, stream));
  }

  lemma LeafIsEntry(b: seq<nat>, env: Env, v: seq<nat>, s: nat, d: seq<nat>, e: seq<nat>, wild: Leaf, k: nat, code: nat)
    requires |b| <= |v| && env.leaves == LeavesOf(b, v, s, d, e, wild) && Complete(env)
    requires IsCode(env.c, k, code) && k <= env.g
    ensures LeafOf(env, k, code) == EntryFor(v, |b|, s, d, e, wild, Off(env.c, k) + (code - First(env.c, k)))
  {
    hide Low, Shr, Rev, Pow2;
    OffMonotone(env.c, k, env.g + 1);
  }

  lemma {:induction false} NoZeros(b: seq<nat>, i: nat)
    requires i <= |b| && 0 !in b
    ensures CountTo(b, i, 0) == 0
  {
    if i > 0 { NoZeros(b, i - 1); }
  }

  lemma {:induction false} OffAbove(c: seq<nat>, k: nat, j: nat)
    requires 1 <= k <= j <= |c| && forall t :: k <= t < |c| ==> c[t] == 0
    ensures Off(c, k) == Off(c, j)
    decreases j
  {
    if k < j { OffAbove(c, k, j - 1); }
  }

  // ---- The construction

  method CountLengths(b: seq<nat>) returns (c: seq<nat>)
    requires Lengths(b)
    ensures c == Counts(b)
  {
    c := seq(BMAX + 1, _ => 0);
    var i := 0;
    while i < |b|
      invariant 0 <= i <= |b| && c == PrefixCounts(b, i)
    {
      c := c[b[i] := c[b[i]] + 1];
      i := i + 1;
    }
    assert PrefixCounts(b, |b|) == Counts(b);
  }

  /** Bit patterns left at the longest length g; negative as soon as a length has too many
      codes. */
  method PatternsLeft(c: seq<nat>, kmin: nat, g: nat) returns (y: int)
    requires |c| == BMAX + 1 && 1 <= kmin <= g <= BMAX && forall j :: 1 <= j < kmin ==> c[j] == 0
    ensures y >= 0 ==> y == Pow2(g) - Used(c, g)
    ensures y < 0 ==> Used(c, g) > Pow2(g)
  {
    FirstIsZero(c, kmin);
    var j := kmin;
    y := Pow2(j);
    while j < g
      invariant kmin <= j <= g && y == Pow2(j) - First(c, j)
    {
      y := y - c[j];
      if y < 0 {
        FirstAfterUsed(c, j, g);
        Pow2Add(j, g - j);
        ScaleCompare(Used(c, j), Pow2(j), Pow2(g - j));
        return;
      }
      j := j + 1;
      y := 2 * y;
    }
    y := y - c[g];
  }

  method Offsets(c: seq<nat>, g: nat) returns (x: seq<nat>)
    requires |c| == BMAX + 1 && 1 <= g <= BMAX
    ensures |x| == BMAX + 1 && forall t :: 1 <= t <= g ==> x[t] == Off(c, t)
  {
    x := seq(BMAX + 1, _ => 0);
    var i, j, t := g - 1, 0, 1;
    while i > 0
      invariant 0 <= i && t == g - i && j == Off(c, t) && |x| == BMAX + 1
      invariant forall t' :: 1 <= t' <= t ==> x[t'] == Off(c, t')
    {
      j := j + c[t];
      x := x[t + 1 := j];
      t, i := t + 1, i - 1;
    }
  }

  ghost predicate OrderedTo(b: seq<nat>, v: seq<nat>, i: nat) {
    i <= |b| <= |v| && Lengths(b) && forall sym :: 0 <= sym < i && b[sym] != 0 ==> Placed(b, v, sym)
  }

  lemma OrderStep(b: seq<nat>, v: seq<nat>, i: nat)
    requires i < |b| && b[i] != 0 && OrderedTo(b, v, i)
    ensures SlotOf(b, i) < |b| && OrderedTo(b, v[SlotOf(b, i) := i], i + 1)
  {
    SlotBound(b, i);
    var v' := v[SlotOf(b, i) := i];
    forall sym | 0 <= sym < i + 1 && b[sym] != 0 ensures Placed(b, v', sym) {
      if sym < i {
        SlotInjective(b, sym, i);
        assert Placed(b, v, sym);
      }
    }
  }

  /** Where the next symbol of each length goes. */
  ghost predicate NextSlots(b: seq<nat>, x: seq<nat>, i: nat)
    requires i <= |b|
  {
    |x| == BMAX + 1 &&
    forall t :: 1 <= t <= MaxLen(Counts(b), BMAX) ==> x[t] == Off(Counts(b), t) + CountTo(b, i, t)
  }

  lemma NextSlotsStep(b: seq<nat>, x: seq<nat>, i: nat)
    requires Lengths(b) && i < |b| && NextSlots(b, x, i)
    ensures b[i] == 0 ==> NextSlots(b, x, i + 1)
    ensures b[i] != 0 ==> x[b[i]] == SlotOf(b, i) && NextSlots(b, x[b[i] := x[b[i]] + 1], i + 1)
  {
    if b[i] != 0 {
      CountMonotone(b, i, |b|, b[i]);
      MaxLenIs(Counts(b), BMAX, b[i]);
    }
  }

  /** Symbols in order of code length: v[x[b[i]]++] = i. */
  method OrderValues(b: seq<nat>, x0: seq<nat>, v0: seq<nat>) returns (v: seq<nat>, x: seq<nat>)
    requires Lengths(b) && |b| <= |v0| && |x0| == BMAX + 1 && NextSlots(b, x0, 0)
    ensures |v| == |v0| && |x| == |x0| && OrderedTo(b, v, |b|)
    ensures forall p :: Coded(b) <= p < |v| ==> v[p] == v0[p]
  {
    hide SlotOf, Coded;
    hide NextSlots;
    hide OrderedTo;
    assert OrderedTo(b, v0, 0) by { StartOrder(b, v0); }
    v, x := v0, x0;
    var i := 0;
    while i < |b|
      invariant 0 <= i <= |b| && |v| == |v0| && |x| == |x0| == BMAX + 1
      invariant NextSlots(b, x, i) && OrderedTo(b, v, i)
      invariant forall p :: Coded(b) <= p < |v| ==> v[p] == v0[p]
    {
      var j := b[i];
      NextSlotsStep(b, x, i);
      SkipZero(b, v, i);
      if j != 0 {
        OrderStep(b, v, i);
        SlotCoded(b, i);
        v := v[x[j] := i];
        x := x[j := x[j] + 1];
      }
      i := i + 1;
    }
  }

  lemma StartOrder(b: seq<nat>, v: seq<nat>)
    requires Lengths(b) && |b| <= |v|
    ensures OrderedTo(b, v, 0)
  {
  }

  lemma SkipZero(b: seq<nat>, v: seq<nat>, i: nat)
    requires i < |b| && OrderedTo(b, v, i)
    ensures b[i] == 0 ==> OrderedTo(b, v, i + 1)
  {
  }

  /** No table below the root needs more than the root's index bits. */
  ghost predicate NarrowTables(b: seq<nat>, m: nat)
    requires Feasible(b)
  {
    var leaves := seq(Off(Topped(Counts(b)), MaxLen(Counts(b), BMAX) + 1), _ => Leaf(0, 0));
    EnvComplete(b, m, leaves);
    NoneTooWide(EnvOf(b, m, leaves))
  }

  lemma NarrowAnyLeaves(b: seq<nat>, m: nat, leaves: seq<Leaf>)
    requires Feasible(b) && |leaves| == Off(Topped(Counts(b)), MaxLen(Counts(b), BMAX) + 1)
    ensures Complete(EnvOf(b, m, leaves)) && (NarrowTables(b, m) <==> NoneTooWide(EnvOf(b, m, leaves)))
  {
    EnvComplete(b, m, leaves);
    var none := seq(|leaves|, _ => Leaf(0, 0));
    EnvComplete(b, m, none);
    var e1, e2 := EnvOf(b, m, leaves), EnvOf(b, m, none);
    assert forall k: nat, code: nat, h: nat :: Violates(e1, k, code, h) <==> Violates(e2, k, code, h);
  }

  /** The tables decode every symbol: a stream that starts with a symbol's code yields that
      symbol's entry and uses up exactly its bits. */
  ghost predicate DecodesSymbols(b: seq<nat>, l: nat, tabs: Tables, s: nat, d: seq<nat>, e: seq<nat>, wild: Leaf) {
    forall stream: nat, sym: nat :: StartsWith(b, stream, sym)
      ==> Walk(tabs, 0, l, 0, stream) == Found(LeafFor(sym, s, d, e, wild), b[sym])
  }

  /** Streams that start with no symbol's code yield the entry marked invalid. */
  ghost predicate RejectsOthers(b: seq<nat>, l: nat, tabs: Tables) {
    forall stream :: NoCodeHere(b, stream) ==> Invalid(Walk(tabs, 0, l, 0, stream))
  }

  /** Such streams yield the entry made from what is in the value array after the symbols: it
      is marked invalid from place |b| on, and before that it comes from a value never set. */
  ghost predicate AnswersOthers(b: seq<nat>, l: nat, tabs: Tables, s: nat, d: seq<nat>, e: seq<nat>, v0: seq<nat>,
                                wild: Leaf) {
    |b| <= |v0| && forall stream :: NoCodeHere(b, stream) ==>
      && ExtraSlot(b, stream) >= Coded(b)
      && Walk(tabs, 0, l, 0, stream)
        == Found(EntryFor(v0, |b|, s, d, e, wild, ExtraSlot(b, stream)), MaxLen(Counts(b), BMAX))
  }

  ghost predicate Invalid(found: Lookup) {
    found.Found? && found.leaf == Leaf(99, 0)
  }

  lemma TablesDecode(b: seq<nat>, m: nat, v: seq<nat>, s: nat, d: seq<nat>, e: seq<nat>, wild: Leaf, tabs: Tables,
                     v0: seq<nat>)
    requires Feasible(b) && Ordered(b, v) && |v0| == |v| && forall p :: Coded(b) <= p < |v| ==> v[p] == v0[p]
    requires var env := EnvOf(b, m, LeavesOf(b, v, s, d, e, wild)); Complete(env) && DecodesAll(env, tabs)
    ensures DecodesSymbols(b, RootBits(Counts(b), m), tabs, s, d, e, wild) && Total(tabs, RootBits(Counts(b), m))
    ensures AnswersOthers(b, RootBits(Counts(b), m), tabs, s, d, e, v0, wild)
  {
    var env := EnvOf(b, m, LeavesOf(b, v, s, d, e, wild));
    hide Walk, Ref, NoCodeHere, ExtraSlot, Coded, Feasible, EntryFor, LeavesOf, Ordered, Complete;
    forall stream: nat, sym: nat | StartsWith(b, stream, sym)
      ensures Walk(tabs, 0, env.l, 0, stream) == Found(LeafFor(sym, s, d, e, wild), b[sym])
    {
      SymbolFound(b, m, v, s, d, e, wild, stream, sym);
      assert Walk(tabs, 0, env.l, 0, stream) == Ref(env, stream);
    }
    OthersAnswered(b, m, v, s, d, e, wild, tabs, v0);
  }

  lemma OthersAnswered(b: seq<nat>, m: nat, v: seq<nat>, s: nat, d: seq<nat>, e: seq<nat>, wild: Leaf, tabs: Tables,
                       v0: seq<nat>)
    requires Feasible(b) && Ordered(b, v) && |v0| == |v| && forall p :: Coded(b) <= p < |v| ==> v[p] == v0[p]
    requires var env := EnvOf(b, m, LeavesOf(b, v, s, d, e, wild)); Complete(env) && DecodesAll(env, tabs)
    ensures AnswersOthers(b, RootBits(Counts(b), m), tabs, s, d, e, v0, wild)
  {
    hide *;
    OrderedFits(b, v);
    var env := EnvOf(b, m, LeavesOf(b, v, s, d, e, wild));
    EnvParts(b, m, LeavesOf(b, v, s, d, e, wild));
    forall stream | NoCodeHere(b, stream)
      ensures ExtraSlot(b, stream) >= Coded(b)
      ensures Walk(tabs, 0, env.l, 0, stream) == Found(EntryFor(v0, |b|, s, d, e, wild, ExtraSlot(b, stream)), env.g)
    {
      NoSymbol(b, m, v, s, d, e, wild, stream);
      WalkIsRef(env, tabs, stream);
      SameEntry(v, v0, |b|, s, d, e, wild, ExtraSlot(b, stream));
    }
    AreAnswered(b, env.l, tabs, s, d, e, v0, wild);
  }

  lemma OrderedFits(b: seq<nat>, v: seq<nat>)
    requires Ordered(b, v)
    ensures |b| <= |v|
  {
  }

  lemma EnvParts(b: seq<nat>, m: nat, leaves: seq<Leaf>)
    ensures var env := EnvOf(b, m, leaves); env.l == RootBits(Counts(b), m) && env.g == MaxLen(Counts(b), BMAX)
  {
  }

  lemma WalkIsRef(env: Env, tabs: Tables, stream: nat)
    requires Complete(env) && DecodesAll(env, tabs)
    ensures Walk(tabs, 0, env.l, 0, stream) == Ref(env, stream)
  {
  }

  lemma SameEntry(v: seq<nat>, v0: seq<nat>, n: nat, s: nat, d: seq<nat>, e: seq<nat>, wild: Leaf, p: nat)
    requires n <= |v| == |v0| && (p < |v| ==> v[p] == v0[p])
    ensures EntryFor(v, n, s, d, e, wild, p) == EntryFor(v0, n, s, d, e, wild, p)
  {
  }

  lemma AreAnswered(b: seq<nat>, l: nat, tabs: Tables, s: nat, d: seq<nat>, e: seq<nat>, v0: seq<nat>, wild: Leaf)
    requires |b| <= |v0|
    requires forall stream :: NoCodeHere(b, stream) ==>
      && ExtraSlot(b, stream) >= Coded(b)
      && Walk(tabs, 0, l, 0, stream)
           == Found(EntryFor(v0, |b|, s, d, e, wild, ExtraSlot(b, stream)), MaxLen(Counts(b), BMAX))
    ensures AnswersOthers(b, l, tabs, s, d, e, v0, wild)
  {
    hide NoCodeHere, ExtraSlot, Coded, Walk, EntryFor, MaxLen;
  }

  /** Without zero lengths, or with a complete code, all other streams are marked invalid. */
  lemma Rejects(b: seq<nat>, l: nat, tabs: Tables, s: nat, d: seq<nat>, e: seq<nat>, v0: seq<nat>, wild: Leaf)
    requires Feasible(b) && AnswersOthers(b, l, tabs, s, d, e, v0, wild) && (Kraft(b, |b|) == Pow2(BMAX) || 0 !in b)
    ensures RejectsOthers(b, l, tabs)
  {
    hide Walk, Kraft, Pow2, ExtraSlot, Coded;
    forall stream | NoCodeHere(b, stream) ensures Invalid(Walk(tabs, 0, l, 0, stream)) {
      if 0 in b {
        var sym := ExactlyOne(b, stream);
        assert false;
      }
      NoZeros(b, |b|);
      CodedAndZero(b);
    }
  }

  /** A pattern that belongs to no symbol, and the first place after the symbols. */
  lemma FirstExtra(b: seq<nat>) returns (stream: nat)
    requires Feasible(b) && Kraft(b, |b|) != Pow2(BMAX)
    ensures NoCodeHere(b, stream) && ExtraSlot(b, stream) == Coded(b)
  {
    hide Kraft;
    var c := Counts(b);
    KraftMeaning(b);
    var g := MaxLen(c, BMAX);
    MaxLenIs(c, BMAX, g);
    stream := Rev(g, Used(c, g));
    RevRev(g, Used(c, g));
    forall sym: nat ensures !StartsWith(b, stream, sym) {
      if StartsWith(b, stream, sym) {
        NotThisOne(b, stream, sym);
      }
    }
    OffAbove(c, g + 1, BMAX + 1);
  }

  lemma NotThisOne(b: seq<nat>, stream: nat, sym: nat)
    requires Feasible(b) && StartsWith(b, stream, sym)
    ensures var c := Counts(b); var g := MaxLen(c, BMAX); 1 <= g && Rev(g, stream) < Used(c, g)
  {
    var c := Counts(b);
    SlotBound(b, sym);
    MaxLenIs(c, BMAX, b[sym]);
    var g := MaxLen(c, BMAX);
    if b[sym] < g {
      LongerIsLater(c, stream, b[sym], g);
    }
  }

  /** Whatever the value array held, every pattern without a symbol is marked invalid, if and
      only if there is no such pattern or no symbol without a code. */
  lemma RejectsIff(b: seq<nat>, s: nat, d: seq<nat>, e: seq<nat>)
    requires Feasible(b) && |b| <= N_MAX
    ensures (forall v0: seq<nat>, wild: Leaf, stream: nat :: |v0| == N_MAX && NoCodeHere(b, stream) ==>
      ExtraEntry(b, s, d, e, v0, wild, stream) == Leaf(99, 0))
      <==> Kraft(b, |b|) == Pow2(BMAX) || 0 !in b
  {
    hide Kraft, Pow2, ExtraSlot, Coded, StartsWith;
    CodedAndZero(b);
    if Kraft(b, |b|) == Pow2(BMAX) || 0 !in b {
      forall v0: seq<nat>, wild: Leaf, stream: nat | |v0| == N_MAX && NoCodeHere(b, stream)
        ensures ExtraEntry(b, s, d, e, v0, wild, stream) == Leaf(99, 0)
      {
        if 0 in b {
          var sym := ExactlyOne(b, stream);
          assert false;
        }
        NoZeros(b, |b|);
        ExtraStart(b, stream);
      }
    } else {
      var stream := FirstExtra(b);
      SomeZero(b);
      var v0 := seq(N_MAX, _ => s + |d|);
      assert ExtraEntry(b, s, d, e, v0, Leaf(16, 0), stream) == Leaf(16, 0);
    }
  }

  /** The entry that a pattern without a symbol gets. */
  ghost function ExtraEntry(b: seq<nat>, s: nat, d: seq<nat>, e: seq<nat>, v0: seq<nat>, wild: Leaf, stream: nat): Leaf
    requires |b| <= |v0|
  {
    if ExtraSlot(b, stream) < 0 then Leaf(99, 0) else EntryFor(v0, |b|, s, d, e, wild, ExtraSlot(b, stream))
  }

  lemma SomeZero(b: seq<nat>)
    requires Lengths(b) && 0 in b
    ensures CountTo(b, |b|, 0) > 0
  {
    var i :| 0 <= i < |b| && b[i] == 0;
    CountMonotone(b, i, |b|, 0);
  }

  /** The smallest case: one symbol without a code, one with a code of one bit. */
  lemma JunkExample()
    ensures var b := [0, 1];
      Feasible(b) && Kraft(b, |b|) < Pow2(BMAX) && NoCodeHere(b, 1) && ExtraSlot(b, 1) == 1 < |b|
    ensures forall s: nat, d, e, v0: seq<nat>, wild :: |v0| >= 2 ==>
      ExtraEntry([0, 1], s, d, e, v0, wild, 1) == LeafFor(v0[1], s, d, e, wild)
  {
    hide MaxLen, Counts, Kraft, Pow2;
    JunkCounts();
    JunkKraft();
    assert Rev(1, 1) == 1 by { OneReversed(); }
    assert First(Counts([0, 1]), 1) == 0 && Off(Counts([0, 1]), 1) == 0;
    assert [0, 1][1] == 1;
    assert CountTo([0, 1], 1, 1) == CountTo([0, 1], 0, 1) == 0;
  }

  lemma OneReversed()
    ensures Rev(1, 1) == 1
  {
  }

  lemma JunkCounts()
    ensures MaxLen(Counts([0, 1]), BMAX) == 1
  {
    var b := [0, 1];
    var c := Counts(b);
    forall k: nat | 1 <= k <= BMAX ensures c[k] == if k == 1 then 1 else 0 {
      assert CountTo(b, 1, k) == CountTo(b, 0, k) == 0;
      assert c[k] == CountTo(b, 2, k) == CountTo(b, 1, k) + if b[1] == k then 1 else 0;
    }
    MaxLenIs(c, BMAX, 1);
  }

  lemma JunkKraft()
    ensures Lengths([0, 1]) && Kraft([0, 1], 2) < Pow2(BMAX)
  {
    var b := [0, 1];
    assert Kraft(b, 2) == Kraft(b, 1) + Pow2(BMAX - 1) && Kraft(b, 1) == Kraft(b, 0) == 0;
    assert Pow2(BMAX) == 2 * Pow2(BMAX - 1);
  }

  /** huft_build. `v0` is the uninitialised value array, `wild` what an out-of-bounds read of
      the lists gives; memory failure is not modelled. */
  method HuftBuild(b: seq<nat>, s: nat, d: seq<nat>, e: seq<nat>, m: nat, v0: seq<nat>, wild: Leaf)
    returns (r: nat, tabs: Tables, l: nat, ghost lost: nat)
    requires 1 <= |b| <= N_MAX == |v0| && Lengths(b)
    ensures !NotAllZero(b) ==> r == 0 && tabs == [] && l == 0
    ensures NotAllZero(b) ==> (r == 2 <==> Kraft(b, |b|) > Pow2(BMAX))
    ensures NotAllZero(b) ==> (r == 1 <==> Kraft(b, |b|) < Pow2(BMAX) && exists j :: 0 <= j < |b| && b[j] > 1)
    ensures r == 0 || r == 1 || r == 2
    ensures Feasible(b) ==> l == RootBits(Counts(b), m)
    ensures Feasible(b) && NarrowTables(b, m) ==> DecodesSymbols(b, l, tabs, s, d, e, wild) && Total(tabs, l)
    ensures Sized(l, MaxLen(Counts(b), BMAX), tabs)
    ensures Feasible(b) && NarrowTables(b, m) ==> AnswersOthers(b, l, tabs, s, d, e, v0, wild)
    ensures Feasible(b) && NarrowTables(b, m) && (Kraft(b, |b|) == Pow2(BMAX) || 0 !in b) ==> RejectsOthers(b, l, tabs)
    ensures Feasible(b) && !NarrowTables(b, m) ==> Walk(tabs, 0, l, 0, lost) == Stray
    ensures Feasible(b) && !NarrowTables(b, m) && Kraft(b, |b|) == Pow2(BMAX) ==>
      exists sym: nat :: StartsWith(b, lost, sym)
  {
    hide *;
    tabs, lost := [], 0;
    assert forall l': nat, g': nat :: Sized(l', g', []) by { NoTables(); }
    var c := CountLengths(b);
    AllZero(b);
    FeasibleIff(b);
    if c[0] == |b| {
      return 0, [], 0, 0;
    }
    LengthFacts(b, m);
    var kmin, g := MinLen(c, 1), MaxLen(c, BMAX);
    l := RootBits(c, m);
    var y := PatternsLeft(c, kmin, g);
    if y < 0 {
      return 2, [], l, 0;
    }
    tabs, lost := FillTables(b, c, kmin, g, l, y, s, d, e, m, v0, wild);
    r := if y != 0 && g != 1 then 1 else 0;
  }

  lemma NoTables()
    ensures forall l: nat, g: nat :: Sized(l, g, [])
  {
  }

  lemma FeasibleIff(b: seq<nat>)
    requires Lengths(b)
    ensures Feasible(b) <==> NotAllZero(b) && Kraft(b, |b|) <= Pow2(BMAX)
  {
  }

  /** The part after the lengths have been found not to oversubscribe. */
  method FillTables(b: seq<nat>, c: seq<nat>, kmin: nat, g: nat, l: nat, y: nat,
                    s: nat, d: seq<nat>, e: seq<nat>, m: nat, v0: seq<nat>, wild: Leaf)
    returns (tabs: Tables, ghost lost: nat)
    requires Feasible(b) && |b| <= |v0| && c == Counts(b)
    requires kmin == MinLen(c, 1) && g == MaxLen(c, BMAX) >= 1 && l == RootBits(c, m) && y == Pow2(g) - Used(c, g)
    ensures NarrowTables(b, m) ==> DecodesSymbols(b, l, tabs, s, d, e, wild) && Total(tabs, l)
    ensures Sized(l, g, tabs)
    ensures NarrowTables(b, m) ==> AnswersOthers(b, l, tabs, s, d, e, v0, wild)
    ensures NarrowTables(b, m) && (Kraft(b, |b|) == Pow2(BMAX) || 0 !in b) ==> RejectsOthers(b, l, tabs)
    ensures !NarrowTables(b, m) ==> Walk(tabs, 0, l, 0, lost) == Stray
    ensures !NarrowTables(b, m) && Kraft(b, |b|) == Pow2(BMAX) ==> exists sym: nat :: StartsWith(b, lost, sym)
  {
    hide AnswersOthers, StartsWith, Coded, NoneTooWide, DecodesAll, DecodesSymbols, RejectsOthers, NarrowTables, Walk;
    hide Kraft, OrderedTo, NextSlots, Total, Sized, CountTo, MinLen, MaxLen, Pow2;
    var c' := c[g := c[g] + y];
    assert c' == Topped(c);
    var x := Offsets(c', g);
    SlotsStart(b, x);
    var v;
    v, x := OrderValues(b, x, v0);
    ghost var env := EnvOf(b, m, LeavesOf(b, v, s, d, e, wild));
    EnvComplete(b, m, env.leaves);
    tabs, lost := AssignCodes(c', g, l, kmin, x, v, |b|, s, d, e, wild, env);
    NarrowAnyLeaves(b, m, env.leaves);
    if NarrowTables(b, m) {
      TablesDecode(b, m, v, s, d, e, wild, tabs, v0);
      if Kraft(b, |b|) == Pow2(BMAX) || 0 !in b {
        Rejects(b, l, tabs, s, d, e, v0, wild);
      }
    } else if Kraft(b, |b|) == Pow2(BMAX) {
      var sym := ExactlyOne(b, lost);
    }
  }

  lemma SlotsStart(b: seq<nat>, x: seq<nat>)
    requires |x| == BMAX + 1
    requires forall t :: 1 <= t <= MaxLen(Counts(b), BMAX) ==> x[t] == Off(Topped(Counts(b)), t)
    ensures NextSlots(b, x, 0)
  {
    var c := Counts(b);
    forall t | 1 <= t <= MaxLen(c, BMAX) ensures x[t] == Off(c, t) + CountTo(b, 0, t) {
      ToppedAgrees(c, t);
    }
  }

  lemma LengthFacts(b: seq<nat>, m: nat)
    requires Lengths(b) && NotAllZero(b)
    ensures var c := Counts(b);
      var g := MaxLen(c, BMAX);
      && |c| == BMAX + 1 && 1 <= MinLen(c, 1) <= g <= BMAX
      && (forall j :: 1 <= j < MinLen(c, 1) ==> c[j] == 0)
      && (Kraft(b, |b|) <= Pow2(BMAX) <==> Used(c, g) <= Pow2(g))
      && (Kraft(b, |b|) == Pow2(BMAX) <==> Used(c, g) == Pow2(g))
      && (g != 1 <==> exists j :: 0 <= j < |b| && b[j] > 1)
  {
    var c := Counts(b);
    var k := CountsNotZero(b);
    MinLenIs(c, 1, k);
    MaxLenIs(c, BMAX, k);
    KraftMeaning(b);
    LongestIs(b);
  }

  lemma AllZero(b: seq<nat>)
    requires Lengths(b)
    ensures Counts(b)[0] == |b| <==> !NotAllZero(b)
  {
    TotalCount(b, |b|);
    assert PrefixCounts(b, |b|) == Counts(b);
    if NotAllZero(b) {
      var k := CountsNotZero(b);
      OffMonotone(Counts(b), k, BMAX + 1);
    } else {
      OnlyZeros(b, |b|);
    }
  }

  lemma {:induction false} OnlyZeros(b: seq<nat>, i: nat)
    requires i <= |b| && !NotAllZero(b)
    ensures CountTo(b, i, 0) == i
  {
    if i > 0 { OnlyZeros(b, i - 1); }
  }

  /** MaxLen of the counts is the greatest length. */
  lemma LongestIs(b: seq<nat>)
    requires Lengths(b) && NotAllZero(b)
    ensures forall j :: 0 <= j < |b| ==> b[j] <= MaxLen(Counts(b), BMAX)
    ensures exists j :: 0 <= j < |b| && b[j] == MaxLen(Counts(b), BMAX) >= 1
  {
    var c := Counts(b);
    var k := CountsNotZero(b);
    MaxLenIs(c, BMAX, k);
    forall j | 0 <= j < |b| ensures b[j] <= MaxLen(c, BMAX) {
      if b[j] > 0 {
        CountMonotone(b, j, |b|, b[j]);
        MaxLenIs(c, BMAX, b[j]);
      }
    }
    var j := NthSymbol(b, |b|, MaxLen(c, BMAX), 0);
  }

  // ---- When tables stay narrow

  /** From a node's first code on there are at least as many codes as patterns at its length. */
  lemma {:induction false} NodeNeedsCodes(env: Env, w: nat, k: nat, code: nat, j: nat) returns (left: int)
    requires Complete(env) && w < k <= j <= env.g && IsCode(env.c, k, code) && Low(code, k - w) == 0
    ensures left == (Shr(code, k - w) + 1) * Pow2(j - w) - Used(env.c, j)
    ensures (Used(env.c, k) - code) + (Off(env.c, j + 1) - Off(env.c, k + 1))
      + (if left > 0 then left else 0) >= Pow2(k - w)
    decreases j
  {
    var base := Shr(code, k - w) + 1;
    if j == k {
      StartOfNode(code, k - w);
      DoubledIs(base, k - w);
      left := base * Pow2(j - w) - Used(env.c, j);
    } else {
      var before := NodeNeedsCodes(env, w, k, code, j - 1);
      Assoc(base, 2, Pow2(j - 1 - w));
      Assoc(2, base, Pow2(j - 1 - w));
      left := base * Pow2(j - w) - Used(env.c, j);
    }
  }

  /** A table grows too wide only if the code has 2^l symbols or more. */
  lemma TooWideNeedsCodes(env: Env, k: nat, code: nat, h: nat)
    requires Complete(env) && Violates(env, k, code, h)
    ensures Off(env.c, env.g + 1) >= Pow2(env.l)
  {
    hide Low, Pow2, Used, IsCode, Complete, Off;
    assert k - h * env.l >= env.l;
    FirstBelowNeedsCodes(env, h * env.l, k, code);
  }

  lemma FirstBelowNeedsCodes(env: Env, w: nat, k: nat, code: nat)
    requires Complete(env) && w < k <= env.g && IsCode(env.c, k, code) && Low(code, k - w) == 0 && k - w >= env.l
    ensures Off(env.c, env.g + 1) >= Pow2(env.l)
  {
    hide Low, Shr, Rev, Pow2;
    var left := NodeNeedsCodes(env, w, k, code, env.g);
    UsedBound(env, k);
    NodeWithin(env.g, w, k, code);
    Pow2Monotone(env.l, k - w);
    CodesUpTo(env.c, k, env.g, code);
  }

  lemma NodeWithin(g: nat, w: nat, k: nat, code: nat)
    requires w <= k <= g && code < Pow2(k)
    ensures (Shr(code, k - w) + 1) * Pow2(g - w) <= Pow2(g)
  {
    ShrBound(code, k - w, w);
    Pow2Add(w, g - w);
    MulMonotone(Shr(code, k - w) + 1, Pow2(w), Pow2(g - w));
  }

  lemma CodesUpTo(c: seq<nat>, k: nat, g: nat, code: nat)
    requires 1 <= k <= g < |c| && IsCode(c, k, code)
    ensures (Used(c, k) - code) + (Off(c, g + 1) - Off(c, k + 1)) <= Off(c, g + 1)
  {
  }

  lemma CompleteTotal(b: seq<nat>)
    requires Feasible(b) && Kraft(b, |b|) == Pow2(BMAX)
    ensures Off(Topped(Counts(b)), MaxLen(Counts(b), BMAX) + 1) <= |b|
  {
    hide Low, Shr, Rev, Pow2;
    var c := Counts(b);
    KraftMeaning(b);
    assert Topped(c) == c;
    var k := CountsNotZero(b);
    MaxLenIs(c, BMAX, k);
    OffAbove(c, MaxLen(c, BMAX) + 1, BMAX + 1);
    TotalCount(b, |b|);
    assert PrefixCounts(b, |b|) == c;
  }

  /** Fewer symbols than root entries: the tables are always narrow enough. */
  lemma FewSymbolsNarrow(b: seq<nat>, m: nat)
    requires Feasible(b) && Kraft(b, |b|) == Pow2(BMAX) && |b| < Pow2(m)
    ensures NarrowTables(b, m)
  {
    hide Kraft;
    var c := Counts(b);
    var leaves := seq(Off(Topped(c), MaxLen(c, BMAX) + 1), _ => Leaf(0, 0));
    EnvComplete(b, m, leaves);
    var env := EnvOf(b, m, leaves);
    forall k: nat, code: nat, h: nat ensures !Violates(env, k, code, h) {
      if Violates(env, k, code, h) {
        MulMonotone(1, h, env.l);
        assert env.l < env.g;
        TooWideNeedsCodes(env, k, code, h);
        Pow2Monotone(m, env.l);
        CompleteTotal(b);
      }
    }
  }

  /** Codes shorter than twice the root index bits: one level of subtables suffices. */
  lemma ShortCodesNarrow(b: seq<nat>, m: nat)
    requires Feasible(b) && MaxLen(Counts(b), BMAX) < 2 * RootBits(Counts(b), m)
    ensures NarrowTables(b, m)
  {
    var c := Counts(b);
    var leaves := seq(Off(Topped(c), MaxLen(c, BMAX) + 1), _ => Leaf(0, 0));
    EnvComplete(b, m, leaves);
    var env := EnvOf(b, m, leaves);
    forall k: nat, code: nat, h: nat ensures !Violates(env, k, code, h) {
      if Violates(env, k, code, h) {
        MulMonotone(1, h, env.l);
      }
    }
  }

  /** Eight symbols, a complete code, two root bits: one table below the root is too wide. */
  lemma WideExample()
    ensures var b := [2, 2, 2, 4, 4, 4, 5, 5];
      Feasible(b) && Kraft(b, |b|) == Pow2(BMAX) && !NarrowTables(b, 2)
  {
    hide Kraft, NoneTooWide, Violates, CountTo, MinLen, MaxLen, Complete;
    var b: seq<nat> := [2, 2, 2, 4, 4, 4, 5, 5];
    ExampleKraft(b);
    assert b[0] != 0;
    ExampleCounts(b);
    var leaves := seq(Off(Topped(Counts(b)), MaxLen(Counts(b), BMAX) + 1), _ => Leaf(0, 0));
    EnvComplete(b, 2, leaves);
    assert Feasible(b);
    ExampleTooWide(Counts(b), EnvOf(b, 2, leaves));
  }

  lemma ExampleTooWide(c: seq<nat>, env: Env)
    requires |c| == BMAX + 1 && Complete(env)
    requires forall k :: 0 <= k <= BMAX ==> c[k] == if k == 2 then 3 else if k == 4 then 3 else if k == 5 then 2 else 0
    requires env.c == Topped(c) && env.g == MaxLen(c, BMAX) && env.l == RootBits(c, 2)
    ensures !NoneTooWide(env)
  {
    hide NoneTooWide, Topped, MaxLen, MinLen;
    MaxLenIs(c, BMAX, 5);
    MinLenIs(c, 1, 2);
    ToppedAgrees(c, 4);
    assert First(c, 2) == 0 && First(c, 3) == 6 && First(c, 4) == 12;
    assert env.c[4] == c[4] by { ToppedAgrees(c, 5); assert First(env.c, 5) == First(c, 5); }
    assert Pow2(2) == 4 && Low(12, 2) == 0;
    ExampleViolates(env);
  }

  lemma ExampleViolates(env: Env)
    requires Complete(env) && env.l == 2 && env.g == 5 && First(env.c, 4) == 12 && env.c[4] == 3
    ensures !NoneTooWide(env)
  {
    assert Pow2(2) == 4 && Low(12, 2) == 0;
    assert Violates(env, 4, 12, 1);
  }

  lemma ExampleKraft(b: seq<nat>)
    requires b == [2, 2, 2, 4, 4, 4, 5, 5]
    ensures Kraft(b, |b|) == Pow2(BMAX) == 65536
  {
    Powers();
    assert Kraft(b, 3) == 49152 by { assert Kraft(b, 1) == 16384; }
    assert Kraft(b, 6) == 61440 by { assert Kraft(b, 4) == 53248; assert Kraft(b, 5) == 57344; }
    assert Kraft(b, 7) == 63488;
  }

  lemma Powers()
    ensures Pow2(16) == 65536 && Pow2(14) == 16384 && Pow2(12) == 4096 && Pow2(11) == 2048
  {
    assert Pow2(4) == 16 && Pow2(8) == 256 by { Pow2Add(4, 4); }
    Pow2Add(8, 8);
    Pow2Add(8, 4);
    assert Pow2(14) == 4 * Pow2(12);
  }

  lemma ExampleCounts(b: seq<nat>)
    requires b == [2, 2, 2, 4, 4, 4, 5, 5]
    ensures forall k :: 0 <= k <= BMAX ==>
      Counts(b)[k] == if k == 2 then 3 else if k == 4 then 3 else if k == 5 then 2 else 0
  {
    forall k: nat | k <= BMAX
      ensures CountTo(b, 8, k) == if k == 2 then 3 else if k == 4 then 3 else if k == 5 then 2 else 0
    {
      assert CountTo(b, 0, k) == 0;
      assert CountTo(b, 1, k) == if k == 2 then 1 else 0;
      assert CountTo(b, 2, k) == if k == 2 then 2 else 0;
      assert CountTo(b, 4, k) == if k == 2 then 3 else if k == 4 then 1 else 0;
      assert CountTo(b, 6, k) == if k == 2 then 3 else if k == 4 then 3 else 0;
    }
  }
}
