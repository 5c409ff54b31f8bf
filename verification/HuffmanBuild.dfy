/** Table construction itself: the loops of huft_build. */
module HuffmanBuild {
  import opened Bits
  import opened Canonical
  import opened HuffmanTables
  import opened HuffmanSteps

  /** A table opened for this code would get more than l index bits. */
  ghost predicate TooWide(c: seq<nat>, l: nat, k: nat, w: nat, code: nat)
    requires 1 <= k < |c| && w <= k
  {
    k - w > l || (k - w == l && code + Pow2(l) > Used(c, k))
  }

  /** `code`, the first one below an h-th level table, makes that table too wide. */
  ghost predicate Violates(env: Env, k: nat, code: nat, h: nat)
    requires Complete(env)
  {
    && 1 <= h && h * env.l < k <= env.g && IsCode(env.c, k, code)
    && Low(code, k - h * env.l) == 0 && TooWide(env.c, env.l, k, h * env.l, code)
  }

  ghost predicate NoneTooWide(env: Env)
    requires Complete(env)
  {
    forall k, code, h :: !Violates(env, k, code, h)
  }

  ghost predicate NoneBefore(env: Env, k: nat, code: nat)
    requires Complete(env)
  {
    forall k': nat, code': nat, h :: k' < k || (k' == k && code' < code) ==> !Violates(env, k', code', h)
  }

  // ---- Choosing the size of a new table

  lemma NotFullEarly(env: Env, j: nat)
    requires Complete(env) && 1 <= j < env.g
    ensures Used(env.c, j) < Pow2(j)
  {
    if Used(env.c, j) >= Pow2(j) {
      FirstAfterUsed(env.c, j, env.g);
      MulMonotone(Pow2(j), Used(env.c, j), Pow2(env.g - j));
      Pow2Add(j, env.g - j);
    }
  }

  /** At the greatest length a node is always filled by the codes of that length. */
  lemma LastLengthFills(env: Env, w: nat, code: nat)
    requires Complete(env) && w < env.g && IsCode(env.c, env.g, code) && Low(code, env.g - w) == 0
    ensures code + Pow2(env.g - w) <= Used(env.c, env.g)
  {
    var d := env.g - w;
    ShrLow(code, d);
    ShrBound(code, d, w);
    MulMonotone(Shr(code, d) + 1, Pow2(w), Pow2(d));
    Distribute(Shr(code, d), 1, Pow2(d));
    Pow2Add(w, d);
  }

  lemma TooWideOverflows(env: Env, k: nat, w: nat, code: nat)
    requires Complete(env) && w < k <= env.g && IsCode(env.c, k, code) && Low(code, k - w) == 0
    requires TooWide(env.c, env.l, k, w, code)
    ensures w + env.l < env.g
    ensures Used(env.c, w + env.l) < (Shr(code, k - w) + 1) * Pow2(env.l)
  {
    hide Low, Shr, Rev, Pow2;
    var l, base := env.l, Shr(code, k - w);
    ShrLow(code, k - w);
    Distribute(base, 1, Pow2(l));
    if k - w == l {
      if k == env.g { LastLengthFills(env, w, code); }
    } else {
      FirstAfterUsed(env.c, w + l, k);
      Pow2Add(l, k - w - l);
      Cancel(Used(env.c, w + l), base, Pow2(l), Pow2(k - w - l));
    }
  }

  lemma Cancel(u: nat, b: nat, p: nat, q: nat)
    requires q > 0 && u * q <= b * (p * q)
    ensures u <= b * p
  {
    Assoc(b, p, q);
    if u > b * p {
      MulMonotone(b * p + 1, u, q);
      Distribute(b * p, 1, q);
    }
  }

  /** b * 2^n, by doubling. */
  ghost function Doubled(b: nat, n: nat): nat {
    if n == 0 then b else 2 * Doubled(b, n - 1)
  }

  lemma {:induction false} DoubledIs(b: nat, n: nat)
    ensures Doubled(b, n) == b * Pow2(n)
  {
    if n > 0 {
      DoubledIs(b, n - 1);
      Assoc(b, 2, Pow2(n - 1));
      Assoc(2, b, Pow2(n - 1));
    }
  }

  lemma StartOfNode(code: nat, d: nat)
    requires Low(code, d) == 0
    ensures Doubled(Shr(code, d) + 1, d) == code + Pow2(d)
  {
    ShrLow(code, d);
    DoubledIs(Shr(code, d) + 1, d);
    Distribute(Shr(code, d), 1, Pow2(d));
  }

  /** The index bits n suit a table for the node, w bits deep, that `code` is first below:
      every code below fits, unless n is l; and n exceeds l only when it must. */
  ghost predicate SizeOk(env: Env, k: nat, w: nat, code: nat, n: nat)
    requires Complete(env) && 1 <= k <= env.g && w <= k
  {
    && n >= 1 && w + n <= env.g && (n > env.l <==> TooWide(env.c, env.l, k, w, code))
    && (n <= env.l ==> n == env.l || w + n >= env.g || Used(env.c, w + n) >= Doubled(Shr(code, k - w) + 1, n))
  }

  method ChooseBits(c: seq<nat>, g: nat, l: nat, k: nat, w: nat, a: nat, ghost env: Env, ghost code: nat)
    returns (j: nat)
    requires Complete(env) && c == env.c && g == env.g && l == env.l
    requires w < k <= g && IsCode(c, k, code) && a + 1 == Used(c, k) - code && Low(code, k - w) == 0
    ensures SizeOk(env, k, w, code, j)
  {
    hide Low, Shr, Pow2, Off, IsCode;
    ghost var base := Shr(code, k - w);
    StartOfNode(code, k - w);
    var z := if g - w > l then l else g - w;
    j := k - w;
    var f := Pow2(j);
    if f > a + 1 {
      if k == g { LastLengthFills(env, w, code); }
      f := f - (a + 1);
      var xp := k;
      j := j + 1;
      while j < z
        invariant k - w < j && xp == w + j - 1 && (j <= z || j == k - w + 1)
        invariant f > 0 && f + Used(c, xp) == Doubled(base + 1, j - 1)
      {
        f := 2 * f;
        xp := xp + 1;
        if f <= c[xp] {
          break;
        }
        f := f - c[xp];
        j := j + 1;
      }
    }
  }

  // ---- Filling the slots of a code

  method FillSlots(q: seq<Entry>, z: nat, start: nat, n: nat, r: Entry) returns (q': seq<Entry>)
    requires z == |q| && start < Pow2(n)
    ensures |q'| == |q|
    ensures forall j :: 0 <= j < |q| ==> q'[j] == if Low(j, n) == start then r else q[j]
  {
    hide Low, Pow2;
    q' := q;
    var j := start;
    ghost var m: nat := 0;
    FirstSlot(start, n);
    while j < z
      invariant j == start + m * Pow2(n) && |q'| == |q|
      invariant forall x :: 0 <= x < |q| ==> q'[x] == if x < j && Low(x, n) == start then r else q[x]
    {
      NextSlot(start, n, m, j);
      q' := q'[j := r];
      j := j + Pow2(n);
      m := m + 1;
    }
  }

  lemma FirstSlot(start: nat, n: nat)
    requires start < Pow2(n)
    ensures forall x :: 0 <= x < start ==> Low(x, n) != start
  {
    forall x: nat | x < start ensures Low(x, n) != start { LowSmall(x, n); }
  }

  /** From one slot of a code to its next. */
  lemma NextSlot(start: nat, n: nat, m: nat, j: nat)
    requires start < Pow2(n) && j == start + m * Pow2(n)
    ensures Low(j, n) == start && j + Pow2(n) == start + (m + 1) * Pow2(n)
    ensures forall x :: j < x < j + Pow2(n) ==> Low(x, n) != start
  {
    SameResidue(j, start, Pow2(n), m);
    Distribute(m, 1, Pow2(n));
    forall x | j < x < j + Pow2(n) ensures Low(x, n) != start {
      OtherResidue(x, j, start, Pow2(n), m);
    }
  }

  lemma SameResidue(x: nat, start: nat, step: nat, m: nat)
    requires start < step && x == start + m * step
    ensures x % step == start
  {
    DivModUnique(x, step, m, start);
  }

  lemma OtherResidue(x: nat, j: nat, start: nat, step: nat, m: nat)
    requires start < step && j == start + m * step && j < x < j + step
    ensures x % step != start
  {
    if x - j + start < step {
      DivModUnique(x, step, m, x - j + start);
    } else {
      Distribute(m, 1, step);
      DivModUnique(x, step, m + 1, x - j + start - step);
    }
  }

  // ---- Adding one to a reversed code

  /** i & j, for j a power of two. */
  predicate Bit(i: nat, j: nat)
    requires j > 0
  {
    i / j % 2 == 1
  }

  lemma TopBit(t: nat, hi: nat)
    requires t > 0
    ensures Bit(Rev(t, hi), Pow2(t - 1)) <==> hi % 2 == 1
  {
    RevBound(t - 1, hi / 2);
    BitOnTop(Pow2(t - 1), hi % 2, Rev(t - 1, hi / 2));
  }

  lemma BitOnTop(p: nat, bit: nat, r: nat)
    requires r < p && bit < 2
    ensures Bit((if bit == 1 then p else 0) + r, p) <==> bit == 1
  {
    DivModUnique((if bit == 1 then p else 0) + r, p, bit, r);
  }

  /** A code whose last k - t bits are ones, plus one. */
  lemma CarryReversed(k: nat, t: nat, hi: nat, code: nat)
    requires t <= k && code + 1 == Doubled(hi + 1, k - t)
    ensures Rev(k, code + 1) == Rev(t, hi + 1)
  {
    DoubledIs(hi + 1, k - t);
    RevSplit(t, k - t, hi + 1, 0);
    RevZero(k - t);
  }

  lemma {:induction false} DoubledTwice(b: nat, n: nat)
    ensures Doubled(2 * b, n) == Doubled(b, n + 1)
  {
    if n > 0 { DoubledTwice(b, n - 1); }
  }

  lemma CarryOn(t: nat, hi: nat, n: nat)
    requires t > 0 && hi % 2 == 1
    ensures Rev(t, hi) - Pow2(t - 1) == Rev(t - 1, hi / 2)
    ensures Doubled(hi + 1, n) == Doubled(hi / 2 + 1, n + 1)
    ensures Pow2(t - 1) / 2 == if t == 1 then 0 else Pow2(t - 2)
  {
    DoubledTwice(hi / 2 + 1, n);
  }

  lemma CarryStops(t: nat, hi: nat)
    requires t > 0 && hi % 2 == 0
    ensures Rev(t, hi) + Pow2(t - 1) == Rev(t, hi + 1)
  {
  }

  method BackwardIncrement(i: nat, k: nat, ghost code: nat) returns (r: nat)
    requires k >= 1 && code < Pow2(k) && i == Rev(k, code)
    ensures r == Rev(k, code + 1)
  {
    hide Rev, Pow2, Bit;
    r := i;
    var j := Pow2(k - 1);
    ghost var t: nat, hi: nat := k, code;
    while j > 0 && Bit(r, j)
      invariant 0 <= t <= k && j == (if t == 0 then 0 else Pow2(t - 1))
      invariant r == Rev(t, hi)
      invariant code + 1 == Doubled(hi + 1, k - t)
    {
      TopBit(t, hi);
      CarryOn(t, hi, k - t);
      r := r - j;
      j := j / 2;
      t, hi := t - 1, hi / 2;
    }
    if t > 0 {
      TopBit(t, hi);
      CarryStops(t, hi);
    } else {
      assert Rev(0, hi) == 0 == Rev(0, hi + 1) by { RevNone(hi); RevNone(hi + 1); }
    }
    r := r + j;
    CarryReversed(k, t, hi, code);
  }

  lemma RevNone(x: nat)
    ensures Rev(0, x) == 0
  {
  }

  // ---- Opening the tables a code needs

  /** The innermost open table, not the root, has more than l index bits. */
  ghost predicate Wide(l: nat, st: seq<Level>) {
    |st| >= 2 && st[|st| - 1].n > l
  }

  /** A table has been or is about to be lost exactly when an earlier code, or this one at
      the levels below m, made a table too wide. */
  ghost predicate Tracked(env: Env, st: seq<Level>, k: nat, code: nat, bad: bool, m: nat)
    requires Complete(env)
  {
    if bad || Wide(env.l, st) then !NoneTooWide(env)
    else NoneBefore(env, k, code) && forall h :: 1 <= h < m ==> !Violates(env, k, code, h)
  }

  /** A code came earlier below every open table but the root. */
  ghost predicate Begun(st: seq<Level>, k: nat, code: nat) {
    forall h :: 1 <= h < |st| ==> st[h].w < k && Low(code, k - st[h].w) != 0
  }

  lemma BegunTracked(env: Env, tabs: Tables, st: seq<Level>, k: nat, code: nat, bad: bool)
    requires Complete(env) && Stack(env, tabs, st) && Begun(st, k, code) && Tracked(env, st, k, code, bad, 1)
    ensures Tracked(env, st, k, code, bad, |st|)
  {
    hide Violates, Low, Complete, NoneTooWide, NoneBefore;
    forall h | 1 <= h < |st| ensures !Violates(env, k, code, h) {
      NotFirstHere(env, k, code, h, st[h].w);
    }
  }

  lemma NotFirstHere(env: Env, k: nat, code: nat, h: nat, w: nat)
    requires Complete(env) && w == h * env.l && w < k && Low(code, k - w) != 0
    ensures !Violates(env, k, code, h)
  {
    hide Low;
  }

  lemma ViolatesHere(env: Env, k: nat, code: nat, h: nat, w: nat)
    requires Complete(env) && 1 <= h && w == h * env.l && w < k <= env.g
    requires IsCode(env.c, k, code) && Low(code, k - w) == 0
    ensures Violates(env, k, code, h) <==> TooWide(env.c, env.l, k, w, code)
  {
  }

  lemma TrackedPush(env: Env, st: seq<Level>, q: Level, k: nat, code: nat, bad: bool, bad': bool)
    requires Complete(env) && |st| > 0 && Tracked(env, st, k, code, bad, |st|)
    requires bad' == (bad || Wide(env.l, st)) && (Violates(env, k, code, |st|) <==> q.n > env.l)
    ensures Tracked(env, st + [q], k, code, bad', |st| + 1)
  {
  }

  lemma NewLevelFits(env: Env, k: nat, code: nat, q: Level)
    requires Complete(env) && q.w < k <= env.g && IsCode(env.c, k, code) && Low(code, k - q.w) == 0
    requires SizeOk(env, k, q.w, code, q.n) && Rev(q.w, q.x) == Shr(code, k - q.w)
    ensures Fits(env, q) && (q.n > env.l ==> Overflows(env, q))
  {
    hide Low, Shr, Rev, Pow2;
    DoubledIs(Shr(code, k - q.w) + 1, q.n);
    if q.n > env.l {
      TooWideOverflows(env, k, q.w, code);
    }
  }

  lemma OpenOne(env: Env, tabs: Tables, tabs': Tables, st: seq<Level>, k: nat, code: nat, bad: bool, lost: nat,
                q: Level)
    returns (bad': bool, lost': nat)
    requires PushReady(env, tabs, st, k, code, bad, lost) && Tracked(env, st, k, code, bad, |st|)
    requires Pushed(env.l, tabs, tabs', st[|st| - 1], Rev(k, code), q.n)
    requires q == Level(|tabs|, q.n, st[|st| - 1].w + env.l, Rev(k, code)) && SizeOk(env, k, q.w, code, q.n)
    ensures Built(env, tabs', st + [q], k, code, bad', lost') && Here(st + [q], k, code)
    ensures Tracked(env, st + [q], k, code, bad', |st| + 1)
  {
    hide Low, Shr, Rev, Pow2;
    PushFacts(env, tabs, st, k, code, bad, lost);
    NewLevelFits(env, k, code, q);
    bad', lost' := PushKeeps(env, tabs, tabs', st, k, code, bad, lost, q);
    StackHeight(env, tabs, st, k, code, bad, lost);
    ViolatesHere(env, k, code, |st|, q.w);
    TrackedPush(env, st, q, k, code, bad, bad');
  }

  lemma StackHeight(env: Env, tabs: Tables, st: seq<Level>, k: nat, code: nat, bad: bool, lost: nat)
    requires Built(env, tabs, st, k, code, bad, lost) && k > st[|st| - 1].w + env.l
    ensures |st| < BMAX && (|st| - 1) * env.l == st[|st| - 1].w && |st| * env.l == st[|st| - 1].w + env.l
  {
    assert st[|st| - 1].w == (|st| - 1) * env.l;
    Distribute(|st| - 1, 1, env.l);
    MulMonotone(1, env.l, |st|);
    Assoc(env.l, |st|, 1);
  }

  /** The variables of the code-assigning loop: tables so far, level h, bits before it w,
      the stack of tables u, the stack of codes x, the current table q and its size z. */
  datatype Work = Work(tabs: Tables, h: int, w: int, u: seq<nat>, x: seq<nat>, q: nat, z: nat)

  /** What the proof follows beside them: the open tables, and whether a stream is lost. */
  datatype Trace = Trace(st: seq<Level>, bad: bool, lost: nat)

  ghost predicate Concrete(l: nat, wk: Work, st: seq<Level>) {
    && |wk.u| == BMAX && |wk.x| == BMAX + 1 && |st| <= BMAX && wk.x[0] == 0
    && wk.h == |st| - 1 && wk.w == (if st == [] then 0 - l as int else st[|st| - 1].w as int)
    && (forall t :: 0 <= t < |st| ==> wk.u[t] == st[t].t && wk.x[t] == st[t].x)
  }

  ghost predicate Current(wk: Work, st: seq<Level>) {
    st != [] && wk.q == st[|st| - 1].t && wk.q < |wk.tabs| && wk.z == |wk.tabs[wk.q]|
  }

  /** Before the first code there are no tables; from then on, Built. The current table is
      up to date whenever the next code does not open another. */
  ghost predicate Working(env: Env, wk: Work, tr: Trace, k: nat, code: nat) {
    && Complete(env) && 1 <= k <= env.g && Concrete(env.l, wk, tr.st) && Sized(env.l, env.g, wk.tabs)
    && (if tr.st == [] then
          wk.tabs == [] && code == 0 && First(env.c, k) == 0 && k <= env.l && !tr.bad
        else
          && Built(env, wk.tabs, tr.st, k, code, tr.bad, tr.lost) && Here(tr.st, k, code)
          && (k <= wk.w + env.l ==> Current(wk, tr.st)))
  }

  ghost predicate Opening(env: Env, wk: Work, tr: Trace, k: nat, code: nat) {
    && Working(env, wk, tr, k, code) && IsCode(env.c, k, code)
    && Tracked(env, tr.st, k, code, tr.bad, |tr.st|)
  }

  lemma BeforeOpen(env: Env, wk: Work, tr: Trace, k: nat, code: nat)
    requires Opening(env, wk, tr, k, code) && k > wk.w + env.l
    ensures 0 <= wk.w + env.l && Low(code, k - (wk.w + env.l)) == 0
  {
    hide Low, Shr, Rev, Pow2;
    if wk.h < 0 {
      LowSmall(0, k);
    } else {
      PushFacts(env, wk.tabs, tr.st, k, code, tr.bad, tr.lost);
    }
  }

  lemma BeforePush(env: Env, wk: Work, tr: Trace, k: nat, code: nat)
    requires Opening(env, wk, tr, k, code) && k > wk.w + env.l && wk.h >= 0
    ensures wk.h + 1 < BMAX && PushReady(env, wk.tabs, tr.st, k, code, tr.bad, tr.lost)
    ensures wk.u[wk.h] == tr.st[wk.h].t < |wk.tabs| && Shr(Rev(k, code), wk.w) < |wk.tabs[wk.u[wk.h]]|
  {
    hide Low, Shr, Rev, Pow2;
    StackHeight(env, wk.tabs, tr.st, k, code, tr.bad, tr.lost);
    PushFacts(env, wk.tabs, tr.st, k, code, tr.bad, tr.lost);
  }

  /** The root never has fewer than l index bits. */
  lemma RootIsWide(env: Env, k: nat, n: nat, code: nat)
    requires Complete(env) && 1 <= k <= env.g && code == 0 && SizeOk(env, k, 0, code, n)
    ensures n >= env.l
  {
    if n < env.l {
      LowSmall(0, k);
      DoubledIs(1, n);
      NotFullEarly(env, n);
    }
  }

  lemma AfterRoot(env: Env, wk: Work, wk': Work, tr: Trace, k: nat, code: nat, n: nat) returns (tr': Trace)
    requires Opening(env, wk, tr, k, code) && wk.h == -1 && SizeOk(env, k, 0, code, n)
    requires wk' == Work([seq(Pow2(n), _ => Unset)], 0, 0, wk.u[0 := 0], wk.x, 0, Pow2(n))
    ensures Opening(env, wk', tr', k, code)
  {
    RootIsWide(env, k, n, code);
    OpenRoot(env, wk'.tabs, k, n);
    tr' := Trace([Level(0, n, 0, 0)], false, 0);
  }

  lemma AfterPush(env: Env, wk: Work, wk': Work, tr: Trace, k: nat, code: nat, n: nat) returns (tr': Trace)
    requires Opening(env, wk, tr, k, code) && wk.h >= 0 && k > wk.w + env.l
    requires SizeOk(env, k, wk.w + env.l, code, n)
    requires Pushed(env.l, wk.tabs, wk'.tabs, tr.st[wk.h], Rev(k, code), n) && wk.h + 1 < BMAX
    requires wk' == Work(wk'.tabs, wk.h + 1, wk.w + env.l, wk.u[wk.h + 1 := |wk.tabs|],
                         wk.x[wk.h + 1 := Rev(k, code)], |wk.tabs|, Pow2(n))
    ensures Opening(env, wk', tr', k, code)
  {
    hide Low, Shr, Rev, Pow2;
    var q := Level(|wk.tabs|, n, wk.w + env.l, Rev(k, code));
    BeforePush(env, wk, tr, k, code);
    var bad', lost' := OpenOne(env, wk.tabs, wk'.tabs, tr.st, k, code, tr.bad, tr.lost, q);
    tr' := Trace(tr.st + [q], bad', lost');
    PushFacts(env, wk.tabs, tr.st, k, code, tr.bad, tr.lost);
    PushSized(env.l, env.g, wk.tabs, wk'.tabs, tr.st[wk.h], Rev(k, code), n);
    ConcretePush(env.l, wk, wk', tr.st, q);
  }

  lemma ConcretePush(l: nat, wk: Work, wk': Work, st: seq<Level>, q: Level)
    requires Concrete(l, wk, st) && wk.h >= 0 && wk.h + 1 < BMAX
    requires wk'.u == wk.u[wk.h + 1 := q.t] && wk'.x == wk.x[wk.h + 1 := q.x]
    requires wk'.h == wk.h + 1 && wk'.w == q.w
    ensures Concrete(l, wk', st + [q])
  {
  }

  method OpenSubTable(wk: Work, l: nat, j: nat, i: nat, ghost env: Env, ghost tr: Trace, ghost k: nat, ghost code: nat)
    returns (wk': Work, ghost tr': Trace)
    requires l == env.l && i == Rev(k, code) && Opening(env, wk, tr, k, code) && wk.h >= 0 && k > wk.w + l
    requires SizeOk(env, k, wk.w + l, code, j)
    ensures Opening(env, wk', tr', k, code) && wk'.w == wk.w + l && Current(wk', tr'.st)
  {
    hide Low, Shr, Rev, Pow2;
    BeforePush(env, wk, tr, k, code);
    var h, w, q := wk.h + 1, wk.w + l, |wk.tabs|;
    var above, slot := wk.u[h - 1], Shr(i, w - l);
    var tabs := wk.tabs[above := wk.tabs[above][slot := Sub(l, j, q)]] + [seq(Pow2(j), _ => Unset)];
    wk' := Work(tabs, h, w, wk.u[h := q], wk.x[h := i], q, Pow2(j));
    tr' := AfterPush(env, wk, wk', tr, k, code, j);
  }

  method OpenTable(wk: Work, c: seq<nat>, g: nat, l: nat, k: nat, a: nat, i: nat,
                   ghost env: Env, ghost tr: Trace, ghost code: nat)
    returns (wk': Work, ghost tr': Trace)
    requires c == env.c && g == env.g && l == env.l && Opening(env, wk, tr, k, code) && k > wk.w + l
    requires a + 1 == Used(c, k) - code && i == Rev(k, code)
    ensures Opening(env, wk', tr', k, code) && wk'.w == wk.w + l
  {
    hide Low, Shr, Rev, Pow2;
    BeforeOpen(env, wk, tr, k, code);
    var j := ChooseBits(c, g, l, k, wk.w + l, a, env, code);
    if wk.h == -1 {
      wk' := Work([seq(Pow2(j), _ => Unset)], 0, 0, wk.u[0 := 0], wk.x, 0, Pow2(j));
      tr' := AfterRoot(env, wk, wk', tr, k, code, j);
    } else {
      wk', tr' := OpenSubTable(wk, l, j, i, env, tr, k, code);
    }
  }

  method OpenTables(wk0: Work, c: seq<nat>, g: nat, l: nat, k: nat, a: nat, i: nat,
                    ghost env: Env, ghost tr0: Trace, ghost code: nat)
    returns (wk: Work, ghost tr: Trace)
    requires c == env.c && g == env.g && l == env.l && Opening(env, wk0, tr0, k, code)
    requires a + 1 == Used(c, k) - code && i == Rev(k, code)
    ensures Opening(env, wk, tr, k, code) && k <= wk.w + l && Current(wk, tr.st)
  {
    hide Low, Shr, Rev, Pow2;
    wk, tr := wk0, tr0;
    while k > wk.w + l
      invariant Opening(env, wk, tr, k, code)
      decreases k - wk.w
    {
      wk, tr := OpenTable(wk, c, g, l, k, a, i, env, tr, code);
    }
  }
}
