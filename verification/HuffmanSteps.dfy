/** What each step of table construction keeps: filling in a code, opening a table, and
    closing finished tables. */
module HuffmanSteps {
  import opened Bits
  import opened Canonical
  import opened HuffmanTables

  ghost predicate SizedTop(tabs: Tables, lv: Level) {
    lv.t < |tabs| && |tabs[lv.t]| == Pow2(lv.n)
  }

  ghost predicate Clear(tabs: Tables, lv: Level, stream: nat)
    requires SizedTop(tabs, lv)
  {
    tabs[lv.t][Low(Shr(stream, lv.w), lv.n)] == Unset
  }

  /** Slots of the h-th open table that only codes from `code` on can reach are unset. */
  ghost predicate Blank(tabs: Tables, st: seq<Level>, h: nat, k: nat, code: nat) {
    h < |st| && SizedTop(tabs, st[h]) &&
    forall stream :: InNode(stream, st[h]) && Rev(k, stream) >= code
      && !(h + 1 < |st| && InNode(stream, st[h + 1]))
      ==> Clear(tabs, st[h], stream)
  }

  /** Every stream that starts with an earlier code is already decoded correctly. */
  ghost predicate Decoded(env: Env, tabs: Tables, k: nat, code: nat)
    requires Complete(env)
  {
    forall stream :: Rev(k, stream) < code
      ==> Ref(env, stream).Found? && Walk(tabs, 0, env.l, 0, stream) == Ref(env, stream)
  }

  /** The code under construction starts on a slot boundary of the top table. */
  ghost predicate Aligned(env: Env, lv: Level, k: nat, code: nat) {
    var m := if lv.n < env.l then lv.n else env.l;
    k > lv.w + m ==> Low(code, k - lv.w - m) == 0
  }

  /** The tables for all codes before the k-bit `code`. When `bad`, some table has become
      too wide and the walk of `lost` is lost. */
  ghost predicate Built(env: Env, tabs: Tables, st: seq<Level>, k: nat, code: nat, bad: bool, lost: nat) {
    && Complete(env) && 1 <= k <= env.g && First(env.c, k) <= code <= Used(env.c, k)
    && Stack(env, tabs, st) && st[|st| - 1].w < k
    && (forall h :: 0 <= h < |st| ==> Blank(tabs, st, h, k, code))
    && Sealed(env.l, tabs)
    && (bad ==> Stuck(env.l, tabs, 0, env.l, 0, lost))
    && (!bad ==> Narrow(env, st) && Decoded(env, tabs, k, code))
    && Aligned(env, st[|st| - 1], k, code)
  }

  ghost predicate Here(st: seq<Level>, k: nat, code: nat) {
    |st| > 0 && InNode(Rev(k, code), st[|st| - 1])
  }

  // ---- Arithmetic of codes and nodes

  lemma {:induction false} UsedBound(env: Env, k: nat)
    requires Complete(env) && 1 <= k <= env.g
    ensures Used(env.c, k) <= Pow2(k)
  {
    if k < env.g {
      FirstAfterUsed(env.c, k, env.g);
      Pow2Add(k, env.g - k);
      if Used(env.c, k) > Pow2(k) {
        MulMonotone(Pow2(k) + 1, Used(env.c, k), Pow2(env.g - k));
        Distribute(Pow2(k), 1, Pow2(env.g - k));
      }
    }
  }

  /** A k-bit code is below a node exactly when its first w bits are the node's. */
  lemma CodeInNode(k: nat, code: nat, lv: Level)
    requires lv.w <= k && code < Pow2(k) && lv.x < Pow2(lv.w)
    ensures InNode(Rev(k, code), lv) <==> Shr(code, k - lv.w) == Rev(lv.w, lv.x)
  {
    RevLow(k, lv.w, code);
    ShrBound(code, k - lv.w, lv.w);
    RevRev(lv.w, Shr(code, k - lv.w));
    RevRev(lv.w, lv.x);
  }

  /** A code below a table of fewer than l bits fits in it. */
  lemma FitsCode(env: Env, lv: Level, k: nat, code: nat)
    requires Complete(env) && Fits(env, lv) && lv.w < k <= env.g && lv.x < Pow2(lv.w)
    requires IsCode(env.c, k, code) && InNode(Rev(k, code), lv)
    ensures lv.n >= env.l || k <= lv.w + lv.n
  {
    hide Low, Shr, Rev, Pow2;
    if lv.n < env.l && lv.w + lv.n < k {
      UsedBound(env, k);
      CodeInNode(k, code, lv);
      var d := lv.w + lv.n;
      var base := Rev(lv.w, lv.x);
      FirstAfterUsed(env.c, d, k);
      ScaleUp(Used(env.c, d), base + 1, Pow2(lv.n), Pow2(k - d));
      Pow2Add(lv.n, k - d);
      ShrBelow(code, k - lv.w, base + 1);
    }
  }

  // ---- Filling in a code

  ghost predicate Hit(k: nat, code: nat, lv: Level, j: nat)
    requires lv.w <= k
  {
    Low(j, k - lv.w) == Shr(Rev(k, code), lv.w)
  }

  /** The slots a code fills are those its streams select. */
  lemma HitByStream(k: nat, code: nat, lv: Level, m: nat, stream: nat)
    requires lv.w <= k <= lv.w + m && code < Pow2(k)
    requires InNode(Rev(k, code), lv) && InNode(stream, lv)
    ensures Hit(k, code, lv, Low(Shr(stream, lv.w), m)) <==> Rev(k, stream) == code
  {
    hide Low, Shr, Rev, Pow2;
    var i, a := Rev(k, code), k - lv.w;
    LowLow(Shr(stream, lv.w), a, m);
    ShiftShift(stream, lv.w, a);
    ShrLow(i, lv.w);
    MatchLow(k, stream, code);
    assert Low(stream, k) == Low(Shr(stream, lv.w), a) * Pow2(lv.w) + lv.x;
    if Low(stream, k) == i {
      ShrLowUnique(i, lv.w, Low(Shr(stream, lv.w), a), lv.x);
    }
  }

  /** A stream below a level that selects slot j of its table. */
  lemma StreamForSlot(lv: Level, j: nat) returns (stream: nat)
    requires lv.x < Pow2(lv.w) && j < Pow2(lv.n)
    ensures InNode(stream, lv) && Shr(stream, lv.w) == j && Low(Shr(stream, lv.w), lv.n) == j
  {
    stream := j * Pow2(lv.w) + lv.x;
    ShrLowUnique(stream, lv.w, j, lv.x);
    LowSmall(j, lv.n);
  }

  /** The tables after a code's slots in the top table are set. */
  ghost predicate Filled(tabs: Tables, tabs': Tables, lv: Level, k: nat, code: nat, r: Entry)
    requires SizedTop(tabs, lv) && lv.w <= k
  {
    && |tabs'| == |tabs| && |tabs'[lv.t]| == |tabs[lv.t]|
    && (forall t :: 0 <= t < |tabs| && t != lv.t ==> tabs'[t] == tabs[t])
    && (forall j :: 0 <= j < |tabs[lv.t]|
          ==> tabs'[lv.t][j] == if Hit(k, code, lv, j) then r else tabs[lv.t][j])
  }

  ghost predicate FillReady(env: Env, tabs: Tables, st: seq<Level>, k: nat, code: nat, bad: bool, lost: nat) {
    && Built(env, tabs, st, k, code, bad, lost) && Here(st, k, code)
    && IsCode(env.c, k, code) && k <= st[|st| - 1].w + env.l
  }

  lemma FillFits(env: Env, tabs: Tables, st: seq<Level>, k: nat, code: nat, bad: bool, lost: nat)
    requires FillReady(env, tabs, st, k, code, bad, lost)
    ensures code < Pow2(k) && k <= st[|st| - 1].w + st[|st| - 1].n
    ensures k <= st[|st| - 1].w + Width(env, st, |st| - 1)
  {
    UsedBound(env, k);
    FitsCode(env, st[|st| - 1], k, code);
  }

  lemma FillExtends(env: Env, tabs: Tables, tabs': Tables, st: seq<Level>, k: nat, code: nat, bad: bool, lost: nat,
                    r: Entry)
    requires FillReady(env, tabs, st, k, code, bad, lost)
    requires Filled(tabs, tabs', st[|st| - 1], k, code, r)
    ensures Extends(tabs, tabs')
  {
    hide Low, Shr, Rev, Pow2;
    var lv := st[|st| - 1];
    FillFits(env, tabs, st, k, code, bad, lost);
    assert Blank(tabs, st, |st| - 1, k, code);
    forall j | 0 <= j < |tabs[lv.t]| && Hit(k, code, lv, j)
      ensures tabs[lv.t][j] == Unset
    {
      var stream := StreamForSlot(lv, j);
      HitByStream(k, code, lv, lv.n, stream);
      assert Clear(tabs, lv, stream);
    }
  }

  lemma FillStack(env: Env, tabs: Tables, tabs': Tables, st: seq<Level>)
    requires Complete(env) && Stack(env, tabs, st) && Extends(tabs, tabs')
    ensures Stack(env, tabs', st)
  {
    forall h {:trigger st[h]} | 0 < h < |st|
      ensures Linked(env.l, tabs', st[h - 1], st[h])
    {
      assert Linked(env.l, tabs, st[h - 1], st[h]);
    }
  }

  lemma FillBlank(env: Env, tabs: Tables, tabs': Tables, st: seq<Level>, k: nat, code: nat, bad: bool, lost: nat,
                  r: Entry, h: nat)
    requires FillReady(env, tabs, st, k, code, bad, lost)
    requires Filled(tabs, tabs', st[|st| - 1], k, code, r) && h < |st|
    ensures Blank(tabs', st, h, k, code + 1)
  {
    hide Low, Shr, Rev, Pow2;
    var top := |st| - 1;
    FillFits(env, tabs, st, k, code, bad, lost);
    assert Blank(tabs, st, h, k, code);
    if h < top {
      TablesIncrease(env, tabs, st, h, top);
      assert tabs'[st[h].t] == tabs[st[h].t];
      assert forall stream :: Clear(tabs', st[h], stream) == Clear(tabs, st[h], stream);
    } else {
      FillTopBlank(tabs, tabs', st, k, code, r);
    }
  }

  lemma FillTopBlank(tabs: Tables, tabs': Tables, st: seq<Level>, k: nat, code: nat, r: Entry)
    requires |st| > 0 && Blank(tabs, st, |st| - 1, k, code) && code < Pow2(k) && Here(st, k, code)
    requires st[|st| - 1].w <= k <= st[|st| - 1].w + st[|st| - 1].n
    requires Filled(tabs, tabs', st[|st| - 1], k, code, r)
    ensures Blank(tabs', st, |st| - 1, k, code + 1)
  {
    hide Low, Shr, Rev, Pow2, Hit, InNode;
    var lv := st[|st| - 1];
    forall stream | InNode(stream, lv) && Rev(k, stream) >= code + 1
      ensures Clear(tabs', lv, stream)
    {
      HitByStream(k, code, lv, lv.n, stream);
      assert Clear(tabs, lv, stream);
    }
  }

  lemma FillDecodes(env: Env, tabs: Tables, tabs': Tables, st: seq<Level>, k: nat, code: nat, lost: nat, stream: nat)
    requires FillReady(env, tabs, st, k, code, false, lost)
    requires Filled(tabs, tabs', st[|st| - 1], k, code, Code(LeafOf(env, k, code), k - st[|st| - 1].w))
    requires Extends(tabs, tabs') && Rev(k, stream) < code + 1
    ensures Ref(env, stream).Found? && Walk(tabs', 0, env.l, 0, stream) == Ref(env, stream)
  {
    hide Low, Shr, Rev, Pow2;
    if Rev(k, stream) < code {
      WalkExtends(tabs, tabs', 0, env.l, 0, stream);
    } else {
      var h := |st| - 1;
      FillFits(env, tabs, st, k, code, false, lost);
      MatchLow(k, stream, code);
      LowLow(stream, st[h].w, k);
      FillStack(env, tabs, tabs', st);
      WalkDown(env, tabs', st, h, stream);
      HitByStream(k, code, st[h], Width(env, st, h), stream);
      RefFinds(env, stream, k);
      if h == 0 { Pow2Monotone(env.l, st[0].n); }
    }
  }

  lemma FillSealed(env: Env, tabs: Tables, tabs': Tables, st: seq<Level>, k: nat, code: nat, bad: bool, lost: nat,
                   leaf: Leaf, b: nat)
    requires FillReady(env, tabs, st, k, code, bad, lost)
    requires Filled(tabs, tabs', st[|st| - 1], k, code, Code(leaf, b))
    ensures Sealed(env.l, tabs')
  {
    hide Low, Shr, Rev, Pow2;
    var lv, l := st[|st| - 1], env.l;
    forall t, j | 0 <= t < |tabs'| && Pow2(l) <= j < |tabs'[t]| && tabs'[t][j] != Unset
      ensures !tabs'[t][Low(j, l)].Sub?
    {
      if t == lv.t {
        LowLow(j, k - lv.w, l);
        assert Hit(k, code, lv, j) <==> Hit(k, code, lv, Low(j, l));
        assert tabs'[t][Low(j, l)] == if Hit(k, code, lv, Low(j, l)) then Code(leaf, b) else tabs[t][Low(j, l)];
      }
    }
  }

  /** Setting the slots of the next code. */
  lemma FillKeeps(env: Env, tabs: Tables, tabs': Tables, st: seq<Level>, k: nat, code: nat, bad: bool, lost: nat)
    requires FillReady(env, tabs, st, k, code, bad, lost)
    requires Filled(tabs, tabs', st[|st| - 1], k, code, Code(LeafOf(env, k, code), k - st[|st| - 1].w))
    ensures Extends(tabs, tabs')
    ensures Built(env, tabs', st, k, code + 1, bad, lost)
  {
    hide Low, Shr, Rev, Pow2;
    var r := Code(LeafOf(env, k, code), k - st[|st| - 1].w);
    FillExtends(env, tabs, tabs', st, k, code, bad, lost, r);
    FillStack(env, tabs, tabs', st);
    FillFits(env, tabs, st, k, code, bad, lost);
    var next := code + 1;
    forall h | 0 <= h < |st| ensures Blank(tabs', st, h, k, next) {
      FillBlank(env, tabs, tabs', st, k, code, bad, lost, r, h);
    }
    FillSealed(env, tabs, tabs', st, k, code, bad, lost, r.leaf, r.b);
    if bad {
      StuckStays(env.l, tabs, tabs', 0, env.l, 0, lost);
    } else {
      forall stream | Rev(k, stream) < code + 1
        ensures Ref(env, stream).Found? && Walk(tabs', 0, env.l, 0, stream) == Ref(env, stream)
      {
        FillDecodes(env, tabs, tabs', st, k, code, lost, stream);
      }
    }
  }

  lemma FillSized(l: nat, g: nat, tabs: Tables, tabs': Tables, lv: Level, k: nat, code: nat, leaf: Leaf)
    requires Sized(l, g, tabs) && SizedTop(tabs, lv) && lv.w < k <= lv.w + l && k <= lv.w + lv.n
    requires Filled(tabs, tabs', lv, k, code, Code(leaf, k - lv.w))
    ensures Sized(l, g, tabs')
  {
    hide Hit;
    Pow2Monotone(k - lv.w, lv.n);
    forall t, j | 0 <= t < |tabs'| && 0 <= j < |tabs'[t]| ensures EntrySized(l, g, tabs', t, tabs'[t][j]) {
      assert EntrySized(l, g, tabs, t, tabs[t][j]);
    }
  }

  lemma PushSized(l: nat, g: nat, tabs: Tables, tabs': Tables, lv: Level, i: nat, n: nat)
    requires l < g && n <= g && Sized(l, g, tabs) && SizedTop(tabs, lv) && 1 <= l <= lv.n
    requires Pushed(l, tabs, tabs', lv, i, n)
    ensures Sized(l, g, tabs')
  {
    hide Shr;
    Pow2Monotone(l, lv.n);
    forall t, j | 0 <= t < |tabs'| && 0 <= j < |tabs'[t]| ensures EntrySized(l, g, tabs', t, tabs'[t][j]) {
      if t < |tabs| {
        assert EntrySized(l, g, tabs, t, tabs[t][j]);
      }
    }
  }

  // ---- Opening tables

  lemma OpenRoot(env: Env, tabs: Tables, k: nat, n: nat)
    requires Complete(env) && 1 <= k <= env.g && First(env.c, k) == 0 && n >= env.l
    requires |tabs| == 1 && |tabs[0]| == Pow2(n) && forall j :: 0 <= j < |tabs[0]| ==> tabs[0][j] == Unset
    ensures Built(env, tabs, [Level(0, n, 0, 0)], k, 0, false, 0)
    ensures Here([Level(0, n, 0, 0)], k, 0)
  {
    hide Shr, Rev, Pow2, Walk, Ref, Low;
    var lv := Level(0, n, 0, 0);
    assert Pow2(0) == 1 by { PowZero(); }
    assert LevelOk(env, tabs, lv);
    assert Stack(env, tabs, [lv]);
    assert Blank(tabs, [lv], 0, k, 0);
    if k > env.l { LowSmall(0, k - env.l); }
    LowNone(Rev(k, 0));
  }

  lemma PowZero()
    ensures Pow2(0) == 1
  {
  }

  ghost predicate PushReady(env: Env, tabs: Tables, st: seq<Level>, k: nat, code: nat, bad: bool, lost: nat) {
    && Built(env, tabs, st, k, code, bad, lost) && Here(st, k, code)
    && IsCode(env.c, k, code) && k > st[|st| - 1].w + env.l
  }

  /** When a code is too long for the top table, it is the first below the new one. */
  lemma PushFacts(env: Env, tabs: Tables, st: seq<Level>, k: nat, code: nat, bad: bool, lost: nat)
    requires PushReady(env, tabs, st, k, code, bad, lost)
    ensures var lv := st[|st| - 1]; var i := Rev(k, code); var w' := lv.w + env.l;
      && code < Pow2(k) && lv.n >= env.l && Low(code, k - w') == 0
      && i < Pow2(w') && Rev(w', i) == Shr(code, k - w')
      && code == Shr(code, k - w') * Pow2(k - w')
      && Shr(i, lv.w) < Pow2(env.l) <= Pow2(lv.n) && Low(i, w') == i
  {
    hide Low, Shr, Rev, Pow2;
    var lv := st[|st| - 1];
    UsedBound(env, k);
    FitsCode(env, lv, k, code);
    AlignedCode(k, lv.w + env.l, code);
    ShrBound(Rev(k, code), lv.w, env.l);
    Pow2Monotone(env.l, lv.n);
  }

  /** A code that ends in zeros is, reversed, the reversal of what precedes them. */
  lemma AlignedCode(k: nat, w: nat, code: nat)
    requires w <= k && code < Pow2(k) && Low(code, k - w) == 0
    ensures Rev(k, code) < Pow2(w) && Low(Rev(k, code), w) == Rev(k, code)
    ensures Rev(w, Rev(k, code)) == Shr(code, k - w)
    ensures code == Shr(code, k - w) * Pow2(k - w)
  {
    var b := Shr(code, k - w);
    RevBound(w, b);
    RevCut(w, k - w, code);
    RevZero(k - w);
    ShrBound(code, k - w, w);
    RevRev(w, b);
    ShrLow(code, k - w);
    LowSmall(Rev(k, code), w);
  }

  lemma {:induction false} RevZero(n: nat)
    ensures Rev(n, 0) == 0
  {
    if n > 0 { RevZero(n - 1); }
  }

  /** The tables after a new one has been linked in below the top. */
  ghost predicate Pushed(l: nat, tabs: Tables, tabs': Tables, lv: Level, i: nat, n: nat)
    requires SizedTop(tabs, lv)
  {
    && |tabs'| == |tabs| + 1 && |tabs'[lv.t]| == |tabs[lv.t]|
    && (forall t :: 0 <= t < |tabs| && t != lv.t ==> tabs'[t] == tabs[t])
    && (forall j :: 0 <= j < |tabs[lv.t]|
          ==> tabs'[lv.t][j] == if j == Shr(i, lv.w) then Sub(l, n, |tabs|) else tabs[lv.t][j])
    && |tabs'[|tabs|]| == Pow2(n)
    && (forall j :: 0 <= j < |tabs'[|tabs|]| ==> tabs'[|tabs|][j] == Unset)
  }

  /** Slots of the top table whose low l bits lead below the new table were all unset. */
  lemma GroupUnset(env: Env, tabs: Tables, st: seq<Level>, k: nat, code: nat, bad: bool, lost: nat, j: nat)
    requires PushReady(env, tabs, st, k, code, bad, lost)
    requires j < Pow2(st[|st| - 1].n) && Low(j, env.l) == Shr(Rev(k, code), st[|st| - 1].w)
    ensures tabs[st[|st| - 1].t][j] == Unset
  {
    hide Low, Shr, Rev, Pow2;
    var lv, i := st[|st| - 1], Rev(k, code);
    var w' := lv.w + env.l;
    PushFacts(env, tabs, st, k, code, bad, lost);
    assert Blank(tabs, st, |st| - 1, k, code);
    var stream := StreamForSlot(lv, j);
    ShiftShift(stream, lv.w, env.l);
    ShrLow(i, lv.w);
    AtLeastCode(k, w', code, stream);
    assert Clear(tabs, lv, stream);
  }

  lemma AtLeastCode(k: nat, w: nat, code: nat, stream: nat)
    requires w <= k && code < Pow2(k) && Low(code, k - w) == 0
    requires Low(stream, w) == Rev(k, code)
    ensures Rev(k, stream) >= code
  {
    AlignedCode(k, w, code);
    RevMod(w, stream);
    RevHigh(k, w, stream);
    ShrLow(Rev(k, stream), k - w);
  }

  lemma PushExtends(env: Env, tabs: Tables, tabs': Tables, st: seq<Level>, k: nat, code: nat, bad: bool, lost: nat,
                    n: nat)
    requires PushReady(env, tabs, st, k, code, bad, lost)
    requires Pushed(env.l, tabs, tabs', st[|st| - 1], Rev(k, code), n)
    ensures Extends(tabs, tabs')
  {
    hide Low, Shr, Rev, Pow2;
    var j := Shr(Rev(k, code), st[|st| - 1].w);
    PushFacts(env, tabs, st, k, code, bad, lost);
    LowSmall(j, env.l);
    GroupUnset(env, tabs, st, k, code, bad, lost, j);
  }

  lemma PushSealed(env: Env, tabs: Tables, tabs': Tables, st: seq<Level>, k: nat, code: nat, bad: bool, lost: nat,
                   n: nat)
    requires PushReady(env, tabs, st, k, code, bad, lost)
    requires Pushed(env.l, tabs, tabs', st[|st| - 1], Rev(k, code), n)
    ensures Sealed(env.l, tabs')
  {
    hide Low, Shr, Rev, Pow2;
    var lv, i := st[|st| - 1], Rev(k, code);
    PushFacts(env, tabs, st, k, code, bad, lost);
    forall t, j | 0 <= t < |tabs'| && Pow2(env.l) <= j < |tabs'[t]| && tabs'[t][j] != Unset
      ensures !tabs'[t][Low(j, env.l)].Sub?
    {
      if t == lv.t {
        if Low(j, env.l) == Shr(i, lv.w) {
          GroupUnset(env, tabs, st, k, code, bad, lost, j);
        }
        assert tabs[t][j] == tabs'[t][j];
        assert tabs'[t][Low(j, env.l)] == tabs[t][Low(j, env.l)];
      }
    }
  }

  lemma SlotLeadsIn(l: nat, p: Level, q: Level, stream: nat)
    requires InNode(stream, p) && Low(q.x, p.w) == p.x && q.w == p.w + l && l <= p.n
    requires Low(Shr(stream, p.w), p.n) == Shr(q.x, p.w) < Pow2(l)
    ensures InNode(stream, q)
  {
    LowSmall(Shr(q.x, p.w), l);
    LowLow(Shr(stream, p.w), l, p.n);
    ShiftShift(stream, p.w, l);
    ShrLow(q.x, p.w);
  }

  lemma PushBlank(env: Env, tabs: Tables, tabs': Tables, st: seq<Level>, k: nat, code: nat, bad: bool, lost: nat,
                  q: Level, h: nat)
    requires PushReady(env, tabs, st, k, code, bad, lost)
    requires Pushed(env.l, tabs, tabs', st[|st| - 1], Rev(k, code), q.n)
    requires q == Level(|tabs|, q.n, st[|st| - 1].w + env.l, Rev(k, code)) && h <= |st|
    ensures Blank(tabs', st + [q], h, k, code)
  {
    hide Low, Shr, Rev, Pow2;
    var top, st' := |st| - 1, st + [q];
    PushFacts(env, tabs, st, k, code, bad, lost);
    if h < top {
      assert Blank(tabs, st, h, k, code);
      TablesIncrease(env, tabs, st, h, top);
    } else if h == top {
      assert Blank(tabs, st, h, k, code);
      var lv := st[top];
      forall stream | InNode(stream, lv) && Rev(k, stream) >= code && !InNode(stream, q)
        ensures Clear(tabs', lv, stream)
      {
        assert Clear(tabs, lv, stream);
        if Low(Shr(stream, lv.w), lv.n) == Shr(q.x, lv.w) {
          SlotLeadsIn(env.l, lv, q, stream);
        }
      }
    } else {
      assert st'[h] == q;
    }
  }

  lemma PushStack(env: Env, tabs: Tables, tabs': Tables, st: seq<Level>, k: nat, code: nat, bad: bool, lost: nat,
                  q: Level)
    requires PushReady(env, tabs, st, k, code, bad, lost)
    requires Pushed(env.l, tabs, tabs', st[|st| - 1], Rev(k, code), q.n)
    requires q == Level(|tabs|, q.n, st[|st| - 1].w + env.l, Rev(k, code))
    requires Fits(env, q) && (q.n > env.l ==> Overflows(env, q))
    ensures Stack(env, tabs', st + [q])
  {
    hide Low, Shr, Rev, Pow2, Fits, Overflows;
    PushFacts(env, tabs, st, k, code, bad, lost);
    PushExtends(env, tabs, tabs', st, k, code, bad, lost, q.n);
    FillStack(env, tabs, tabs', st);
    var st' := st + [q];
    var top := |st| - 1;
    assert st'[top] == st[top] && st'[top + 1] == q;
    assert Linked(env.l, tabs', st[top], q);
    Distribute(top, 1, env.l);
    assert LevelOk(env, tabs', q) && q.w == (top + 1) * env.l;
  }

  /** A stream that a too-wide table loses once it has a subtable. */
  lemma LostStream(env: Env, tabs: Tables, tabs': Tables, st: seq<Level>, k: nat, code: nat, lost: nat, n: nat)
    returns (stream: nat)
    requires PushReady(env, tabs, st, k, code, false, lost)
    requires Pushed(env.l, tabs, tabs', st[|st| - 1], Rev(k, code), n)
    requires |st| >= 2 && st[|st| - 1].n > env.l
    ensures Stuck(env.l, tabs', 0, env.l, 0, stream)
  {
    hide Low, Shr, Rev, Pow2;
    var top, l := |st| - 1, env.l;
    var lv := st[top];
    PushFacts(env, tabs, st, k, code, false, lost);
    PushExtends(env, tabs, tabs', st, k, code, false, lost, n);
    FillStack(env, tabs, tabs', st);
    var j0 := Shr(Rev(k, code), lv.w);
    var j := Pow2(l) + j0;
    Pow2Monotone(l, lv.n);
    ShrLowUnique(j, l, 1, j0);
    stream := StreamForSlot(lv, j);
    WalkDown(env, tabs', st, top, stream);
    GroupUnset(env, tabs, st, k, code, false, lost, j);
    assert tabs'[lv.t][j] == Unset && tabs'[lv.t][Low(j, l)].Sub?;
  }

  lemma PushKeeps(env: Env, tabs: Tables, tabs': Tables, st: seq<Level>, k: nat, code: nat, bad: bool, lost: nat,
                  q: Level)
    returns (bad': bool, lost': nat)
    requires PushReady(env, tabs, st, k, code, bad, lost)
    requires Pushed(env.l, tabs, tabs', st[|st| - 1], Rev(k, code), q.n)
    requires q == Level(|tabs|, q.n, st[|st| - 1].w + env.l, Rev(k, code))
    requires Fits(env, q) && (q.n > env.l ==> Overflows(env, q))
    ensures bad' == (bad || (|st| >= 2 && st[|st| - 1].n > env.l))
    ensures Built(env, tabs', st + [q], k, code, bad', lost') && Here(st + [q], k, code)
  {
    hide Low, Shr, Rev, Pow2;
    var st' := st + [q];
    PushFacts(env, tabs, st, k, code, bad, lost);
    PushExtends(env, tabs, tabs', st, k, code, bad, lost, q.n);
    PushStack(env, tabs, tabs', st, k, code, bad, lost, q);
    PushSealed(env, tabs, tabs', st, k, code, bad, lost, q.n);
    forall h | 0 <= h < |st'| ensures Blank(tabs', st', h, k, code) {
      PushBlank(env, tabs, tabs', st, k, code, bad, lost, q, h);
    }
    bad', lost' := bad, lost;
    if bad {
      StuckStays(env.l, tabs, tabs', 0, env.l, 0, lost);
    } else if |st| >= 2 && st[|st| - 1].n > env.l {
      lost' := LostStream(env, tabs, tabs', st, k, code, lost, q.n);
      bad' := true;
    } else {
      forall stream | Rev(k, stream) < code
        ensures Ref(env, stream).Found? && Walk(tabs', 0, env.l, 0, stream) == Ref(env, stream)
      {
        WalkExtends(tabs, tabs', 0, env.l, 0, stream);
      }
      forall h {:trigger st'[h]} | 0 < h < |st'| - 1 ensures st'[h].n == env.l {
        assert st'[h] == st[h];
      }
    }
    PushAligned(env, st, k, code, q);
  }

  lemma PushAligned(env: Env, st: seq<Level>, k: nat, code: nat, q: Level)
    requires q.w < k && Low(code, k - q.w) == 0
    ensures Aligned(env, q, k, code)
  {
    var m := if q.n < env.l then q.n else env.l;
    if k > q.w + m {
      LowLow(code, k - q.w - m, k - q.w);
      LowSmall(0, k - q.w - m);
    }
  }

  // ---- Closing finished tables

  lemma CarryOut(y: nat, n: nat)
    requires Shr(y + 1, n) != Shr(y, n)
    ensures y + 1 == (Shr(y, n) + 1) * Pow2(n) && Low(y + 1, n) == 0
  {
    var p, q, r := Pow2(n), Shr(y, n), Low(y, n);
    ShrLow(y, n);
    Distribute(q, 1, p);
    if r + 1 < p {
      ShrLowUnique(y + 1, n, q, r + 1);
    } else {
      ShrLowUnique(y + 1, n, q + 1, 0);
    }
  }

  /** Once the next code is outside a table, every stream below it has been decoded. */
  lemma NodeDone(lv: Level, k: nat, code: nat)
    requires lv.w <= k && code < Pow2(k) && lv.x < Pow2(lv.w)
    requires InNode(Rev(k, code), lv) && !InNode(Rev(k, code + 1), lv)
    ensures code + 1 == (Rev(lv.w, lv.x) + 1) * Pow2(k - lv.w) && Low(code + 1, k - lv.w) == 0
    ensures forall stream :: InNode(stream, lv) ==> Rev(k, stream) < code + 1
  {
    hide Low, Shr, Rev, Pow2;
    var d := k - lv.w;
    CodeInNode(k, code, lv);
    RevLow(k, lv.w, code + 1);
    assert Shr(code + 1, d) != Shr(code, d) by { RevRev(lv.w, lv.x); }
    CarryOut(code, d);
    forall stream | InNode(stream, lv) ensures Rev(k, stream) < code + 1 {
      RevMod(lv.w, stream);
      RevHigh(k, lv.w, stream);
      ShrBelow(Rev(k, stream), d, Rev(lv.w, lv.x) + 1);
    }
  }

  lemma PopKeeps(env: Env, tabs: Tables, st: seq<Level>, k: nat, code: nat, bad: bool, lost: nat)
    requires Built(env, tabs, st, k, code + 1, bad, lost) && |st| >= 2 && code < Pow2(k)
    requires Here(st, k, code) && !Here(st, k, code + 1)
    ensures Built(env, tabs, st[..|st| - 1], k, code + 1, bad, lost) && Here(st[..|st| - 1], k, code)
  {
    hide Low, Shr, Rev, Pow2;
    var top, next := |st| - 1, code + 1;
    var st' := st[..top];
    NodeDone(st[top], k, code);
    assert Linked(env.l, tabs, st[top - 1], st[top]);
    NodesNest(env, tabs, st, top - 1, top, Rev(k, code));
    forall h | 0 <= h < |st'| ensures Blank(tabs, st', h, k, next) {
      PopBlank(tabs, st, h, k, next);
    }
    assert st'[|st'| - 1] == st[top - 1];
    PopStack(env, tabs, st);
  }

  lemma PopStack(env: Env, tabs: Tables, st: seq<Level>)
    requires Complete(env) && Stack(env, tabs, st) && |st| >= 2
    ensures Stack(env, tabs, st[..|st| - 1])
    ensures Narrow(env, st) ==> Narrow(env, st[..|st| - 1])
  {
  }

  lemma PopBlank(tabs: Tables, st: seq<Level>, h: nat, k: nat, next: nat)
    requires h + 1 < |st| && Blank(tabs, st, h, k, next)
    requires forall stream :: InNode(stream, st[|st| - 1]) ==> Rev(k, stream) < next
    ensures Blank(tabs, st[..|st| - 1], h, k, next)
  {
    var st' := st[..|st| - 1];
    forall stream | InNode(stream, st'[h]) && Rev(k, stream) >= next
        && !(h + 1 < |st'| && InNode(stream, st'[h + 1]))
      ensures Clear(tabs, st'[h], stream)
    {
      assert Clear(tabs, st[h], stream);
    }
  }

  /** A too-wide table is not finished by codes of at most l bits below it. */
  lemma OverflowStays(env: Env, lv: Level, k: nat, code: nat)
    requires Complete(env) && Overflows(env, lv) && lv.w < k <= lv.w + env.l && k <= env.g
    requires IsCode(env.c, k, code) && lv.x < Pow2(lv.w)
    requires InNode(Rev(k, code), lv)
    ensures InNode(Rev(k, code + 1), lv)
  {
    hide Low, Shr, Rev, Pow2;
    if !InNode(Rev(k, code + 1), lv) {
      UsedBound(env, k);
      NodeDone(lv, k, code);
      var d, b := lv.w + env.l, Rev(lv.w, lv.x) + 1;
      Pow2Add(k - lv.w, d - k);
      ScaleUp(Used(env.c, k), b, Pow2(k - lv.w), Pow2(d - k));
      if k < d {
        FirstAfterUsed(env.c, k, d);
      }
    }
  }

  // ---- Moving on to the next length

  lemma NextBlank(tabs: Tables, st: seq<Level>, h: nat, k: nat, u: nat)
    requires Blank(tabs, st, h, k, u)
    ensures Blank(tabs, st, h, k + 1, 2 * u)
  {
    hide InNode, Clear, Rev;
    forall stream | InNode(stream, st[h]) && Rev(k + 1, stream) >= 2 * u
        && !(h + 1 < |st| && InNode(stream, st[h + 1]))
      ensures Clear(tabs, st[h], stream)
    {
      NextPrefix(k, stream);
    }
  }

  lemma NextDecoded(env: Env, tabs: Tables, k: nat, u: nat)
    requires Complete(env) && Decoded(env, tabs, k, u)
    ensures Decoded(env, tabs, k + 1, 2 * u)
  {
    hide Ref, Walk, Rev;
    forall stream | Rev(k + 1, stream) < 2 * u
      ensures Ref(env, stream).Found? && Walk(tabs, 0, env.l, 0, stream) == Ref(env, stream)
    {
      NextPrefix(k, stream);
    }
  }

  lemma NextLength(env: Env, tabs: Tables, st: seq<Level>, k: nat, bad: bool, lost: nat)
    requires Complete(env) && 1 <= k < env.g
    requires Built(env, tabs, st, k, Used(env.c, k), bad, lost) && Here(st, k, Used(env.c, k))
    ensures Built(env, tabs, st, k + 1, First(env.c, k + 1), bad, lost)
    ensures Here(st, k + 1, First(env.c, k + 1))
  {
    hide Blank, Decoded, Stack, Sealed, Stuck, Narrow, InNode, Aligned;
    var u, next := Used(env.c, k), k + 1;
    var first := First(env.c, next);
    assert first == 2 * u;
    forall h | 0 <= h < |st| ensures Blank(tabs, st, h, next, first) {
      NextBlank(tabs, st, h, k, u);
    }
    if !bad {
      NextDecoded(env, tabs, k, u);
    }
    AlignedDouble(env, st[|st| - 1], k, u);
    assert Rev(next, 2 * u) == Rev(k, u);
  }

  lemma AlignedDouble(env: Env, lv: Level, k: nat, u: nat)
    requires Aligned(env, lv, k, u)
    ensures Aligned(env, lv, k + 1, 2 * u)
  {
    var m := if lv.n < env.l then lv.n else env.l;
    if k + 1 > lv.w + m {
      var d := k - lv.w - m;
      ShrLow(u, d);
      Assoc(2, Shr(u, d), Pow2(d));
      Assoc(Shr(u, d), 2, Pow2(d));
      ShrLowUnique(2 * u, d + 1, Shr(u, d), 0);
    }
  }
}
