/** The loop of huft_build that assigns codes in order of length and fills the tables. */
module HuffmanLoop {
  import opened Bits
  import opened Canonical
  import opened HuffmanTables
  import opened HuffmanSteps
  import opened HuffmanBuild

  // ---- One code: fill its slots, go on to the next code, close finished tables

  ghost predicate Placing(env: Env, wk: Work, tr: Trace, k: nat, code: nat) {
    Opening(env, wk, tr, k, code) && k <= wk.w + env.l && Current(wk, tr.st)
  }

  /** After the slots of `code` are filled, until the next code is below the top table. */
  ghost predicate Closing(env: Env, wk: Work, tr: Trace, k: nat, code: nat) {
    && Complete(env) && tr.st != [] && Concrete(env.l, wk, tr.st) && Sized(env.l, env.g, wk.tabs)
    && Built(env, wk.tabs, tr.st, k, code + 1, tr.bad, tr.lost) && Here(tr.st, k, code)
    && IsCode(env.c, k, code) && code < Pow2(k)
    && (k <= wk.w + env.l ==> Current(wk, tr.st))
    && Tracked(env, tr.st, k, code + 1, tr.bad, 1)
    && (!tr.bad && Wide(env.l, tr.st) ==> k <= wk.w + env.l)
  }

  lemma NoneLeftHere(env: Env, st: seq<Level>, k: nat, code: nat, bad: bool)
    requires Complete(env) && st != [] && st[|st| - 1].w == (|st| - 1) * env.l
    requires Tracked(env, st, k, code, bad, |st|) && k <= st[|st| - 1].w + env.l
    ensures Tracked(env, st, k, code + 1, bad, 1)
  {
    if !(bad || Wide(env.l, st)) {
      forall h | |st| <= h ensures !Violates(env, k, code, h) {
        MulMonotone(|st|, h, env.l);
        Distribute(|st| - 1, 1, env.l);
      }
    }
  }

  lemma FillStep(env: Env, wk: Work, tr: Trace, k: nat, code: nat, table: seq<Entry>)
    requires Placing(env, wk, tr, k, code) && wk.w >= 0
    requires |table| == |wk.tabs[wk.q]|
    requires forall j :: 0 <= j < |table| ==>
      (table[j] == if Hit(k, code, tr.st[|tr.st| - 1], j) then Code(LeafOf(env, k, code), k - wk.w)
        else wk.tabs[wk.q][j])
    ensures Closing(env, wk.(tabs := wk.tabs[wk.q := table]), tr, k, code)
  {
    hide Low, Shr, Rev, Pow2, Violates, NoneTooWide, NoneBefore, Fits, Overflows;
    var tabs' := wk.tabs[wk.q := table];
    FillFits(env, wk.tabs, tr.st, k, code, tr.bad, tr.lost);
    FillKeeps(env, wk.tabs, tabs', tr.st, k, code, tr.bad, tr.lost);
    FillSized(env.l, env.g, wk.tabs, tabs', tr.st[|tr.st| - 1], k, code, LeafOf(env, k, code));
    NoneLeftHere(env, tr.st, k, code, tr.bad);
  }

  /** The root is never closed, nor a table that is too wide. */
  lemma MayPop(env: Env, wk: Work, tr: Trace, k: nat, code: nat)
    requires Closing(env, wk, tr, k, code) && !Here(tr.st, k, code + 1)
    ensures |tr.st| >= 2 && (tr.bad || !Wide(env.l, tr.st))
  {
    hide Low, Shr, Rev, Pow2;
    var st := tr.st;
    LowNone(Rev(k, code + 1));
    if !tr.bad && Wide(env.l, st) {
      OverflowStays(env, st[|st| - 1], k, code);
    }
  }

  lemma PopTracked(env: Env, st: seq<Level>, k: nat, code: nat, bad: bool)
    requires Complete(env) && |st| >= 2 && Tracked(env, st, k, code, bad, 1)
    requires bad || (!Wide(env.l, st) && Narrow(env, st))
    ensures Tracked(env, st[..|st| - 1], k, code, bad, 1)
    ensures !bad ==> !Wide(env.l, st[..|st| - 1])
  {
    var st' := st[..|st| - 1];
    assert |st'| >= 2 ==> st'[|st'| - 1] == st[|st| - 2];
  }

  lemma PopStep(env: Env, wk: Work, tr: Trace, k: nat, code: nat)
    requires Closing(env, wk, tr, k, code) && !Here(tr.st, k, code + 1)
    ensures wk.h >= 1
    ensures Closing(env, wk.(h := wk.h - 1, w := wk.w - env.l), tr.(st := tr.st[..wk.h]), k, code)
  {
    hide Low, Shr, Rev, Pow2, Violates, NoneTooWide, NoneBefore, Fits, Overflows;
    var st := tr.st;
    MayPop(env, wk, tr, k, code);
    PopKeeps(env, wk.tabs, st, k, code, tr.bad, tr.lost);
    PopTracked(env, st, k, code + 1, tr.bad);
    assert Linked(env.l, wk.tabs, st[|st| - 2], st[|st| - 1]);
    var st' := st[..wk.h];
    assert st'[|st'| - 1] == st[|st| - 2];
    assert Concrete(env.l, wk.(h := wk.h - 1, w := wk.w - env.l), st');
  }

  /** The next code is below the same table, so it is not the first one there. */
  lemma NotFirst(lv: Level, k: nat, code: nat)
    requires 0 < lv.w < k && code < Pow2(k) && lv.x < Pow2(lv.w)
    requires InNode(Rev(k, code), lv) && InNode(Rev(k, code + 1), lv)
    ensures Low(code + 1, k - lv.w) != 0
  {
    var d := k - lv.w;
    if Low(code + 1, d) == 0 {
      CodeInNode(k, code, lv);
      RevLow(k, lv.w, code + 1);
      ShrBound(code, d, lv.w);
      NextBlock(code, d);
      RevRev(lv.w, lv.x);
      RevNext(lv.w, Shr(code, d));
    }
  }

  lemma RevNext(w: nat, b: nat)
    requires 0 < w && b < Pow2(w)
    ensures Rev(w, b + 1) != Rev(w, b)
  {
    var next := if b + 1 < Pow2(w) then b + 1 else 0;
    RevMod(w, b + 1);
    if b + 1 < Pow2(w) {
      LowSmall(b + 1, w);
    } else {
      ShrLowUnique(b + 1, w, 1, 0);
    }
    Pow2Monotone(0, w);
    RevRev(w, next);
    RevRev(w, b);
  }

  lemma NextBlock(code: nat, d: nat)
    requires Low(code + 1, d) == 0
    ensures Shr(code + 1, d) == Shr(code, d) + 1
  {
    var p, q, r := Pow2(d), Shr(code, d), Low(code, d);
    ShrLow(code, d);
    if r + 1 < p {
      ShrLowUnique(code + 1, d, q, r + 1);
    } else {
      Distribute(q, 1, p);
      ShrLowUnique(code + 1, d, q + 1, 0);
    }
  }

  lemma ClosedStep(env: Env, wk: Work, tr: Trace, k: nat, code: nat)
    requires Closing(env, wk, tr, k, code) && Here(tr.st, k, code + 1)
    ensures Working(env, wk, tr, k, code + 1) && Begun(tr.st, k, code + 1)
  {
    hide Low, Shr, Rev, Pow2;
    var st, top := tr.st, |tr.st| - 1;
    forall h | 1 <= h < |st| ensures st[h].w < k && Low(code + 1, k - st[h].w) != 0 {
      DepthsGrow(env, wk.tabs, st, h, top);
      NodesNest(env, wk.tabs, st, h, top, Rev(k, code));
      NodesNest(env, wk.tabs, st, h, top, Rev(k, code + 1));
      NotFirst(st[h], k, code);
    }
  }

  lemma DepthsGrow(env: Env, tabs: Tables, st: seq<Level>, h: nat, top: nat)
    requires Complete(env) && Stack(env, tabs, st) && 1 <= h <= top < |st|
    ensures 0 < st[h].w <= st[top].w
  {
    MulMonotone(h, top, env.l);
    MulMonotone(1, h, env.l);
  }

  method PlaceCode(wk0: Work, l: nat, k: nat, i: nat, leaf: Leaf, ghost env: Env, ghost tr0: Trace, ghost code: nat)
    returns (wk: Work, i': nat, ghost tr: Trace)
    requires l == env.l && i == Rev(k, code) && Placing(env, wk0, tr0, k, code) && leaf == LeafOf(env, k, code)
    ensures Working(env, wk, tr, k, code + 1) && Begun(tr.st, k, code + 1) && tr.st != []
    ensures Tracked(env, tr.st, k, code + 1, tr.bad, 1) && i' == Rev(k, code + 1)
  {
    hide Low, Shr, Rev, Pow2;
    FillFits(env, wk0.tabs, tr0.st, k, code, tr0.bad, tr0.lost);
    var w := wk0.w;
    RevBound(k, code);
    ShrBound(i, w, k - w);
    var table := FillSlots(wk0.tabs[wk0.q], wk0.z, Shr(i, w), k - w, Code(leaf, k - w));
    FillStep(env, wk0, tr0, k, code, table);
    wk, tr := wk0.(tabs := wk0.tabs[wk0.q := table]), tr0;
    i' := BackwardIncrement(i, k, code);
    wk, tr := CloseTables(wk, l, i', k, env, tr, code);
  }

  method CloseTables(wk0: Work, l: nat, i: nat, ghost k: nat, ghost env: Env, ghost tr0: Trace, ghost code: nat)
    returns (wk: Work, ghost tr: Trace)
    requires l == env.l && i == Rev(k, code + 1) && Closing(env, wk0, tr0, k, code)
    ensures Working(env, wk, tr, k, code + 1) && Begun(tr.st, k, code + 1) && tr.st != []
    ensures Tracked(env, tr.st, k, code + 1, tr.bad, 1)
  {
    hide Low, Shr, Rev, Pow2;
    wk, tr := wk0, tr0;
    while Low(i, wk.w) != wk.x[wk.h]
      invariant Closing(env, wk, tr, k, code)
      decreases wk.h
    {
      PopStep(env, wk, tr, k, code);
      tr := tr.(st := tr.st[..wk.h]);
      wk := wk.(h := wk.h - 1, w := wk.w - l);
    }
    ClosedStep(env, wk, tr, k, code);
  }

  // ---- All codes

  const N_MAX: nat := 288

  /** The table entry for the p-th code: symbols below s stand for themselves (256 ends the
      block), the others have a base value in d and extra bits in e. Reading the lists out of
      bounds gives `wild`. */
  function EntryFor(v: seq<nat>, n: nat, s: nat, d: seq<nat>, e: seq<nat>, wild: Leaf, p: nat): Leaf
    requires n <= |v|
  {
    if p >= n then Leaf(99, 0)
    else if v[p] < s then Leaf(if v[p] < 256 then 16 else 15, v[p])
    else if v[p] - s < |d| && v[p] - s < |e| then Leaf(e[v[p] - s], d[v[p] - s])
    else wild
  }

  ghost predicate Running(env: Env, wk: Work, tr: Trace, k: nat, code: nat) {
    && Working(env, wk, tr, k, code) && Begun(tr.st, k, code)
    && Tracked(env, tr.st, k, code, tr.bad, 1)
  }

  lemma RunOpens(env: Env, wk: Work, tr: Trace, k: nat, code: nat)
    requires Running(env, wk, tr, k, code) && IsCode(env.c, k, code)
    ensures Opening(env, wk, tr, k, code)
  {
    if tr.st != [] {
      BegunTracked(env, wk.tabs, tr.st, k, code, tr.bad);
    }
  }

  lemma RunStarts(env: Env, wk: Work, k: nat)
    requires Complete(env) && 1 <= k <= env.l && forall j :: 1 <= j < k ==> env.c[j] == 0
    requires |wk.u| == BMAX && |wk.x| == BMAX + 1 && wk.x[0] == 0
    requires wk.tabs == [] && wk.h == -1 && wk.w == 0 - env.l
    ensures First(env.c, k) == 0 && Off(env.c, k) == 0 && Running(env, wk, Trace([], false, 0), k, 0)
  {
    FirstIsZero(env.c, k);
  }

  lemma {:induction false} FirstIsZero(c: seq<nat>, k: nat)
    requires 1 <= k <= |c| && forall j :: 1 <= j < k ==> c[j] == 0
    ensures First(c, k) == 0 && Off(c, k) == 0
  {
    if k > 1 { FirstIsZero(c, k - 1); }
  }

  lemma DoubleNotFirst(u: nat, d: nat)
    requires Low(u, d) != 0
    ensures Low(2 * u, d + 1) != 0
  {
    ShrLow(u, d);
    Assoc(2, Shr(u, d), Pow2(d));
    Assoc(Shr(u, d), 2, Pow2(d));
    ShrLowUnique(2 * u, d + 1, Shr(u, d), 2 * Low(u, d));
  }

  lemma BegunNext(st: seq<Level>, k: nat, u: nat)
    requires Begun(st, k, u)
    ensures Begun(st, k + 1, 2 * u)
  {
    forall h | 1 <= h < |st| ensures st[h].w < k + 1 && Low(2 * u, k + 1 - st[h].w) != 0 {
      DoubleNotFirst(u, k - st[h].w);
    }
  }

  lemma TrackedNext(env: Env, st: seq<Level>, k: nat, bad: bool)
    requires Complete(env) && 1 <= k < env.g && Tracked(env, st, k, Used(env.c, k), bad, 1)
    ensures Tracked(env, st, k + 1, First(env.c, k + 1), bad, 1)
  {
  }

  lemma RunNextLength(env: Env, wk: Work, tr: Trace, k: nat)
    requires Complete(env) && 1 <= k < env.g && tr.st != [] && Running(env, wk, tr, k, Used(env.c, k))
    ensures Running(env, wk, tr, k + 1, First(env.c, k + 1))
    ensures Rev(k + 1, First(env.c, k + 1)) == Rev(k, Used(env.c, k))
  {
    hide Built, Tracked, Begun;
    var u := Used(env.c, k);
    NextLength(env, wk.tabs, tr.st, k, tr.bad, tr.lost);
    BegunNext(tr.st, k, u);
    TrackedNext(env, tr.st, k, tr.bad);
    assert Rev(k + 1, 2 * u) == Rev(k, u);
  }

  /** When all codes are placed only the root is open. */
  lemma OnlyRootLeft(env: Env, wk: Work, tr: Trace)
    requires Complete(env) && tr.st != [] && Running(env, wk, tr, env.g, Used(env.c, env.g))
    ensures |tr.st| == 1
  {
    if |tr.st| > 1 {
      var w := tr.st[1].w;
      Pow2Add(w, env.g - w);
      ShrLowUnique(Pow2(env.g), env.g - w, Pow2(w), 0);
    }
  }

  ghost predicate DecodesAll(env: Env, tabs: Tables)
    requires Complete(env)
  {
    forall stream :: Ref(env, stream).Found? && Walk(tabs, 0, env.l, 0, stream) == Ref(env, stream)
  }

  lemma RunEnds(env: Env, wk: Work, tr: Trace)
    requires Complete(env) && tr.st != [] && Running(env, wk, tr, env.g, Used(env.c, env.g))
    ensures Sized(env.l, env.g, wk.tabs)
    ensures NoneTooWide(env) <==> DecodesAll(env, wk.tabs)
    ensures !NoneTooWide(env) ==> Walk(wk.tabs, 0, env.l, 0, tr.lost) == Stray
  {
    OnlyRootLeft(env, wk, tr);
    hide Ref;
    hide Walk;
    if tr.bad {
      StuckIsStray(env.l, wk.tabs, 0, env.l, 0, tr.lost);
      assert !(Ref(env, tr.lost).Found? && Walk(wk.tabs, 0, env.l, 0, tr.lost) == Ref(env, tr.lost));
    } else {
      AllDecoded(env, wk.tabs);
      assert NoneTooWide(env) by { NoneAtAll(env); }
    }
  }

  lemma AllDecoded(env: Env, tabs: Tables)
    requires Complete(env) && Decoded(env, tabs, env.g, Pow2(env.g))
    ensures DecodesAll(env, tabs)
  {
    hide Ref;
    hide Walk;
    forall stream ensures Ref(env, stream).Found? && Walk(tabs, 0, env.l, 0, stream) == Ref(env, stream) {
      RevBound(env.g, stream);
    }
  }

  lemma NoneAtAll(env: Env)
    requires Complete(env) && NoneBefore(env, env.g, Used(env.c, env.g))
    ensures NoneTooWide(env)
  {
    forall k: nat, code: nat, h: nat ensures !Violates(env, k, code, h) {
      assert k < env.g || (k == env.g && code < Used(env.c, env.g)) ==> !Violates(env, k, code, h);
    }
  }

  method NextCode(wk0: Work, c: seq<nat>, g: nat, l: nat, k: nat, a: nat, i0: nat, leaf: Leaf,
                  ghost env: Env, ghost tr0: Trace, ghost code: nat)
    returns (wk: Work, i: nat, ghost tr: Trace)
    requires c == env.c && g == env.g && l == env.l && Running(env, wk0, tr0, k, code) && IsCode(c, k, code)
    requires a + 1 == Used(c, k) - code && i0 == Rev(k, code) && leaf == LeafOf(env, k, code)
    ensures Running(env, wk, tr, k, code + 1) && tr.st != [] && i == Rev(k, code + 1)
  {
    hide Low, Shr, Rev, Pow2;
    RunOpens(env, wk0, tr0, k, code);
    wk, tr := OpenTables(wk0, c, g, l, k, a, i0, env, tr0, code);
    wk, i, tr := PlaceCode(wk, l, k, i0, leaf, env, tr, code);
  }

  /** The codes of k bits, from the first. */
  method CodesOfLength(wk0: Work, c: seq<nat>, g: nat, l: nat, k: nat, i0: nat, p0: nat,
                       v: seq<nat>, n: nat, s: nat, d: seq<nat>, e: seq<nat>, wild: Leaf,
                       ghost env: Env, ghost tr0: Trace)
    returns (wk: Work, i: nat, p: nat, ghost tr: Trace)
    requires c == env.c && g == env.g && l == env.l && n <= |v| && Complete(env) && 1 <= k <= g
    requires Running(env, wk0, tr0, k, First(c, k)) && i0 == Rev(k, First(c, k))
    requires p0 == if Off(c, k) < n then Off(c, k) else n
    requires forall j :: 0 <= j < |env.leaves| ==> env.leaves[j] == EntryFor(v, n, s, d, e, wild, j)
    ensures Running(env, wk, tr, k, Used(c, k)) && i == Rev(k, Used(c, k))
    ensures p == if Off(c, k) + c[k] < n then Off(c, k) + c[k] else n
    ensures c[k] > 0 || tr0.st != [] ==> tr.st != []
  {
    hide Running;
    wk, i, p, tr := wk0, i0, p0, tr0;
    var a := c[k];
    ghost var code := First(c, k);
    OffMonotone(c, k, g + 1);
    while a > 0
      invariant a <= c[k] && code == Used(c, k) - a
      invariant Running(env, wk, tr, k, code) && i == Rev(k, code)
      invariant p == if Off(c, k) + (code - First(c, k)) < n then Off(c, k) + (code - First(c, k)) else n
      invariant a < c[k] || tr0.st != [] ==> tr.st != []
    {
      a := a - 1;
      var leaf := EntryFor(v, n, s, d, e, wild, p);
      wk, i, tr := NextCode(wk, c, g, l, k, a, i, leaf, env, tr, code);
      p := if p >= n then p else p + 1;
      code := code + 1;
    }
  }

  method AssignCodes(c: seq<nat>, g: nat, l: nat, kmin: nat, x0: seq<nat>,
                     v: seq<nat>, n: nat, s: nat, d: seq<nat>, e: seq<nat>, wild: Leaf, ghost env: Env)
    returns (tabs: Tables, ghost lost: nat)
    requires c == env.c && g == env.g && l == env.l && n <= |v| && Complete(env) && |x0| == BMAX + 1
    requires 1 <= kmin <= l && c[kmin] > 0 && forall j :: 1 <= j < kmin ==> c[j] == 0
    requires forall j :: 0 <= j < |env.leaves| ==> env.leaves[j] == EntryFor(v, n, s, d, e, wild, j)
    ensures Sized(l, g, tabs)
    ensures NoneTooWide(env) <==> DecodesAll(env, tabs)
    ensures !NoneTooWide(env) ==> Walk(tabs, 0, l, 0, lost) == Stray
  {
    hide Running;
    var i, p, k := 0, 0, kmin;
    var wk := Work([], -1, 0 - l, seq(BMAX, _ => 0), x0[0 := 0], 0, 0);
    ghost var tr := Trace([], false, 0);
    RunStarts(env, wk, k);
    RevZero(k);
    while k <= g
      invariant kmin <= k <= g + 1 && (k > kmin ==> tr.st != [])
      invariant k <= g ==> Running(env, wk, tr, k, First(c, k)) && i == Rev(k, First(c, k))
      invariant k <= g ==> p == if Off(c, k) < n then Off(c, k) else n
      invariant k == g + 1 ==> Running(env, wk, tr, g, Used(c, g))
    {
      wk, i, p, tr := CodesOfLength(wk, c, g, l, k, i, p, v, n, s, d, e, wild, env, tr);
      if k < g {
        RunNextLength(env, wk, tr, k);
      }
      k := k + 1;
    }
    RunEnds(env, wk, tr);
    tabs, lost := wk.tabs, tr.lost;
  }
}
