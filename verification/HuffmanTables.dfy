/** The multi-level decoding tables of inflate, the walk the decoder makes through them,
    and the invariant that table construction keeps. */
module HuffmanTables {
  import opened Bits
  import opened Canonical

  /** What a table entry says about a symbol: extra bits or operation, and value. */
  datatype Leaf = Leaf(e: nat, n: nat)

  /** A table slot: never written, a code of b bits, or "drop b bits, then use the next
      `width` bits as an index into table t". */
  datatype Entry = Unset | Code(leaf: Leaf, b: nat) | Sub(b: nat, width: nat, t: nat)

  type Tables = seq<seq<Entry>>

  datatype Lookup = Stray | Found(leaf: Leaf, bits: nat)

  /** Follow the stream from table t, indexed by n bits, after w bits have been dropped. */
  function Walk(tabs: Tables, t: nat, n: nat, w: nat, stream: nat): Lookup
    decreases |tabs| - t
  {
    var j := Low(Shr(stream, w), n);
    if t >= |tabs| || j >= |tabs[t]| then Stray
    else match tabs[t][j]
      case Unset => Stray
      case Code(leaf, b) => Found(leaf, w + b)
      case Sub(b, width, t') =>
        if t < t' then Walk(tabs, t', width, w + b, stream) else Stray
  }

  /** Tables whose walk never gets lost. */
  ghost predicate Total(tabs: Tables, l: nat) {
    forall stream :: Walk(tabs, 0, l, 0, stream).Found?
  }

  /** An entry drops at least one bit, and no more than its table was indexed with. There are
      subtables only when the longest code, g bits, is longer than the root index. */
  ghost predicate EntrySized(l: nat, g: nat, tabs: Tables, t: nat, e: Entry)
    requires t < |tabs|
  {
    match e
    case Unset => true
    case Code(_, b) => 1 <= b <= l && Pow2(b) <= |tabs[t]|
    case Sub(b, width, t') =>
      && 1 <= b <= l && Pow2(b) <= |tabs[t]| && l < g
      && t < t' < |tabs| && |tabs[t']| == Pow2(width) && width <= g
  }

  ghost predicate Sized(l: nat, g: nat, tabs: Tables) {
    forall t, j :: 0 <= t < |tabs| && 0 <= j < |tabs[t]| ==> EntrySized(l, g, tabs, t, tabs[t][j])
  }

  /** A code to build tables for: counts per length, longest length, root index bits, and
      what each code stands for, in order of code. */
  datatype Env = Env(c: seq<nat>, g: nat, l: nat, leaves: seq<Leaf>)

  ghost predicate Complete(env: Env) {
    && |env.c| == BMAX + 1
    && 1 <= env.l <= env.g <= BMAX
    && env.c[env.g] > 0
    && (forall j :: env.g < j < |env.c| ==> env.c[j] == 0)
    && Used(env.c, env.g) == Pow2(env.g)
    && |env.leaves| == Off(env.c, env.g + 1)
  }

  function LeafOf(env: Env, k: nat, code: nat): Leaf
    requires |env.c| == BMAX + 1 && IsCode(env.c, k, code) && k <= env.g
    requires env.g <= BMAX && |env.leaves| == Off(env.c, env.g + 1)
  {
    OffMonotone(env.c, k, env.g + 1);
    env.leaves[Off(env.c, k) + (code - First(env.c, k))]
  }

  /** What one-bit-at-a-time decoding finds at the start of the stream. */
  ghost function Ref(env: Env, stream: nat): Lookup
    requires Complete(env)
  {
    var k := SlowLength(env.c, stream, 1);
    if k == 0 || k > env.g then Stray else Found(LeafOf(env, k, Rev(k, stream)), k)
  }

  lemma RefFinds(env: Env, stream: nat, k: nat)
    requires Complete(env) && IsCode(env.c, k, Rev(k, stream)) && k <= env.g
    ensures Ref(env, stream) == Found(LeafOf(env, k, Rev(k, stream)), k)
  {
    SlowLengthFinds(env.c, stream, 1, k);
  }

  // ---- Tables only ever gain entries

  ghost predicate Extends(old_: Tables, new_: Tables) {
    && |old_| <= |new_|
    && (forall t :: 0 <= t < |old_| ==> |old_[t]| == |new_[t]|)
    && (forall t, j :: 0 <= t < |old_| && 0 <= j < |old_[t]| && old_[t][j] != Unset
          ==> new_[t][j] == old_[t][j])
  }

  lemma {:induction false} WalkExtends(a: Tables, b: Tables, t: nat, n: nat, w: nat, stream: nat)
    requires Extends(a, b) && Walk(a, t, n, w, stream) != Stray
    ensures Walk(b, t, n, w, stream) == Walk(a, t, n, w, stream)
    decreases |a| - t
  {
    var j := Low(Shr(stream, w), n);
    if a[t][j].Sub? {
      WalkExtends(a, b, a[t][j].t, a[t][j].width, w + a[t][j].b, stream);
    }
  }

  /** An index past the first 2^l slots whose low l bits select a pointer stays unset. */
  ghost predicate Sealed(l: nat, tabs: Tables) {
    forall t, j :: 0 <= t < |tabs| && Pow2(l) <= j < |tabs[t]| && tabs[t][j] != Unset
      ==> !tabs[t][Low(j, l)].Sub?
  }

  /** The walk ends in such a slot. */
  ghost predicate Stuck(l: nat, tabs: Tables, t: nat, n: nat, w: nat, stream: nat)
    decreases |tabs| - t
  {
    var j := Low(Shr(stream, w), n);
    t < |tabs| && j < |tabs[t]| &&
    match tabs[t][j]
      case Unset => Pow2(l) <= j && tabs[t][Low(j, l)].Sub?
      case Code(_, _) => false
      case Sub(b, width, t') => t < t' && Stuck(l, tabs, t', width, w + b, stream)
  }

  lemma {:induction false} StuckStays(l: nat, a: Tables, b: Tables, t: nat, n: nat, w: nat, stream: nat)
    requires Extends(a, b) && Sealed(l, b) && Stuck(l, a, t, n, w, stream)
    ensures Stuck(l, b, t, n, w, stream)
    decreases |a| - t
  {
    var j := Low(Shr(stream, w), n);
    if a[t][j].Sub? {
      StuckStays(l, a, b, a[t][j].t, a[t][j].width, w + a[t][j].b, stream);
    }
  }

  lemma {:induction false} StuckIsStray(l: nat, tabs: Tables, t: nat, n: nat, w: nat, stream: nat)
    requires Stuck(l, tabs, t, n, w, stream)
    ensures Walk(tabs, t, n, w, stream) == Stray
    decreases |tabs| - t
  {
    var j := Low(Shr(stream, w), n);
    if tabs[t][j].Sub? {
      StuckIsStray(l, tabs, tabs[t][j].t, tabs[t][j].width, w + tabs[t][j].b, stream);
    }
  }

  // ---- The stack of open tables

  /** Table t, of 2^n slots, for the streams whose first w bits (lowest first) are x. */
  datatype Level = Level(t: nat, n: nat, w: nat, x: nat)

  ghost predicate InNode(stream: nat, lv: Level) {
    Low(stream, lv.w) == lv.x
  }

  /** All codes under this level fit in its 2^n slots, or it has the full l bits. */
  ghost predicate Fits(env: Env, lv: Level)
    requires |env.c| == BMAX + 1 && env.g <= BMAX
  {
    || lv.n >= env.l
    || lv.w + lv.n >= env.g
    || (lv.w + lv.n >= 1 && Used(env.c, lv.w + lv.n) >= (Rev(lv.w, lv.x) + 1) * Pow2(lv.n))
  }

  /** A table below the root with more than l index bits has codes that need yet another
      table. */
  ghost predicate Overflows(env: Env, lv: Level)
    requires |env.c| == BMAX + 1 && env.g <= BMAX
  {
    lv.w + env.l < env.g && 1 <= lv.w + env.l &&
    Used(env.c, lv.w + env.l) < (Rev(lv.w, lv.x) + 1) * Pow2(env.l)
  }

  ghost predicate LevelOk(env: Env, tabs: Tables, lv: Level)
    requires |env.c| == BMAX + 1 && env.g <= BMAX
  {
    && lv.t < |tabs| && |tabs[lv.t]| == Pow2(lv.n)
    && lv.w < env.g && lv.x < Pow2(lv.w)
    && Fits(env, lv)
    && (lv.w > 0 && lv.n > env.l ==> Overflows(env, lv))
  }

  ghost predicate Linked(l: nat, tabs: Tables, p: Level, q: Level) {
    && p.t < q.t && p.t < |tabs|
    && q.w == p.w + l && p.n >= l
    && Low(q.x, p.w) == p.x
    && Shr(q.x, p.w) < |tabs[p.t]|
    && tabs[p.t][Shr(q.x, p.w)] == Sub(l, q.n, q.t)
  }

  ghost predicate Stack(env: Env, tabs: Tables, st: seq<Level>)
    requires |env.c| == BMAX + 1 && env.g <= BMAX
  {
    && |st| > 0
    && st[0].t == 0 && st[0].w == 0 && st[0].n >= env.l
    && (forall h :: 0 <= h < |st| ==> LevelOk(env, tabs, st[h]) && st[h].w == h * env.l)
    && (forall h {:trigger st[h]} :: 0 < h < |st| ==> Linked(env.l, tabs, st[h - 1], st[h]))
  }

  lemma {:induction false} TablesIncrease(env: Env, tabs: Tables, st: seq<Level>, h: nat, h': nat)
    requires |env.c| == BMAX + 1 && env.g <= BMAX && Stack(env, tabs, st) && h < h' < |st|
    ensures st[h].t < st[h'].t
  {
    assert Linked(env.l, tabs, st[h' - 1], st[h']);
    if h < h' - 1 {
      TablesIncrease(env, tabs, st, h, h' - 1);
    }
  }

  /** Below an open table is below every table under it on the stack. */
  lemma {:induction false} NodesNest(env: Env, tabs: Tables, st: seq<Level>, h: nat, h': nat, stream: nat)
    requires |env.c| == BMAX + 1 && env.g <= BMAX && Stack(env, tabs, st) && h <= h' < |st|
    requires InNode(stream, st[h'])
    ensures InNode(stream, st[h])
    decreases h'
  {
    if h < h' {
      assert Linked(env.l, tabs, st[h' - 1], st[h']);
      LowLow(stream, st[h' - 1].w, st[h'].w);
      NodesNest(env, tabs, st, h, h' - 1, stream);
    }
  }

  /** The number of bits the decoder indexes the h-th open table with. */
  ghost function Width(env: Env, st: seq<Level>, h: nat): nat
    requires h < |st|
  {
    if h == 0 then env.l else st[h].n
  }

  /** No table that already has a subtable is too wide. */
  ghost predicate Narrow(env: Env, st: seq<Level>) {
    forall h {:trigger st[h]} :: 0 < h < |st| - 1 ==> st[h].n == env.l
  }

  /** The walk goes through the pointer from a table to the next open one. */
  lemma WalkStep(env: Env, tabs: Tables, st: seq<Level>, h: nat, stream: nat)
    requires |env.c| == BMAX + 1 && env.g <= BMAX && Stack(env, tabs, st) && Narrow(env, st)
    requires 0 < h < |st| && InNode(stream, st[h])
    ensures st[h - 1].t < |tabs| && Low(Shr(stream, st[h - 1].w), Width(env, st, h - 1)) < |tabs[st[h - 1].t]|
    ensures tabs[st[h - 1].t][Low(Shr(stream, st[h - 1].w), Width(env, st, h - 1))]
         == Sub(env.l, st[h].n, st[h].t)
    ensures st[h - 1].t < st[h].t && st[h].w == st[h - 1].w + env.l
  {
    assert Linked(env.l, tabs, st[h - 1], st[h]);
    ShiftMask(stream, st[h - 1].w, env.l);
  }

  lemma {:induction false} WalkDown(env: Env, tabs: Tables, st: seq<Level>, h: nat, stream: nat)
    requires |env.c| == BMAX + 1 && env.g <= BMAX && Stack(env, tabs, st) && Narrow(env, st)
    requires h < |st| && InNode(stream, st[h])
    ensures Walk(tabs, 0, env.l, 0, stream) == Walk(tabs, st[h].t, Width(env, st, h), st[h].w, stream)
    ensures Stuck(env.l, tabs, 0, env.l, 0, stream)
        <==> Stuck(env.l, tabs, st[h].t, Width(env, st, h), st[h].w, stream)
  {
    if h > 0 {
      WalkStep(env, tabs, st, h, stream);
      NodesNest(env, tabs, st, h - 1, h, stream);
      WalkDown(env, tabs, st, h - 1, stream);
      hide Stack, Narrow, Low, Shr, Pow2, InNode;
    } else {
      hide Walk, Stuck, Narrow, Low, Shr, Pow2;
    }
  }
}
