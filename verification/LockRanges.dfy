/** POSIX record locks of one owner on one file, as a list of ranges and as a map from bytes
    to lock types, and what editing the list has to keep. */
module LockRanges {

  datatype Kind = Read | Write | Unlock

  /** A lock on bytes start to end inclusive. `id` names the file_lock structure; FLOCK-style
      locks have posix false and owner 0. */
  datatype Lock = Lock(id: nat, posix: bool, owner: nat, kind: Kind, start: int, end: int)

  datatype Request = Request(owner: nat, kind: Kind, start: int, end: int)

  ghost predicate Covers(l: Lock, x: int) {
    l.start <= x <= l.end
  }

  /** Byte x is locked with type k. */
  ghost predicate Has(s: seq<Lock>, x: int, k: Kind) {
    exists l :: l in s && Covers(l, x) && l.kind == k
  }

  /** a lies before b, with a gap if they have the same type. */
  ghost predicate Before(a: Lock, b: Lock) {
    a.end < b.start && (a.kind == b.kind ==> a.end + 1 < b.start)
  }

  ghost predicate Proper(l: Lock, owner: nat) {
    l.posix && l.owner == owner && !l.kind.Unlock? && l.start <= l.end
  }

  /** Sorted, disjoint, and fully merged. */
  ghost predicate Normal(s: seq<Lock>, owner: nat) {
    && (forall i :: 0 <= i < |s| ==> Proper(s[i], owner))
    && (forall i, j :: 0 <= i < j < |s| ==> Before(s[i], s[j]))
  }

  /** Each byte has at most one type. */
  lemma OneKind(s: seq<Lock>, owner: nat, x: int, k1: Kind, k2: Kind)
    requires Normal(s, owner) && Has(s, x, k1) && Has(s, x, k2)
    ensures k1 == k2
  {
    var l1 :| l1 in s && Covers(l1, x) && l1.kind == k1;
    var l2 :| l2 in s && Covers(l2, x) && l2.kind == k2;
    var i :| 0 <= i < |s| && s[i] == l1;
    var j :| 0 <= j < |s| && s[j] == l2;
    assert i < j ==> Before(s[i], s[j]);
    assert j < i ==> Before(s[j], s[i]);
  }

  lemma HasJoin(a: seq<Lock>, b: seq<Lock>, x: int, k: Kind)
    ensures Has(a + b, x, k) <==> Has(a, x, k) || Has(b, x, k)
  {
    if Has(a, x, k) {
      var l :| l in a && Covers(l, x) && l.kind == k;
      assert l in a + b;
    }
    if Has(b, x, k) {
      var l :| l in b && Covers(l, x) && l.kind == k;
      assert l in a + b;
    }
  }

  lemma HasOne(l: Lock, x: int, k: Kind)
    ensures Has([l], x, k) <==> Covers(l, x) && l.kind == k
  {
    assert l in [l];
  }

  lemma NormalJoin(a: seq<Lock>, b: seq<Lock>, owner: nat)
    requires Normal(a, owner) && Normal(b, owner)
    requires forall i, j :: 0 <= i < |a| && 0 <= j < |b| ==> Before(a[i], b[j])
    ensures Normal(a + b, owner)
  {
  }

  /** The locks as set by a request: its range overridden, the rest as before. */
  ghost predicate Overridden(s: seq<Lock>, s': seq<Lock>, r: Request) {
    forall x, k :: Has(s', x, k) <==> if r.start <= x <= r.end then k == r.kind && !k.Unlock? else Has(s, x, k)
  }

  // ---- The state in the middle of an edit

  /** Of the owner's locks, `done` have been looked at. The list now holds a (untouched, below
      the range), lf (at most one, of another type, that the range cuts from the left), c (the
      lock that has taken over the request, if any), and the rest. [cs, ce] is the range,
      grown by the locks of the same type merged so far. */
  datatype Mid = Mid(a: seq<Lock>, lf: seq<Lock>, c: seq<Lock>, cs: int, ce: int, touched: bool)

  ghost predicate MidOk(m: Mid, done: seq<Lock>, rest: seq<Lock>, r: Request) {
    && Normal(done + rest, r.owner) && r.start <= r.end
    && m.cs <= r.start && r.end <= m.ce
    && (m.c == [] ==> m.cs == r.start && m.ce == r.end)
    && Parts(m, r)
    && (forall l :: l in m.a + m.lf ==> forall f :: f in rest ==> Before(l, f))
    && (m.touched ==> forall f :: f in rest ==> f.start >= m.cs)
    && (m.lf != [] || m.c != [] ==> m.touched)
    && Meaning(m, done, r)
  }

  ghost predicate Parts(m: Mid, r: Request) {
    && Normal(m.a + m.lf, r.owner)
    && (forall l :: l in m.a ==> l.end < m.cs && (l.kind == r.kind ==> l.end + 1 < m.cs))
    && |m.lf| <= 1 && (m.lf != [] ==> m.lf[0].kind != r.kind && m.lf[0].start < m.cs <= m.lf[0].end <= m.ce)
    && |m.c| <= 1
      && (m.c != [] ==> Proper(m.c[0], r.owner) && m.c[0].kind == r.kind && m.c[0].start == m.cs && m.c[0].end == m.ce)
  }

  /** Outside the grown range the kept locks mean what those looked at meant; the growth was
      already of the requested type. */
  ghost predicate Meaning(m: Mid, done: seq<Lock>, r: Request) {
    && (forall x, k :: !(m.cs <= x <= m.ce) ==> (Has(m.a + m.lf, x, k) <==> Has(done, x, k)))
    && (forall x, k :: (m.cs <= x < r.start || r.end < x <= m.ce) ==> (Has(done, x, k) <==> k == r.kind))
  }

  // ---- Steps of an edit

  lemma EditStarts(s: seq<Lock>, r: Request)
    requires Normal(s, r.owner) && r.start <= r.end
    ensures MidOk(Mid([], [], [], r.start, r.end, false), [], s, r)
  {
    assert [] + s == s;
    assert forall x, k :: !Has([], x, k);
  }

  /** What every step knows about the lock it looks at. */
  lemma Looked(m: Mid, done: seq<Lock>, fl: Lock, rest: seq<Lock>, r: Request)
    requires MidOk(m, done, [fl] + rest, r)
    ensures Proper(fl, r.owner) && Normal((done + [fl]) + rest, r.owner) && Normal(done + [fl], r.owner)
    ensures forall f :: f in rest ==> Before(fl, f)
    ensures forall l :: l in m.a + m.lf ==> Before(l, fl) && forall f :: f in rest ==> Before(l, f)
    ensures m.touched ==> fl.start >= m.cs
    ensures forall x, k :: Has(done + [fl], x, k) <==> Has(done, x, k) || (Covers(fl, x) && fl.kind == k)
  {
    var all := done + ([fl] + rest);
    assert (done + [fl]) + rest == all;
    assert fl in [fl] + rest && forall f :: f in rest ==> f in [fl] + rest;
    assert all[|done|] == fl;
    forall f | f in rest ensures Before(fl, f) {
      var j :| 0 <= j < |rest| && rest[j] == f;
      assert all[|done| + 1 + j] == f;
    }
    forall x, k ensures Has(done + [fl], x, k) <==> Has(done, x, k) || (Covers(fl, x) && fl.kind == k) {
      HasJoin(done, [fl], x, k);
      HasOne(fl, x, k);
    }
    assert done + [fl] == all[..|done| + 1];
  }

  /** A lock below the range stays. */
  lemma StepBelow(m: Mid, done: seq<Lock>, fl: Lock, rest: seq<Lock>, r: Request)
    requires MidOk(m, done, [fl] + rest, r)
    requires fl.end < m.cs && (fl.kind == r.kind ==> fl.end + 1 < m.cs)
    ensures m.lf == [] && m.c == [] && MidOk(m.(a := m.a + [fl]), done + [fl], rest, r)
  {
    Looked(m, done, fl, rest, r);
    var m' := m.(a := m.a + [fl]);
    assert m.a + m.lf == m.a && m'.a + m'.lf == m.a + [fl];
    assert Parts(m', r);
    forall x, k ensures Has(m'.a + m'.lf, x, k) <==> Has(m.a + m.lf, x, k) || (Covers(fl, x) && fl.kind == k) {
      HasJoin(m.a, [fl], x, k);
      HasOne(fl, x, k);
    }
    assert Meaning(m', done + [fl], r);
  }

  function Min(a: int, b: int): int { if a < b then a else b }
  function Max(a: int, b: int): int { if a > b then a else b }

  /** The first lock of the same type that touches the range takes over the request. */
  lemma StepMergeFirst(m: Mid, done: seq<Lock>, fl: Lock, rest: seq<Lock>, r: Request)
    requires MidOk(m, done, [fl] + rest, r) && m.c == [] && fl.kind == r.kind
    requires fl.end >= m.cs - 1 && fl.start <= m.ce + 1
    ensures var cs, ce := Min(m.cs, fl.start), Max(m.ce, fl.end);
      MidOk(Mid(m.a, m.lf, [fl.(start := cs, end := ce)], cs, ce, true), done + [fl], rest, r)
  {
    Looked(m, done, fl, rest, r);
    var cs, ce := Min(m.cs, fl.start), Max(m.ce, fl.end);
    var m' := Mid(m.a, m.lf, [fl.(start := cs, end := ce)], cs, ce, true);
    forall l | l in m.a ensures l.end < cs && (l.kind == r.kind ==> l.end + 1 < cs) {
      assert l in m.a + m.lf;
    }
    assert Parts(m', r);
    forall x, k | cs <= x < r.start || r.end < x <= ce ensures Has(done + [fl], x, k) <==> k == r.kind {
      assert Covers(fl, x) && Has(done + [fl], x, r.kind);
      if Has(done + [fl], x, k) { OneKind(done + [fl], r.owner, x, k, r.kind); }
    }
    assert Meaning(m', done + [fl], r);
  }

  /** A further one is absorbed by the lock that has taken over. */
  lemma StepMergeMore(m: Mid, done: seq<Lock>, fl: Lock, rest: seq<Lock>, r: Request)
    requires MidOk(m, done, [fl] + rest, r) && m.c != [] && fl.kind == r.kind
    requires fl.start <= m.ce + 1
    ensures fl.start >= m.cs
    ensures var ce := Max(m.ce, fl.end);
      MidOk(m.(c := [m.c[0].(end := ce)], ce := ce), done + [fl], rest, r)
  {
    Looked(m, done, fl, rest, r);
    var ce := Max(m.ce, fl.end);
    var m' := m.(c := [m.c[0].(end := ce)], ce := ce);
    assert Parts(m', r);
    assert Meaning(m', done + [fl], r);
  }

  /** A lock of another type that sticks out to the left is to be cut. */
  lemma StepLeft(m: Mid, done: seq<Lock>, fl: Lock, rest: seq<Lock>, r: Request)
    requires MidOk(m, done, [fl] + rest, r) && fl.kind != r.kind
    requires fl.start < m.cs <= fl.end <= m.ce
    ensures m.lf == [] && m.c == [] && MidOk(m.(lf := [fl], touched := true), done + [fl], rest, r)
  {
    Looked(m, done, fl, rest, r);
    var m' := m.(lf := [fl], touched := true);
    assert m.a + m.lf == m.a && m'.a + m'.lf == m.a + [fl];
    assert Parts(m', r);
    forall x, k ensures Has(m'.a + m'.lf, x, k) <==> Has(m.a + m.lf, x, k) || (Covers(fl, x) && fl.kind == k) {
      HasJoin(m.a, [fl], x, k);
      HasOne(fl, x, k);
    }
    assert Meaning(m', done + [fl], r);
  }

  /** A lock of another type inside the range goes, or takes over the request. */
  lemma StepCovered(m: Mid, done: seq<Lock>, fl: Lock, rest: seq<Lock>, r: Request)
    requires MidOk(m, done, [fl] + rest, r) && fl.kind != r.kind && m.cs <= fl.start && fl.end <= m.ce
    ensures MidOk(m.(touched := true), done + [fl], rest, r)
    ensures m.c == [] && !r.kind.Unlock? ==>
      MidOk(m.(c := [fl.(kind := r.kind, start := m.cs, end := m.ce)], touched := true), done + [fl], rest, r)
  {
    Looked(m, done, fl, rest, r);
    var m' := m.(touched := true);
    forall x, k | m.cs <= x < r.start || r.end < x <= m.ce ensures Has(done + [fl], x, k) <==> k == r.kind {
      assert Has(done, x, r.kind) && Has(done + [fl], x, r.kind);
      if Has(done + [fl], x, k) { OneKind(done + [fl], r.owner, x, k, r.kind); }
    }
    assert Meaning(m', done + [fl], r);
  }

  // ---- The end of an edit

  /** Locks `low` below the range, the new lock if any, and locks `high` above it. */
  ghost predicate Assembled(low: seq<Lock>, c: seq<Lock>, high: seq<Lock>, cs: int, ce: int, s: seq<Lock>, r: Request) {
    && Normal(low, r.owner) && Normal(high, r.owner) && cs <= r.start <= r.end <= ce
    && (forall l :: l in low ==> l.end < cs && (l.kind == r.kind ==> l.end + 1 < cs))
    && (forall l :: l in high ==> l.start > ce && (l.kind == r.kind ==> l.start > ce + 1))
    && (forall l, f :: l in low && f in high ==> Before(l, f))
    && (if r.kind.Unlock? then c == []
      else |c| == 1 && Proper(c[0], r.owner) && c[0].kind == r.kind && c[0].start == cs && c[0].end == ce)
    && (forall x, k :: !(cs <= x <= ce) ==> (Has(s, x, k) <==> Has(low, x, k) || Has(high, x, k)))
    && (forall x, k :: (cs <= x < r.start || r.end < x <= ce) ==> (Has(s, x, k) <==> k == r.kind))
    && (r.kind.Unlock? ==> cs == r.start && ce == r.end)
  }

  lemma AssembledIsEdit(low: seq<Lock>, c: seq<Lock>, high: seq<Lock>, cs: int, ce: int, s: seq<Lock>, r: Request)
    requires Assembled(low, c, high, cs, ce, s, r)
    ensures Normal(low + c + high, r.owner) && Overridden(s, low + c + high, r)
  {
    AssembledNormal(low, c, high, cs, ce, s, r);
    forall x, k
      ensures Has(low + c + high, x, k) <==> if r.start <= x <= r.end then k == r.kind && !k.Unlock? else Has(s, x, k)
    {
      HasJoin(low + c, high, x, k);
      HasJoin(low, c, x, k);
      if c != [] { HasOne(c[0], x, k); assert c == [c[0]]; }
    }
  }

  lemma AssembledNormal(low: seq<Lock>, c: seq<Lock>, high: seq<Lock>, cs: int, ce: int, s: seq<Lock>, r: Request)
    requires Assembled(low, c, high, cs, ce, s, r)
    ensures Normal(low + c + high, r.owner)
  {
    forall i | 0 <= i < |low| ensures low[i] in low {}
    forall i | 0 <= i < |high| ensures high[i] in high {}
    NormalJoin(low, c, r.owner);
    NormalJoin(low + c, high, r.owner);
  }

  function Cut(lf: seq<Lock>, cs: int): seq<Lock> {
    if lf == [] then [] else [lf[0].(end := cs - 1)]
  }

  /** Cutting the left lock changes nothing below the range. */
  lemma CutLeft(m: Mid, done: seq<Lock>, rest: seq<Lock>, r: Request)
    requires MidOk(m, done, rest, r)
    ensures var low := m.a + Cut(m.lf, m.cs);
      && Normal(low, r.owner)
      && (forall l :: l in low ==> l.end < m.cs && (l.kind == r.kind ==> l.end + 1 < m.cs))
      && (forall l, f :: l in low && f in rest ==> Before(l, f))
      && (forall x, k :: !(m.cs <= x <= m.ce) ==> (Has(low, x, k) <==> Has(done, x, k)))
  {
    var low := m.a + Cut(m.lf, m.cs);
    if m.lf == [] {
      assert low == m.a + m.lf;
    } else {
      var old_ := m.a + m.lf;
      forall i | 0 <= i < |low| ensures low[i] == (if i < |m.a| then old_[i] else old_[i].(end := m.cs - 1)) {}
      assert |low| == |old_|;
      forall l, f | l in low && f in rest ensures Before(l, f) {
        var i :| 0 <= i < |low| && low[i] == l;
        assert old_[i] in old_ && Before(old_[i], f);
      }
      forall x, k | !(m.cs <= x <= m.ce) ensures Has(low, x, k) <==> Has(old_, x, k) {
        HasJoin(m.a, Cut(m.lf, m.cs), x, k);
        HasJoin(m.a, m.lf, x, k);
        HasOne(m.lf[0], x, k);
        HasOne(m.lf[0].(end := m.cs - 1), x, k);
        assert m.lf == [m.lf[0]];
      }
    }
  }

  lemma Rest(m: Mid, done: seq<Lock>, rest: seq<Lock>, r: Request)
    requires MidOk(m, done, rest, r)
    ensures Normal(rest, r.owner)
    ensures forall x, k :: Has(done + rest, x, k) <==> Has(done, x, k) || Has(rest, x, k)
  {
    assert rest == (done + rest)[|done|..];
    forall x, k ensures Has(done + rest, x, k) <==> Has(done, x, k) || Has(rest, x, k) { HasJoin(done, rest, x, k); }
  }

  /** The loop ended, or stopped at a lock beyond the range. */
  lemma FinishBeyond(m: Mid, done: seq<Lock>, rest: seq<Lock>, r: Request, c: seq<Lock>)
    requires MidOk(m, done, rest, r)
    requires rest != [] ==> rest[0].start > m.ce && (rest[0].kind == r.kind ==> rest[0].start > m.ce + 1)
    requires if r.kind.Unlock? then c == [] && m.c == []
      else |c| == 1 && Proper(c[0], r.owner) && c[0].kind == r.kind && c[0].start == m.cs && c[0].end == m.ce
    ensures var s' := m.a + Cut(m.lf, m.cs) + c + rest;
      Normal(s', r.owner) && Overridden(done + rest, s', r)
  {
    CutLeft(m, done, rest, r);
    Rest(m, done, rest, r);
    forall l | l in rest ensures l.start > m.ce && (l.kind == r.kind ==> l.start > m.ce + 1) {
      var j :| 0 <= j < |rest| && rest[j] == l;
      assert j > 0 ==> Before(rest[0], rest[j]);
      assert Proper(rest[0], r.owner);
    }
    AllBeyond(rest, m.ce);
    var low := m.a + Cut(m.lf, m.cs);
    assert Assembled(low, c, rest, m.cs, m.ce, done + rest, r);
    AssembledIsEdit(low, c, rest, m.cs, m.ce, done + rest, r);
  }

  lemma AllBeyond(rest: seq<Lock>, ce: int)
    requires forall l :: l in rest ==> l.start > ce
    ensures forall x, k :: x <= ce ==> !Has(rest, x, k)
  {
  }

  /** The loop stopped at a lock of another type that sticks out to the right. */
  lemma FinishRight(m: Mid, done: seq<Lock>, fl: Lock, rest: seq<Lock>, r: Request, c: seq<Lock>, id2: nat)
    requires MidOk(m, done, [fl] + rest, r) && fl.kind != r.kind && fl.start <= m.ce < fl.end
    requires if r.kind.Unlock? then c == [] && m.c == []
      else |c| == 1 && Proper(c[0], r.owner) && c[0].kind == r.kind && c[0].start == m.cs && c[0].end == m.ce
    ensures fl.start < m.cs ==> m.lf == [] && m.c == []
    ensures var left := if fl.start < m.cs then [fl.(id := id2, end := m.cs - 1)] else Cut(m.lf, m.cs);
      var s' := m.a + left + c + ([fl.(start := m.ce + 1)] + rest);
      Normal(s', r.owner) && Overridden(done + ([fl] + rest), s', r)
  {
    Looked(m, done, fl, rest, r);
    CutLeft(m, done, [fl] + rest, r);
    Rest(m, done, [fl] + rest, r);
    var left := if fl.start < m.cs then [fl.(id := id2, end := m.cs - 1)] else Cut(m.lf, m.cs);
    var low, high := m.a + left, [fl.(start := m.ce + 1)] + rest;
    RightHigh(m, done, fl, rest, r, high);
    RightLow(m, done, fl, rest, r, low, left, id2);
    forall l, f | l in low && f in high ensures Before(l, f) {
      RightApart(m, done, fl, rest, r, low, left, high, id2, l, f);
    }
    var s := done + ([fl] + rest);
    forall x, k | !(m.cs <= x <= m.ce) ensures Has(s, x, k) <==> Has(low, x, k) || Has(high, x, k) {
      HasJoin([fl], rest, x, k);
      HasJoin([fl.(start := m.ce + 1)], rest, x, k);
      HasOne(fl, x, k);
      HasOne(fl.(start := m.ce + 1), x, k);
    }
    forall x, k | m.cs <= x < r.start || r.end < x <= m.ce ensures Has(s, x, k) <==> k == r.kind {
      assert Has(done, x, r.kind) && Has(s, x, r.kind);
      if Has(s, x, k) { OneKind(s, r.owner, x, k, r.kind); }
    }
    assert Assembled(low, c, high, m.cs, m.ce, s, r);
    AssembledIsEdit(low, c, high, m.cs, m.ce, s, r);
  }

  lemma RightHigh(m: Mid, done: seq<Lock>, fl: Lock, rest: seq<Lock>, r: Request, high: seq<Lock>)
    requires MidOk(m, done, [fl] + rest, r) && fl.kind != r.kind && m.ce < fl.end
    requires high == [fl.(start := m.ce + 1)] + rest
    ensures Normal(high, r.owner)
    ensures forall l :: l in high ==> l.start > m.ce && (l.kind == r.kind ==> l.start > m.ce + 1)
  {
    Looked(m, done, fl, rest, r);
    Rest(m, done, [fl] + rest, r);
    var old_ := [fl] + rest;
    forall i, j | 0 <= i < j < |high| ensures Before(high[i], high[j]) {
      assert Before(old_[i], old_[j]);
    }
    forall i | 0 <= i < |high| ensures Proper(high[i], r.owner) {
      assert Proper(old_[i], r.owner);
    }
  }

  lemma RightLow(m: Mid, done: seq<Lock>, fl: Lock, rest: seq<Lock>, r: Request, low: seq<Lock>, left: seq<Lock>,
                 id2: nat)
    requires MidOk(m, done, [fl] + rest, r) && fl.kind != r.kind && fl.start <= m.ce < fl.end
    requires left == if fl.start < m.cs then [fl.(id := id2, end := m.cs - 1)] else Cut(m.lf, m.cs)
    requires low == m.a + left
    ensures fl.start < m.cs ==> m.lf == [] && m.c == []
    ensures Normal(low, r.owner) && forall l :: l in low ==> l.end < m.cs && (l.kind == r.kind ==> l.end + 1 < m.cs)
    ensures forall x, k :: !(m.cs <= x <= m.ce) ==>
      (Has(low, x, k) <==> Has(done, x, k) || (fl.start <= x < m.cs && fl.kind == k))
  {
    Looked(m, done, fl, rest, r);
    CutLeft(m, done, [fl] + rest, r);
    if fl.start < m.cs {
      var piece := fl.(id := id2, end := m.cs - 1);
      assert m.a + m.lf == m.a;
      forall i | 0 <= i < |m.a| ensures m.a[i] in m.a + m.lf {}
      NormalJoin(m.a, [piece], r.owner);
      forall x, k ensures Has(low, x, k) <==> Has(m.a, x, k) || (Covers(piece, x) && piece.kind == k) {
        HasJoin(m.a, [piece], x, k);
        HasOne(piece, x, k);
      }
    }
  }

  lemma RightApart(m: Mid, done: seq<Lock>, fl: Lock, rest: seq<Lock>, r: Request, low: seq<Lock>, left: seq<Lock>,
                   high: seq<Lock>, id2: nat, l: Lock, f: Lock)
    requires MidOk(m, done, [fl] + rest, r) && fl.kind != r.kind && fl.start <= m.ce < fl.end
    requires left == if fl.start < m.cs then [fl.(id := id2, end := m.cs - 1)] else Cut(m.lf, m.cs)
    requires low == m.a + left && high == [fl.(start := m.ce + 1)] + rest && l in low && f in high
    ensures Before(l, f)
  {
    Looked(m, done, fl, rest, r);
    CutLeft(m, done, [fl] + rest, r);
    RightLow(m, done, fl, rest, r, low, left, id2);
    if f in rest {
      if fl.start < m.cs {
        assert l in m.a || l == left[0];
        if l in m.a { assert l in m.a + m.lf; }
      }
    }
  }
}
