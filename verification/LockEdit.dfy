/** The part of posix_lock_file that edits the list of locks on a file: split, merge, replace
    and delete in one pass over the owner's locks. */
module LockEdit {
  import opened LockRanges

  /** The variables of the pass: the list, the position in it, the range of `caller` (which is
      the list entry `at` once the request has been added), and the entries to cut. */
  datatype Edit = Edit(list: seq<Lock>, i: nat, cs: int, ce: int, added: bool, at: int, left: int, right: int,
    woken: set<nat>)

  /** The same structure, grown or unchanged. */
  ghost predicate Grown(l: Lock, l': Lock) {
    l'.id == l.id && l'.owner == l.owner && l'.kind == l.kind && l'.start <= l.start && l.end <= l'.end
  }

  function Ids(list: seq<Lock>): set<nat> {
    set l | l in list :: l.id
  }

  /** Every lock is still there, not smaller and of the same type, or its waiters are woken;
      and nobody else's. */
  ghost predicate Kept(s: seq<Lock>, s': seq<Lock>, woken: set<nat>) {
    woken <= Ids(s) && forall l :: l in s ==> l.id in woken || exists l' :: l' in s' && Grown(l, l')
  }

  lemma KeptMore(s: seq<Lock>, s1: seq<Lock>, s2: seq<Lock>, woken: set<nat>, woken': set<nat>)
    requires Kept(s, s1, woken) && woken <= woken' <= Ids(s)
    requires forall l :: l in s1 ==> l.id in woken' || exists l' :: l' in s2 && Grown(l, l')
    ensures Kept(s, s2, woken')
  {
    forall l | l in s ensures l.id in woken' || exists l' :: l' in s2 && Grown(l, l') {
      if l.id !in woken' {
        var l1 :| l1 in s1 && Grown(l, l1);
        var l2 :| l2 in s2 && Grown(l1, l2);
        assert Grown(l, l2);
      }
    }
  }

  /** The structures in s' are among those of s and the new ones. */
  ghost predicate Known(s: seq<Lock>, s': seq<Lock>, fresh_: set<nat>) {
    forall l' :: l' in s' ==> l'.id in fresh_ || exists l :: l in s && l.id == l'.id
  }

  lemma KnownDrop(s: seq<Lock>, fl: Lock, k: seq<Lock>)
    requires Known(s, k, {})
    ensures Known(s + [fl], k, {})
  {
    forall l' | l' in k ensures exists l :: l in s + [fl] && l.id == l'.id {
      var l :| l in s && l.id == l'.id;
      assert l in s + [fl];
    }
  }

  lemma KnownSwap(s: seq<Lock>, fl: Lock, front: seq<Lock>, c: seq<Lock>, c': Lock)
    requires Known(s, front + c, {}) && (c'.id == fl.id || (|c| == 1 && c'.id == c[0].id))
    ensures Known(s + [fl], front + [c'], {})
  {
    assert fl in s + [fl] && (|c| == 1 ==> c[0] in front + c);
    forall l' | l' in front + [c'] ensures exists l :: l in s + [fl] && l.id == l'.id {
      if l' in front || c'.id != fl.id {
        var k := if l' in front then l' else c[0];
        assert k in front + c;
        var l :| l in s && l.id == k.id;
        assert l in s + [fl];
      }
    }
  }

  lemma KeptPlus(s: seq<Lock>, fl: Lock, k: seq<Lock>, woken: set<nat>)
    requires Kept(s, k, woken) && Known(s, k, {})
    ensures Kept(s + [fl], k + [fl], woken) && Known(s + [fl], k + [fl], {})
  {
    assert Grown(fl, fl) && fl in k + [fl];
    forall l | l in s && l.id !in woken ensures exists l' :: l' in k + [fl] && Grown(l, l') {
      var l' :| l' in k && Grown(l, l');
      assert l' in k + [fl];
    }
    assert k + [] == k;
    KnownSwap(s, fl, k, [], fl);
  }

  ghost predicate NoneOf(s: seq<Lock>, owner: nat) {
    forall i :: 0 <= i < |s| ==> s[i].owner != owner
  }

  ghost function Kept3(m: Mid): seq<Lock> {
    m.a + m.lf + m.c
  }

  ghost predicate EditOk(ed: Edit, pre: seq<Lock>, m: Mid, done: seq<Lock>, rest: seq<Lock>, post: seq<Lock>,
                         r: Request) {
    && ed.list == pre + Kept3(m) + (rest + post) && ed.i == |pre| + |Kept3(m)|
    && ed.cs == m.cs && ed.ce == m.ce
    && ed.at == (if m.c == [] then -1 else ed.i - 1)
    && ed.left == (if m.lf == [] then -1 else |pre| + |m.a|)
    && ed.right == -1
    && MidOk(m, done, rest, r) && NoneOf(post, r.owner)
    && (if r.kind.Unlock? then m.c == [] && (m.lf != [] ==> ed.added) else ed.added == (m.c != []))
    && Kept(done, Kept3(m), ed.woken) && Known(done, Kept3(m), {})
    && (r.kind.Unlock? && !ed.added ==> m.a == done)
  }

  // ---- List surgery

  lemma SetAt(x: seq<Lock>, l: Lock, y: seq<Lock>, l': Lock)
    ensures (x + [l] + y)[|x| := l'] == x + [l'] + y
  {
  }

  lemma DropAt(x: seq<Lock>, l: Lock, y: seq<Lock>)
    ensures (x + [l] + y)[..|x|] + (x + [l] + y)[|x| + 1..] == x + y
  {
  }

  lemma AddAt(x: seq<Lock>, l: Lock, y: seq<Lock>)
    ensures (x + y)[..|x|] + [l] + (x + y)[|x|..] == x + [l] + y
  {
  }

  /** The current lock, and the parts of the list around it. */
  lemma Focus(ed: Edit, pre: seq<Lock>, m: Mid, done: seq<Lock>, rest: seq<Lock>, post: seq<Lock>, r: Request)
    requires EditOk(ed, pre, m, done, rest, post, r)
    ensures ed.i <= |ed.list|
    ensures rest != [] <==> ed.i < |ed.list| && ed.list[ed.i].owner == r.owner
    ensures rest != [] ==> ed.list[ed.i] == rest[0] && rest == [rest[0]] + rest[1..]
  {
    if rest != [] {
      assert rest == [rest[0]] + rest[1..];
      Looked(m, done, rest[0], rest[1..], r);
    } else {
      assert rest + post == post;
      if post != [] { assert ed.list[ed.i] == post[0]; }
    }
  }

  // ---- One lock of the owner

  lemma BelowStep(ed: Edit, pre: seq<Lock>, m: Mid, done: seq<Lock>, fl: Lock, rest: seq<Lock>, post: seq<Lock>,
                  r: Request)
    requires EditOk(ed, pre, m, done, [fl] + rest, post, r)
    requires fl.end < m.cs && (fl.kind == r.kind ==> fl.end + 1 < m.cs)
    ensures EditOk(ed.(i := ed.i + 1), pre, m.(a := m.a + [fl]), done + [fl], rest, post, r)
  {
    StepBelow(m, done, fl, rest, r);
    var m' := m.(a := m.a + [fl]);
    assert Kept3(m') == Kept3(m) + [fl];
    assert pre + Kept3(m') + (rest + post) == pre + Kept3(m) + ([fl] + rest + post);
    hide MidOk, Kept, Known, Ids;
    KeptPlus(done, fl, Kept3(m), ed.woken);
  }

  /** The kept part before the entry that has taken over. */
  ghost function Front(pre: seq<Lock>, m: Mid): seq<Lock> {
    pre + m.a + m.lf
  }

  lemma KeptSwap(s: seq<Lock>, fl: Lock, front: seq<Lock>, c: seq<Lock>, c': Lock, woken: set<nat>)
    requires Kept(s, front + c, woken) && |c| <= 1 && (c != [] ==> Grown(c[0], c'))
    ensures Kept(s + [fl], front + [c'], woken + {fl.id})
    ensures Grown(fl, c') ==> Kept(s + [fl], front + [c'], woken)
  {
    assert c' in front + [c'];
    forall l | l in s ensures l.id in woken || exists l' :: l' in front + [c'] && Grown(l, l') {
      if l.id !in woken {
        var l1 :| l1 in front + c && Grown(l, l1);
        if l1 in front { assert l1 in front + [c']; } else { assert Grown(l, c'); }
      }
    }
  }

  lemma KeptDrop(s: seq<Lock>, fl: Lock, kept: seq<Lock>, woken: set<nat>)
    requires Kept(s, kept, woken)
    ensures Kept(s + [fl], kept, woken + {fl.id})
  {
  }

  /** Merging with a lock of the same type when nothing has taken over yet. */
  lemma MergeFirstStep(ed: Edit, pre: seq<Lock>, m: Mid, done: seq<Lock>, fl: Lock, rest: seq<Lock>, post: seq<Lock>,
                       r: Request)
    requires EditOk(ed, pre, m, done, [fl] + rest, post, r) && ed.i < |ed.list| && ed.list[ed.i] == fl
    requires fl.kind == r.kind && !ed.added && fl.end >= m.cs - 1 && fl.start <= m.ce + 1
    ensures var cs, ce := Min(m.cs, fl.start), Max(m.ce, fl.end);
      var c := fl.(start := cs, end := ce);
      EditOk(ed.(list := ed.list[ed.i := c], i := ed.i + 1, cs := cs, ce := ce, added := true, at := ed.i),
             pre, Mid(m.a, m.lf, [c], cs, ce, true), done + [fl], rest, post, r)
  {
    hide Kept, Known, Ids;
    var cs, ce := Min(m.cs, fl.start), Max(m.ce, fl.end);
    var c := fl.(start := cs, end := ce);
    Looked(m, done, fl, rest, r);
    StepMergeFirst(m, done, fl, rest, r);
    var m' := Mid(m.a, m.lf, [c], cs, ce, true);
    hide MidOk, Kept, Known, Ids;
    SetAt(pre + Kept3(m), fl, rest + post, c);
    assert pre + Kept3(m) + ([fl] + rest + post) == (pre + Kept3(m)) + [fl] + (rest + post);
    assert Kept3(m) == m.a + m.lf && Kept3(m') == m.a + m.lf + [c];
    assert pre + Kept3(m') + (rest + post) == (pre + Kept3(m)) + [c] + (rest + post);
    assert m.a + m.lf + [] == Kept3(m);
    KeptSwap(done, fl, m.a + m.lf, [], c, ed.woken);
    KnownSwap(done, fl, m.a + m.lf, [], c);
  }

  /** Merging once something has taken over: it grows, and the lock goes. */
  lemma MergeMoreStep(ed: Edit, pre: seq<Lock>, m: Mid, done: seq<Lock>, fl: Lock, rest: seq<Lock>, post: seq<Lock>,
                      r: Request)
    requires EditOk(ed, pre, m, done, [fl] + rest, post, r) && ed.i < |ed.list| && ed.list[ed.i] == fl
    requires fl.kind == r.kind && ed.added && fl.start <= m.ce + 1
    ensures fl.start >= m.cs && 0 <= ed.at < ed.i
    ensures var ce := Max(m.ce, fl.end);
      var c := ed.list[ed.at].(start := m.cs, end := ce);
      var list := ed.list[ed.at := c];
      EditOk(ed.(list := list[..ed.i] + list[ed.i + 1..], ce := ce, woken := ed.woken + {fl.id}),
             pre, m.(c := [c], ce := ce), done + [fl], rest, post, r)
  {
    hide Kept, Known, Ids;
    Looked(m, done, fl, rest, r);
    StepMergeMore(m, done, fl, rest, r);
    var ce := Max(m.ce, fl.end);
    var front := Front(pre, m);
    assert m.c == [m.c[0]];
    assert ed.list == front + [m.c[0]] + ([fl] + (rest + post));
    assert ed.at == |front| && ed.list[ed.at] == m.c[0];
    var c := m.c[0].(end := ce);
    assert c == ed.list[ed.at].(start := m.cs, end := ce);
    SetAt(front, m.c[0], [fl] + (rest + post), c);
    assert front + [c] + ([fl] + (rest + post)) == (front + [c]) + [fl] + (rest + post);
    DropAt(front + [c], fl, rest + post);
    var m' := m.(c := [c], ce := ce);
    assert pre + Kept3(m') + (rest + post) == (front + [c]) + (rest + post);
    hide MidOk, Kept, Known, Ids;
    KeptSwap(done, fl, m.a + m.lf, m.c, c, ed.woken);
    KnownSwap(done, fl, m.a + m.lf, m.c, c);
  }

  /** A lock of another type that sticks out to the left, but not to the right. */
  lemma LeftStep(ed: Edit, pre: seq<Lock>, m: Mid, done: seq<Lock>, fl: Lock, rest: seq<Lock>, post: seq<Lock>,
                 r: Request)
    requires EditOk(ed, pre, m, done, [fl] + rest, post, r)
    requires fl.kind != r.kind && fl.start < m.cs <= fl.end <= m.ce
    ensures EditOk(ed.(i := ed.i + 1, left := ed.i, added := ed.added || r.kind.Unlock?),
                   pre, m.(lf := [fl], touched := true), done + [fl], rest, post, r)
  {
    StepLeft(m, done, fl, rest, r);
    var m' := m.(lf := [fl], touched := true);
    assert Kept3(m') == Kept3(m) + [fl];
    assert pre + Kept3(m') + (rest + post) == pre + Kept3(m) + ([fl] + rest + post);
    hide MidOk, Kept, Known, Ids;
    KeptPlus(done, fl, Kept3(m), ed.woken);
  }

  /** A lock of another type inside the range, the request being added already or an unlock. */
  lemma CoveredStep(ed: Edit, pre: seq<Lock>, m: Mid, done: seq<Lock>, fl: Lock, rest: seq<Lock>, post: seq<Lock>,
                    r: Request)
    requires EditOk(ed, pre, m, done, [fl] + rest, post, r) && ed.i < |ed.list| && ed.list[ed.i] == fl
    requires fl.kind != r.kind && m.cs <= fl.start && fl.end <= m.ce && (ed.added || r.kind.Unlock?)
    ensures EditOk(ed.(list := ed.list[..ed.i] + ed.list[ed.i + 1..], added := true, woken := ed.woken + {fl.id}),
                   pre, m.(touched := true), done + [fl], rest, post, r)
  {
    StepCovered(m, done, fl, rest, r);
    assert pre + Kept3(m) + ([fl] + rest + post) == (pre + Kept3(m)) + [fl] + (rest + post);
    DropAt(pre + Kept3(m), fl, rest + post);
    assert Kept3(m.(touched := true)) == Kept3(m);
    hide MidOk, Kept, Known, Ids;
    KeptDrop(done, fl, Kept3(m), ed.woken);
    KnownDrop(done, fl, Kept3(m));
  }

  /** A lock of another type inside the range takes over the request. */
  lemma ReplaceStep(ed: Edit, pre: seq<Lock>, m: Mid, done: seq<Lock>, fl: Lock, rest: seq<Lock>, post: seq<Lock>,
                    r: Request)
    requires EditOk(ed, pre, m, done, [fl] + rest, post, r) && ed.i < |ed.list| && ed.list[ed.i] == fl
    requires fl.kind != r.kind && m.cs <= fl.start && fl.end <= m.ce && !ed.added && !r.kind.Unlock?
    ensures var c := fl.(kind := r.kind, start := m.cs, end := m.ce);
      EditOk(ed.(list := ed.list[ed.i := c], i := ed.i + 1, added := true, at := ed.i, woken := ed.woken + {fl.id}),
             pre, m.(c := [c], touched := true), done + [fl], rest, post, r)
  {
    hide Kept, Known, Ids;
    var c := fl.(kind := r.kind, start := m.cs, end := m.ce);
    StepCovered(m, done, fl, rest, r);
    var m' := m.(c := [c], touched := true);
    hide MidOk, Kept, Known, Ids;
    SetAt(pre + Kept3(m), fl, rest + post, c);
    assert pre + Kept3(m) + ([fl] + rest + post) == (pre + Kept3(m)) + [fl] + (rest + post);
    assert Kept3(m) == m.a + m.lf && Kept3(m') == m.a + m.lf + [c];
    assert pre + Kept3(m') + (rest + post) == (pre + Kept3(m)) + [c] + (rest + post);
    assert m.a + m.lf + [] == Kept3(m);
    KeptSwap(done, fl, m.a + m.lf, [], c, ed.woken);
    KnownSwap(done, fl, m.a + m.lf, [], c);
  }

  /** What the pass stops at. */
  ghost predicate Stopped(m: Mid, rest: seq<Lock>, r: Request, right: bool) {
    if right then rest != [] && rest[0].kind != r.kind && rest[0].start <= m.ce < rest[0].end
    else rest != [] ==> rest[0].start > m.ce && (rest[0].kind == r.kind ==> rest[0].start > m.ce + 1)
  }

  /** One turn of the loop over the owner's locks. */
  method EditOne(ed: Edit, r: Request, ghost pre: seq<Lock>, ghost m: Mid, ghost done: seq<Lock>, ghost rest: seq<Lock>,
                 ghost post: seq<Lock>)
    returns (ed': Edit, stop: bool, ghost m': Mid, ghost done': seq<Lock>, ghost rest': seq<Lock>)
    requires EditOk(ed, pre, m, done, rest, post, r) && ed.i < |ed.list| && ed.list[ed.i].owner == r.owner
    ensures done' + rest' == done + rest
    ensures !stop ==> |rest'| < |rest| && EditOk(ed', pre, m', done', rest', post, r)
    ensures stop ==> m' == m && rest' == rest && done' == done && Stopped(m, rest, r, ed'.right >= 0)
    ensures stop && ed'.right < 0 ==> ed' == ed
    ensures stop && ed'.right >= 0 ==>
      ed' == ed.(added := ed.added || r.kind.Unlock?, left := if rest[0].start < m.cs then ed.i
        else ed.left, right := ed.i)
  {
    hide Kept, Kept3, Known;
    Focus(ed, pre, m, done, rest, post, r);
    var fl := ed.list[ed.i];
    ghost var more := rest[1..];
    Looked(m, done, fl, more, r);
    hide MidOk;
    ed', stop, m', done', rest' := ed, false, m, done + [fl], more;
    assert done + rest == (done + [fl]) + more;
    if r.kind == fl.kind {
      if fl.end < ed.cs - 1 {
        BelowStep(ed, pre, m, done, fl, more, post, r);
        ed', m' := ed.(i := ed.i + 1), m.(a := m.a + [fl]);
      } else if fl.start > ed.ce + 1 {
        stop, done', rest' := true, done, rest;
      } else {
        var cs, ce := Min(ed.cs, fl.start), Max(ed.ce, fl.end);
        if ed.added {
          MergeMoreStep(ed, pre, m, done, fl, more, post, r);
          var c := ed.list[ed.at].(start := cs, end := ce);
          var list := ed.list[ed.at := c];
          ed' := ed.(list := list[..ed.i] + list[ed.i + 1..], cs := cs, ce := ce, woken := ed.woken + {fl.id});
          m' := m.(c := [c], ce := ce);
        } else {
          MergeFirstStep(ed, pre, m, done, fl, more, post, r);
          var c := fl.(start := cs, end := ce);
          ed' := ed.(list := ed.list[ed.i := c], i := ed.i + 1, cs := cs, ce := ce, added := true, at := ed.i);
          m' := Mid(m.a, m.lf, [c], cs, ce, true);
        }
      }
    } else if fl.end < ed.cs {
      BelowStep(ed, pre, m, done, fl, more, post, r);
      ed', m' := ed.(i := ed.i + 1), m.(a := m.a + [fl]);
    } else if fl.start > ed.ce {
      stop, done', rest' := true, done, rest;
    } else {
      ed', stop, m' := EditOther(ed, r, pre, m, done, fl, more, post);
      if stop { done', rest' := done, rest; }
    }
  }

  /** A lock of another type that overlaps the range. */
  method EditOther(ed: Edit, r: Request, ghost pre: seq<Lock>, ghost m: Mid, ghost done: seq<Lock>, fl: Lock,
                   ghost more: seq<Lock>, ghost post: seq<Lock>)
    returns (ed': Edit, stop: bool, ghost m': Mid)
    requires EditOk(ed, pre, m, done, [fl] + more, post, r) && ed.i < |ed.list| && ed.list[ed.i] == fl
    requires fl.kind != r.kind && ed.cs <= fl.end && fl.start <= ed.ce && fl.start <= fl.end
    ensures !stop ==> EditOk(ed', pre, m', done + [fl], more, post, r)
    ensures stop ==> m' == m && fl.end > ed.ce
    ensures stop ==>
      ed' == ed.(added := ed.added || r.kind.Unlock?, left := if fl.start < ed.cs then ed.i else ed.left, right := ed.i)
  {
    hide Kept, Kept3, MidOk, Known;
    stop, m' := false, m;
    var added := ed.added || r.kind.Unlock?;
    var left := if fl.start < ed.cs then ed.i else ed.left;
    if fl.end > ed.ce {
      return ed.(added := added, left := left, right := ed.i), true, m;
    }
    if fl.start >= ed.cs {
      if added {
        CoveredStep(ed, pre, m, done, fl, more, post, r);
        ed' := ed.(list := ed.list[..ed.i] + ed.list[ed.i + 1..], added := true, woken := ed.woken + {fl.id});
        m' := m.(touched := true);
      } else {
        ReplaceStep(ed, pre, m, done, fl, more, post, r);
        var c := fl.(kind := r.kind, start := ed.cs, end := ed.ce);
        ed' := ed.(list := ed.list[ed.i := c], i := ed.i + 1, added := true, at := ed.i, woken := ed.woken + {fl.id});
        m' := m.(c := [c], touched := true);
      }
    } else {
      LeftStep(ed, pre, m, done, fl, more, post, r);
      ed', m' := ed.(i := ed.i + 1, left := left, added := added), m.(lf := [fl], touched := true);
    }
  }

  // ---- The end of the pass

  /** The new list in place of the owner's old locks s. */
  ghost predicate Edited(list0: seq<Lock>, list: seq<Lock>, r: Request, woken: set<nat>, ids: set<nat>,
                         pre: seq<Lock>, s: seq<Lock>, s': seq<Lock>, post: seq<Lock>) {
    && list0 == pre + s + post && list == pre + s' + post
    && NoneOf(pre, r.owner) && NoneOf(post, r.owner) && (s == [] ==> post == [])
    && Normal(s, r.owner) && Normal(s', r.owner) && Overridden(s, s', r) && Kept(s, s', woken) && Known(s, s', ids)
  }

  /** What c becomes: the entry that took over, a new lock, or nothing for an unlock. */
  function NewLock(r: Request, id: nat, cs: int, ce: int): Lock {
    Lock(id, true, r.owner, r.kind, cs, ce)
  }

  method InsertNew(ed: Edit, r: Request, id1: nat, ghost pre: seq<Lock>, ghost m: Mid, ghost done: seq<Lock>,
                   ghost rest: seq<Lock>, ghost post: seq<Lock>)
    returns (list: seq<Lock>, shift: nat, ghost c: seq<Lock>)
    requires EditOk(ed, pre, m, done, rest, post, r) && (r.kind.Unlock? ==> ed.added)
    ensures list == (pre + m.a + m.lf) + c + (rest + post) && shift == (if ed.added then 0 else 1)
    ensures if r.kind.Unlock? then c == []
      else |c| == 1 && Proper(c[0], r.owner) && c[0].kind == r.kind && c[0].start == m.cs && c[0].end == m.ce
    ensures Kept(done, (m.a + m.lf) + c, ed.woken) && Known(done, (m.a + m.lf) + c, {id1})
  {
    list, shift, c := ed.list, 0, m.c;
    if ed.added {
      TakenOver(ed, r, id1, pre, m, done, rest, post);
    } else {
      var l := NewLock(r, id1, ed.cs, ed.ce);
      AddAt(pre + Kept3(m), l, rest + post);
      PutIn(ed, r, l, pre, m, done, rest, post);
      hide MidOk, Kept, Known;
      list := ed.list[..ed.i] + [l] + ed.list[ed.i..];
      shift, c := 1, [l];
    }
  }

  lemma TakenOver(ed: Edit, r: Request, id1: nat, pre: seq<Lock>, m: Mid, done: seq<Lock>, rest: seq<Lock>,
                  post: seq<Lock>)
    requires EditOk(ed, pre, m, done, rest, post, r) && ed.added
    ensures ed.list == (pre + m.a + m.lf) + m.c + (rest + post)
    ensures if r.kind.Unlock? then m.c == []
      else |m.c| == 1 && Proper(m.c[0], r.owner) && m.c[0].kind == r.kind && m.c[0].start == m.cs && m.c[0].end == m.ce
    ensures Kept(done, (m.a + m.lf) + m.c, ed.woken) && Known(done, (m.a + m.lf) + m.c, {id1})
  {
    hide Kept;
    assert pre + Kept3(m) == (pre + m.a + m.lf) + m.c;
  }

  lemma PutIn(ed: Edit, r: Request, l: Lock, pre: seq<Lock>, m: Mid, done: seq<Lock>, rest: seq<Lock>,
              post: seq<Lock>)
    requires EditOk(ed, pre, m, done, rest, post, r) && !ed.added && !r.kind.Unlock?
    ensures m.c == [] && Kept3(m) == m.a + m.lf && pre + Kept3(m) == pre + m.a + m.lf && m.cs <= m.ce
    ensures Kept(done, (m.a + m.lf) + [l], ed.woken) && Known(done, (m.a + m.lf) + [l], {l.id})
  {
    assert m.cs <= m.ce;
    hide MidOk;
    var s := (m.a + m.lf) + [l];
    assert forall l0 :: l0 in Kept3(m) ==> l0 in s && Grown(l0, l0);
    KeptMore(done, Kept3(m), s, ed.woken, ed.woken);
  }

  lemma KeptAfterCut(m: Mid, done: seq<Lock>, rest: seq<Lock>, c: seq<Lock>, left: seq<Lock>, high: seq<Lock>,
                     woken: set<nat>, woken': set<nat>)
    requires Kept(done, (m.a + m.lf) + c, woken) && woken <= woken' <= woken + Ids(m.lf) + Ids(rest)
    requires Ids(m.lf) <= Ids(done)
    requires left == m.lf || forall l :: l in m.lf ==> l.id in woken'
    requires forall l :: l in rest ==> l in high || l.id in woken'
    ensures Kept(done + rest, m.a + left + c + high, woken')
  {
    var s' := m.a + left + c + high;
    assert forall l :: l in done || l in rest ==> l in done + rest;
    forall l | l in done + rest ensures l.id in woken' || exists l' :: l' in s' && Grown(l, l') {
      if l.id !in woken' {
        if l in rest {
          assert l in s' && Grown(l, l);
        } else {
          var l' :| l' in (m.a + m.lf) + c && Grown(l, l');
          assert l' !in m.lf || left == m.lf;
          assert l' in s';
        }
      }
    }
  }

  ghost predicate SameIds(s: seq<Lock>, s': seq<Lock>) {
    forall l' :: l' in s' ==> exists l :: l in s && l.id == l'.id
  }

  lemma KnownAfterCut(m: Mid, done: seq<Lock>, rest: seq<Lock>, c: seq<Lock>, left: seq<Lock>, high: seq<Lock>,
                      id1: nat, id2: nat)
    requires Known(done, (m.a + m.lf) + c, {id1}) && SameIds(rest, high)
    requires SameIds(m.lf, left) || (|left| == 1 && left[0].id == id2)
    ensures Known(done + rest, m.a + left + c + high, {id1, id2})
  {
    var s' := m.a + left + c + high;
    forall l' | l' in s' ensures l'.id in {id1, id2} || exists l :: l in done + rest && l.id == l'.id {
      if l' in high {
        var l :| l in rest && l.id == l'.id;
        assert l in done + rest;
      } else if l' in m.a || l' in c || SameIds(m.lf, left) {
        var k :| k in (m.a + m.lf) + c && k.id == l'.id;
        if k.id != id1 {
          var l :| l in done && l.id == k.id;
          assert l in done + rest;
        }
      }
    }
  }

  lemma CutIds(lf: seq<Lock>, cs: int)
    ensures SameIds(lf, Cut(lf, cs))
  {
    if lf != [] { assert lf[0] in lf; }
  }

  lemma HighIds(fl: Lock, start: int, more: seq<Lock>)
    ensures SameIds([fl] + more, [fl.(start := start)] + more)
  {
    assert fl in [fl] + more;
    forall l' | l' in [fl.(start := start)] + more ensures exists l :: l in [fl] + more && l.id == l'.id {
      if l' in more { assert l' in [fl] + more; }
    }
  }

  lemma AllIds(s: seq<Lock>)
    ensures SameIds(s, s)
  {
  }

  method CutLeftEntry(list0: seq<Lock>, left: int, cs: int, woken0: set<nat>, ghost x: seq<Lock>, ghost lf: seq<Lock>,
                      ghost y: seq<Lock>)
    returns (list: seq<Lock>, woken: set<nat>)
    requires |lf| <= 1 && list0 == x + lf + y && left == (if lf == [] then -1 else |x|)
    ensures list == x + Cut(lf, cs) + y && woken == woken0 + (if lf == [] then {} else {lf[0].id})
  {
    list, woken := list0, woken0;
    if left >= 0 {
      assert lf == [lf[0]];
      SetAt(x, lf[0], y, lf[0].(end := cs - 1));
      list := list0[left := list0[left].(end := cs - 1)];
      woken := woken0 + {list0[left].id};
    } else {
      assert Cut(lf, cs) == lf;
    }
  }

  /** The pass ended before a lock that it need not cut. */
  method FinishPlain(ed: Edit, r: Request, id1: nat, ghost id2: nat, ghost pre: seq<Lock>, ghost m: Mid,
                     ghost done: seq<Lock>, ghost rest: seq<Lock>, ghost post: seq<Lock>)
    returns (list: seq<Lock>, woken: set<nat>, ghost s': seq<Lock>)
    requires EditOk(ed, pre, m, done, rest, post, r) && Stopped(m, rest, r, false)
    ensures list == pre + s' + post && Normal(s', r.owner) && Overridden(done + rest, s', r)
    ensures Kept(done + rest, s', woken)
    ensures Known(done + rest, s', {id1, id2})
  {
    hide MidOk, Kept, Kept3, Normal, Overridden, Known, SameIds;
    if !ed.added && r.kind.Unlock? {
      FinishUntouched(ed, r, {id1, id2}, pre, m, done, rest, post);
      return ed.list, ed.woken, done + rest;
    }
    var shift;
    ghost var c;
    list, shift, c := InsertNew(ed, r, id1, pre, m, done, rest, post);
    FinishBeyond(m, done, rest, r, c);
    ghost var x, y := pre + m.a, c + (rest + post);
    AtMostOneCut(m, done, rest, r);
    assert list == x + m.lf + y;
    list, woken := CutLeftEntry(list, ed.left, ed.cs, ed.woken, x, m.lf, y);
    s' := m.a + Cut(m.lf, m.cs) + c + rest;
    assert list == pre + s' + post;
    LeftIds(ed, pre, m, done, rest, post, r);
    KeptAfterCut(m, done, rest, c, Cut(m.lf, m.cs), rest, ed.woken, woken);
    CutIds(m.lf, m.cs);
    AllIds(rest);
    KnownAfterCut(m, done, rest, c, Cut(m.lf, m.cs), rest, id1, id2);
  }

  /** Nothing was there to unlock. */
  lemma FinishUntouched(ed: Edit, r: Request, ids: set<nat>, pre: seq<Lock>, m: Mid, done: seq<Lock>, rest: seq<Lock>,
                        post: seq<Lock>)
    requires EditOk(ed, pre, m, done, rest, post, r) && Stopped(m, rest, r, false) && !ed.added && r.kind.Unlock?
    ensures var s := done + rest;
      && ed.list == pre + s + post && Normal(s, r.owner) && Overridden(s, s, r)
      && Kept(s, s, ed.woken) && Known(s, s, ids)
  {
    hide MidOk, Kept, Kept3, Normal, Overridden, Known;
    assert m.lf == [] && m.c == [] && m.a == done;
    FinishBeyond(m, done, rest, r, []);
    assert m.a + Cut(m.lf, m.cs) + [] + rest == done + rest;
    OnlyA(m);
    KeptSelf(done, Kept3(m), done + rest, ed.woken, ids);
  }

  lemma KeptSelf(s0: seq<Lock>, s1: seq<Lock>, s: seq<Lock>, woken: set<nat>, ids: set<nat>)
    requires Kept(s0, s1, woken) && s0 <= s
    ensures Kept(s, s, woken) && Known(s, s, ids)
  {
    forall l | l in s ensures exists l' :: l' in s && Grown(l, l') {
      assert Grown(l, l);
    }
  }

  /** The pass ended at a lock that sticks out to the right, and possibly to the left too. */
  method FinishCut(ed: Edit, r: Request, id1: nat, id2: nat, ghost pre: seq<Lock>, ghost m: Mid, ghost done: seq<Lock>,
                   ghost rest: seq<Lock>, ghost post: seq<Lock>)
    returns (list: seq<Lock>, woken: set<nat>, ghost s': seq<Lock>)
    requires EditOk(ed, pre, m, done, rest, post, r) && Stopped(m, rest, r, true) && (r.kind.Unlock? ==> ed.added)
    ensures list == pre + s' + post && Normal(s', r.owner) && Overridden(done + rest, s', r)
    ensures Kept(done + rest, s', woken)
    ensures Known(done + rest, s', {id1, id2})
  {
    hide *;
    var cut;
    ghost var c, more;
    list, cut, c, more := InsertAndCut(ed, r, id1, pre, m, done, rest, post);
    woken := ed.woken + {cut.id};
    EditFacts(ed, pre, m, done, rest, post, r);
    LeftIds(ed, pre, m, done, rest, post, r);
    FinishRight(m, done, cut, more, r, c, id2);
    ghost var fl' := cut.(start := ed.ce + 1);
    if cut.start < ed.cs {
      var piece := cut.(id := id2, end := ed.cs - 1);
      list := InsertPiece(list, ed.i, piece, pre, m, c, fl', more, post);
      s' := m.a + [piece] + c + ([fl'] + more);
      AfterCut(m, done, cut, more, c, [piece], ed.ce + 1, ed.woken, woken, id1, id2);
    } else {
      list, woken := TrimLeft(list, ed.left, ed.cs, woken, pre, m, c, fl', more, post);
      s' := m.a + Cut(m.lf, m.cs) + c + ([fl'] + more);
      CutIds(m.lf, m.cs);
      AfterCut(m, done, cut, more, c, Cut(m.lf, m.cs), ed.ce + 1, ed.woken, woken, id1, id2);
    }
  }

  lemma AfterCut(m: Mid, done: seq<Lock>, cut: Lock, more: seq<Lock>, c: seq<Lock>, left: seq<Lock>, start: int,
                 woken: set<nat>, woken': set<nat>, id1: nat, id2: nat)
    requires Kept(done, (m.a + m.lf) + c, woken) && Known(done, (m.a + m.lf) + c, {id1}) && |m.lf| <= 1
    requires Ids(m.lf) <= Ids(done)
    requires woken' == woken + {cut.id} + (if m.lf == [] then {} else {m.lf[0].id})
    requires SameIds(m.lf, left) || (|left| == 1 && left[0].id == id2)
    ensures Kept(done + ([cut] + more), m.a + left + c + ([cut.(start := start)] + more), woken')
    ensures Known(done + ([cut] + more), m.a + left + c + ([cut.(start := start)] + more), {id1, id2})
  {
    hide Kept, Known, SameIds;
    var high := [cut.(start := start)] + more;
    FirstId(cut, more);
    assert m.lf != [] ==> m.lf[0] in m.lf;
    KeptAfterCut(m, done, [cut] + more, c, left, high, woken, woken');
    HighIds(cut, start, more);
    KnownAfterCut(m, done, [cut] + more, c, left, high, id1, id2);
  }

  lemma LeftIds(ed: Edit, pre: seq<Lock>, m: Mid, done: seq<Lock>, rest: seq<Lock>, post: seq<Lock>, r: Request)
    requires EditOk(ed, pre, m, done, rest, post, r)
    ensures Ids(m.lf) <= Ids(done) && (|m.lf| == 1 ==> m.lf[0].id in Ids(m.lf))
  {
    hide MidOk, Kept;
    forall l | l in m.lf ensures l.id in Ids(done) {
      assert l in Kept3(m);
    }
  }

  lemma FirstId(l: Lock, more: seq<Lock>)
    ensures l.id in Ids([l] + more)
  {
    assert l in [l] + more;
  }

  lemma EditFacts(ed: Edit, pre: seq<Lock>, m: Mid, done: seq<Lock>, rest: seq<Lock>, post: seq<Lock>, r: Request)
    requires EditOk(ed, pre, m, done, rest, post, r)
    ensures MidOk(m, done, rest, r)
    ensures ed.cs == m.cs && ed.ce == m.ce && |m.lf| <= 1 && ed.left == (if m.lf == [] then -1 else |pre| + |m.a|)
    ensures m.c == [] && m.lf == [] ==> ed.i == |pre + m.a|
  {
  }

  /** Adds the request if need be, and cuts the lock that sticks out to the right. */
  method InsertAndCut(ed: Edit, r: Request, id1: nat, ghost pre: seq<Lock>, ghost m: Mid, ghost done: seq<Lock>,
                      ghost rest: seq<Lock>, ghost post: seq<Lock>)
    returns (list: seq<Lock>, cut: Lock, ghost c: seq<Lock>, ghost more: seq<Lock>)
    requires EditOk(ed, pre, m, done, rest, post, r) && Stopped(m, rest, r, true) && (r.kind.Unlock? ==> ed.added)
    ensures rest == [cut] + more && cut.kind != r.kind && cut.start <= m.ce < cut.end
    ensures list == (pre + m.a + m.lf + c) + [cut.(start := ed.ce + 1)] + (more + post)
    ensures if r.kind.Unlock? then c == [] && m.c == []
      else |c| == 1 && Proper(c[0], r.owner) && c[0].kind == r.kind && c[0].start == m.cs && c[0].end == m.ce
    ensures Kept(done, (m.a + m.lf) + c, ed.woken) && Known(done, (m.a + m.lf) + c, {id1})
  {
    hide MidOk, Kept, Kept3, Normal, Known;
    ghost var fl := rest[0];
    more := rest[1..];
    assert rest == [fl] + more;
    var shift;
    list, shift, c := InsertNew(ed, r, id1, pre, m, done, rest, post);
    CountFront(ed, pre, m, done, rest, post, r, c, shift);
    var right: nat := ed.i + shift;
    ghost var front := pre + m.a + m.lf + c;
    assert list == front + [fl] + (more + post);
    SetAt(front, fl, more + post, fl.(start := ed.ce + 1));
    cut := list[right];
    assert cut == fl;
    list := list[right := cut.(start := ed.ce + 1)];
  }

  /** The second piece of a lock that is broken in two. */
  method InsertPiece(list0: seq<Lock>, i: nat, piece: Lock, ghost pre: seq<Lock>, ghost m: Mid, ghost c: seq<Lock>,
                     ghost fl: Lock, ghost more: seq<Lock>, ghost post: seq<Lock>)
    returns (list: seq<Lock>)
    requires list0 == (pre + m.a + m.lf + c) + [fl] + (more + post) && i == |pre + m.a| && m.lf == []
    ensures list == pre + (m.a + [piece] + c + ([fl] + more)) + post
  {
    ghost var x := pre + m.a;
    Regroup(x, m.lf, c, fl, more, post);
    AddAt(x, piece, c + ([fl] + more) + post);
    list := list0[..i] + [piece] + list0[i..];
  }

  method TrimLeft(list0: seq<Lock>, left: int, cs: int, woken0: set<nat>, ghost pre: seq<Lock>, ghost m: Mid,
                  ghost c: seq<Lock>, ghost fl: Lock, ghost more: seq<Lock>, ghost post: seq<Lock>)
    returns (list: seq<Lock>, woken: set<nat>)
    requires list0 == (pre + m.a + m.lf + c) + [fl] + (more + post) && |m.lf| <= 1
    requires left == (if m.lf == [] then -1 else |pre| + |m.a|)
    ensures list == pre + (m.a + Cut(m.lf, cs) + c + ([fl] + more)) + post
    ensures woken == woken0 + (if m.lf == [] then {} else {m.lf[0].id})
  {
    ghost var x := pre + m.a;
    Regroup(x, m.lf, c, fl, more, post);
    list, woken := CutLeftEntry(list0, left, cs, woken0, x, m.lf, c + ([fl] + more) + post);
  }

  lemma Regroup(x: seq<Lock>, lf: seq<Lock>, c: seq<Lock>, fl: Lock, more: seq<Lock>, post: seq<Lock>)
    ensures (x + lf + c) + [fl] + (more + post) == x + lf + (c + ([fl] + more) + post)
    ensures lf == [] ==> (x + lf + c) + [fl] + (more + post) == x + (c + ([fl] + more) + post)
  {
  }

  lemma OnlyA(m: Mid)
    requires m.lf == [] && m.c == []
    ensures Kept3(m) == m.a
  {
  }

  lemma AtMostOneCut(m: Mid, done: seq<Lock>, rest: seq<Lock>, r: Request)
    requires MidOk(m, done, rest, r)
    ensures |m.lf| <= 1
  {
  }

  lemma CountFront(ed: Edit, pre: seq<Lock>, m: Mid, done: seq<Lock>, rest: seq<Lock>, post: seq<Lock>, r: Request,
                   c: seq<Lock>, shift: nat)
    requires EditOk(ed, pre, m, done, rest, post, r) && shift == (if ed.added then 0 else 1)
    requires r.kind.Unlock? ==> ed.added
    requires |c| == if r.kind.Unlock? then 0 else 1
    ensures ed.i + shift == |pre + m.a + m.lf + c|
    ensures m.c == [] && m.lf == [] ==> ed.i == |pre + m.a|
  {
  }

  // ---- Whole lists

  /** Locks of the same owner are contiguous, sorted, disjoint and merged; FLOCK-style locks
      have no owner. */
  ghost predicate FileOk(list: seq<Lock>) {
    && (forall i :: 0 <= i < |list| ==> if list[i].owner == 0 then !list[i].posix else Proper(list[i], list[i].owner))
    && (forall i, j :: 0 <= i < j < |list| && list[i].owner == list[j].owner != 0 ==> Before(list[i], list[j]))
    && (forall i, j, k :: 0 <= i < j < k < |list| && list[i].owner == list[k].owner != 0 ==>
      list[j].owner == list[i].owner)
  }

  lemma OwnerRun(list: seq<Lock>, i: nat, j: nat, owner: nat)
    requires FileOk(list) && owner != 0 && i < j <= |list| && NoneOf(list[..i], owner)
    requires forall t :: i <= t < j ==> list[t].owner == owner
    requires j < |list| ==> list[j].owner != owner
    ensures Normal(list[i..j], owner) && NoneOf(list[j..], owner)
  {
    assert list[i].owner == owner;
  }

  lemma FileStaysOk(list0: seq<Lock>, list: seq<Lock>, r: Request, woken: set<nat>, ids: set<nat>, pre: seq<Lock>,
                    s: seq<Lock>, s': seq<Lock>, post: seq<Lock>)
    requires FileOk(list0) && r.owner != 0 && Edited(list0, list, r, woken, ids, pre, s, s', post)
    ensures FileOk(list)
  {
    hide Overridden, Kept;
    forall i | 0 <= i < |list| ensures if list[i].owner == 0 then !list[i].posix else Proper(list[i], list[i].owner) {
      EntryFrom(list0, list, r, woken, ids, pre, s, s', post, i);
    }
    forall i, j | 0 <= i < j < |list| && list[i].owner == list[j].owner != 0 ensures Before(list[i], list[j]) {
      EntryFrom(list0, list, r, woken, ids, pre, s, s', post, i);
      EntryFrom(list0, list, r, woken, ids, pre, s, s', post, j);
    }
    forall i, j, k | 0 <= i < j < k < |list| && list[i].owner == list[k].owner != 0
      ensures list[j].owner == list[i].owner
    {
      EntryFrom(list0, list, r, woken, ids, pre, s, s', post, i);
      EntryFrom(list0, list, r, woken, ids, pre, s, s', post, j);
      EntryFrom(list0, list, r, woken, ids, pre, s, s', post, k);
      assert s != [] ==> list0[|pre|] == s[0] && Proper(s[0], r.owner);
    }
  }

  /** Where an entry of the new list comes from. */
  lemma EntryFrom(list0: seq<Lock>, list: seq<Lock>, r: Request, woken: set<nat>, ids: set<nat>, pre: seq<Lock>,
                  s: seq<Lock>, s': seq<Lock>, post: seq<Lock>, i: nat)
    requires Edited(list0, list, r, woken, ids, pre, s, s', post) && i < |list|
    ensures i < |pre| ==> list[i] == list0[i] && list[i].owner != r.owner
    ensures |pre| <= i < |pre| + |s'| ==> list[i] == s'[i - |pre|] && Proper(list[i], r.owner)
    ensures i >= |pre| + |s'| ==> list[i] == list0[i - |s'| + |s|] && list[i].owner != r.owner
  {
  }

  /** Applies a request that conflicts with nobody to the list of locks on a file. */
  method EditList(list0: seq<Lock>, r: Request, id1: nat, id2: nat)
    returns (list: seq<Lock>, woken: set<nat>, ghost pre: seq<Lock>, ghost s: seq<Lock>, ghost s': seq<Lock>,
      ghost post: seq<Lock>)
    requires FileOk(list0) && r.owner != 0 && r.start <= r.end
    ensures Edited(list0, list, r, woken, {id1, id2}, pre, s, s', post) && FileOk(list)
  {
    hide Kept, Overridden, MidOk;
    var i := 0;
    while i < |list0| && (!list0[i].posix || list0[i].owner != r.owner)
      invariant 0 <= i <= |list0| && NoneOf(list0[..i], r.owner)
    {
      i := i + 1;
    }
    ghost var j := i;
    while j < |list0| && list0[j].owner == r.owner
      invariant i <= j <= |list0| && forall t :: i <= t < j ==> list0[t].owner == r.owner
    {
      j := j + 1;
    }
    pre, s, post := list0[..i], list0[i..j], list0[j..];
    assert list0 == pre + s + post;
    if i < j { OwnerRun(list0, i, j, r.owner); } else { assert s == [] && post == []; }
    list, woken, s' := EditOwn(list0, i, r, id1, id2, pre, s, post);
    FileStaysOk(list0, list, r, woken, {id1, id2}, pre, s, s', post);
  }

  method EditOwn(list0: seq<Lock>, i: nat, r: Request, id1: nat, id2: nat, ghost pre: seq<Lock>, ghost s: seq<Lock>,
                 ghost post: seq<Lock>)
    returns (list: seq<Lock>, woken: set<nat>, ghost s': seq<Lock>)
    requires list0 == pre + s + post && i == |pre| && Normal(s, r.owner) && NoneOf(post, r.owner) && r.start <= r.end
    ensures list == pre + s' + post && Normal(s', r.owner) && Overridden(s, s', r) && Kept(s, s', woken)
    ensures Known(s, s', {id1, id2})
  {
    hide Kept, Overridden, MidOk, Known;
    var ed := Edit(list0, i, r.start, r.end, false, -1, -1, -1, {});
    ghost var m, done, rest := Mid([], [], [], r.start, r.end, false), [], s;
    EditStarts(s, r);
    EditBegins(list0, pre, s, post, r);
    Focus(ed, pre, m, done, rest, post, r);
    var stop := false;
    while !stop && ed.i < |ed.list| && ed.list[ed.i].owner == r.owner
      invariant EditOk(ed, pre, m, done, rest, post, r) && done + rest == s && !stop
      decreases |rest|
    {
      var ed';
      ghost var m', done', rest';
      ed', stop, m', done', rest' := EditOne(ed, r, pre, m, done, rest, post);
      if stop {
        if ed'.right >= 0 {
          list, woken, s' := FinishCut(ed.(added := ed'.added), r, id1, id2, pre, m, done, rest, post);
        } else {
          list, woken, s' := FinishPlain(ed, r, id1, id2, pre, m, done, rest, post);
        }
        return;
      }
      ed, m, done, rest := ed', m', done', rest';
      Focus(ed, pre, m, done, rest, post, r);
    }
    Focus(ed, pre, m, done, rest, post, r);
    list, woken, s' := FinishPlain(ed, r, id1, id2, pre, m, done, rest, post);
  }

  lemma EditBegins(list0: seq<Lock>, pre: seq<Lock>, s: seq<Lock>, post: seq<Lock>, r: Request)
    requires list0 == pre + s + post && NoneOf(post, r.owner)
    requires MidOk(Mid([], [], [], r.start, r.end, false), [], s, r)
    ensures EditOk(Edit(list0, |pre|, r.start, r.end, false, -1, -1, -1, {}), pre,
      Mid([], [], [], r.start, r.end, false), [], s, post, r)
  {
    hide MidOk;
    var m := Mid([], [], [], r.start, r.end, false);
    assert Kept3(m) == [] && pre + [] + (s + post) == list0;
  }
}
