/** All files' locks together with the processes waiting for them, and what every operation
    keeps: exclusion, no lost wakeups, and no deadlock among waiters. */
module LockState {
  import opened LockRanges
  import opened LockEdit
  import opened Links

  /** posix_locks_conflict: the request has to wait for the lock. */
  predicate Conflicts(r: Request, l: Lock) {
    l.posix && l.owner != r.owner && r.end >= l.start && l.end >= r.start &&
    match r.kind
    case Read => l.kind.Write?
    case Write => true
    case Unlock => false
  }

  /** Locks of different owners overlap only if both are read locks. */
  ghost predicate Exclusive(list: seq<Lock>) {
    forall l, m ::
      l in list && m in list && l.posix && m.posix && l.owner != m.owner && l.end >= m.start && m.end >= l.start
      ==> l.kind.Read? && m.kind.Read?
  }

  /** Another owner's lock l has a byte that the request asks for, and one of the two is for writing. */
  ghost predicate Clash(r: Request, l: Lock, x: int) {
    l.posix && l.owner != r.owner && Covers(l, x) && r.start <= x <= r.end && (l.kind.Write? || r.kind.Write?)
  }

  /** What the request asks for may be put beside the locks of the file. */
  ghost predicate Fits(list: seq<Lock>, r: Request, id: nat) {
    r.kind.Unlock? || Exclusive(list + [NewLock(r, id, r.start, r.end)])
  }

  ghost predicate Unopposed(list: seq<Lock>, r: Request) {
    r.kind.Unlock? || forall l, x :: l in list ==> !Clash(r, l, x)
  }

  /** A conflict is a byte that two owners would have, one of them for writing. */
  lemma ConflictIff(list: seq<Lock>, r: Request, l: Lock)
    requires FileOk(list) && l in list && r.start <= r.end && !r.kind.Unlock?
    ensures Conflicts(r, l) <==> exists x :: Clash(r, l, x)
  {
    var i :| 0 <= i < |list| && list[i] == l;
    if l.posix && l.owner != r.owner && r.end >= l.start && l.end >= r.start && (l.kind.Write? || r.kind.Write?) {
      assert Clash(r, l, if l.start > r.start then l.start else r.start);
    }
  }

  /** A request that conflicts with nothing is one that keeps the locks exclusive. */
  lemma FitsIff(list: seq<Lock>, r: Request, id: nat)
    requires FileOk(list) && Exclusive(list) && r.start <= r.end
    ensures (r.kind.Unlock? || forall l :: l in list ==> !Conflicts(r, l)) <==> Fits(list, r, id)
    ensures Fits(list, r, id) <==> Unopposed(list, r)
  {
    if !r.kind.Unlock? {
      var n := NewLock(r, id, r.start, r.end);
      assert n in list + [n] && forall l :: l in list ==> l in list + [n];
      forall l | l in list ensures Conflicts(r, l) <==> exists x :: Clash(r, l, x) { ConflictIff(list, r, l); }
      forall l | l in list && l.posix ensures Proper(l, l.owner) { var i :| 0 <= i < |list| && list[i] == l; }
      ClashExclusive(list, r, n);
    }
  }

  lemma ClashExclusive(list: seq<Lock>, r: Request, n: Lock)
    requires (forall l :: l in list && l.posix ==> Proper(l, l.owner)) && Exclusive(list)
    requires r.start <= r.end && !r.kind.Unlock?
    requires n.posix && n.owner == r.owner && n.kind == r.kind && n.start == r.start && n.end == r.end
    ensures Exclusive(list + [n]) <==> forall l, x :: l in list ==> !Clash(r, l, x)
  {
    assert n in list + [n] && forall l :: l in list ==> l in list + [n];
    if l, x :| l in list && Clash(r, l, x) {
      assert !(l.kind.Read? && n.kind.Read?);
    } else {
      forall l, m | l in list + [n] && m in list + [n] && l.posix && m.posix && l.owner != m.owner && l.end >= m.start
        && m.end >= l.start
        ensures l.kind.Read? && m.kind.Read?
      {
        if l == n || m == n {
          var o := if l == n then m else l;
          assert !Clash(r, o, if o.start > r.start then o.start else r.start);
        }
      }
    }
  }

  type Files = map<nat, seq<Lock>>
  type Blocks = map<nat, seq<Request>>

  datatype Entry = Entry(id: nat, owner: nat)

  ghost predicate FilesOk(files: Files) {
    && (forall f :: f in files ==> FileOk(files[f]) && Exclusive(files[f]))
    && OneFile(files)
  }

  /** w waits for structure id, which is a lock it conflicts with. */
  ghost predicate WaitsRightly(files: Files, waits: map<nat, nat>, id: nat, w: Request, f: nat, l: Lock) {
    && f in files && l in files[f] && l.id == id && Conflicts(w, l)
    && w.owner in waits && waits[w.owner] == l.owner
  }

  ghost predicate WaiterOk(files: Files, waits: map<nat, nat>, id: nat, w: Request) {
    w.start <= w.end && w.owner != 0 && exists f, l :: WaitsRightly(files, waits, id, w, f, l)
  }

  ghost predicate Waiting(blocks: Blocks, id: nat, w: Request) {
    id in blocks && w in blocks[id]
  }

  ghost predicate BlocksOk(files: Files, blocks: Blocks, waits: map<nat, nat>) {
    && (forall id, w :: Waiting(blocks, id, w) ==> WaiterOk(files, waits, id, w))
    && (forall a :: a in waits ==> exists id, w :: Waiting(blocks, id, w) && w.owner == a)
    && (forall id, w, id', w' :: Waiting(blocks, id, w) && Waiting(blocks, id', w') && w.owner == w'.owner ==>
      id == id' && w == w')
    && (forall id :: id in blocks ==> OnceEach(blocks[id]))
  }

  ghost predicate OnceEach(ws: seq<Request>) {
    forall i, j :: 0 <= i < j < |ws| ==> ws[i].owner != ws[j].owner
  }

  /** file_lock_table lists every lock, and a structure has one owner. */
  ghost predicate TableOk(files: Files, table: seq<Entry>, nextId: nat) {
    && (forall f, l :: f in files && l in files[f] ==> Entry(l.id, l.owner) in table)
    && (forall e :: e in table ==> e.id < nextId)
    && (forall e, e' :: e in table && e' in table && e.id == e'.id ==> e.owner == e'.owner)
  }

  ghost predicate StateOk(files: Files, blocks: Blocks, table: seq<Entry>, nextId: nat, waits: map<nat, nat>) {
    FilesOk(files) && BlocksOk(files, blocks, waits) && TableOk(files, table, nextId) && Acyclic(waits)
  }

  // ---- Granting a request

  lemma GrownConflicts(w: Request, l: Lock, l': Lock)
    requires Conflicts(w, l) && Grown(l, l') && l'.posix
    ensures Conflicts(w, l')
  {
  }

  /** A byte of a new lock was locked alike before, or is in the requested range. */
  lemma NewByte(s: seq<Lock>, s': seq<Lock>, r: Request, l': Lock, x: int)
    requires Normal(s', r.owner) && Overridden(s, s', r) && l' in s' && Covers(l', x)
    ensures if r.start <= x <= r.end then l'.kind == r.kind && !r.kind.Unlock? else Has(s, x, l'.kind)
  {
    assert Has(s', x, l'.kind);
  }

  lemma GrantExclusive(list0: seq<Lock>, list: seq<Lock>, r: Request, woken: set<nat>, ids: set<nat>, pre: seq<Lock>,
                       s: seq<Lock>, s': seq<Lock>, post: seq<Lock>)
    requires Edited(list0, list, r, woken, ids, pre, s, s', post) && Exclusive(list0) && r.owner != 0
    requires FileOk(list) && FileOk(list0)
    requires r.kind.Unlock? || forall l :: l in list0 ==> !Conflicts(r, l)
    ensures Exclusive(list)
  {
    hide Kept, Known;
    forall l, m | l in list && m in list && l.posix && m.posix && l.owner != m.owner && l.end >= m.start
      && m.end >= l.start
      ensures l.kind.Read? && m.kind.Read?
    {
      OldOrOwn(list0, list, r, woken, ids, pre, s, s', post, l);
      OldOrOwn(list0, list, r, woken, ids, pre, s, s', post, m);
      if l.owner == r.owner {
        OwnAgainstOther(list0, list, r, woken, ids, pre, s, s', post, l, m);
      } else if m.owner == r.owner {
        OwnAgainstOther(list0, list, r, woken, ids, pre, s, s', post, m, l);
      }
    }
  }

  lemma OldOrOwn(list0: seq<Lock>, list: seq<Lock>, r: Request, woken: set<nat>, ids: set<nat>, pre: seq<Lock>,
                 s: seq<Lock>, s': seq<Lock>, post: seq<Lock>, l: Lock)
    requires Edited(list0, list, r, woken, ids, pre, s, s', post) && l in list
    ensures if l.owner == r.owner then l in s' && Proper(l, r.owner) else l in list0 && (l in pre || l in post)
  {
    hide Kept, Known, Overridden;
    if l in pre {
      assert l in list0;
    } else if l in post {
      assert l in list0;
    }
  }

  lemma OwnAgainstOther(list0: seq<Lock>, list: seq<Lock>, r: Request, woken: set<nat>, ids: set<nat>, pre: seq<Lock>,
                        s: seq<Lock>, s': seq<Lock>, post: seq<Lock>, l: Lock, m: Lock)
    requires Edited(list0, list, r, woken, ids, pre, s, s', post) && Exclusive(list0) && r.owner != 0
    requires r.kind.Unlock? || forall k :: k in list0 ==> !Conflicts(r, k)
    requires l in s' && m in list0 && Proper(m, m.owner) && m.owner != r.owner && l.end >= m.start && m.end >= l.start
    ensures l.kind.Read? && m.kind.Read?
  {
    hide Kept, Known;
    assert Proper(l, r.owner);
    var x := if l.start > m.start then l.start else m.start;
    NewByte(s, s', r, l, x);
    if r.start <= x <= r.end {
      assert !Conflicts(r, m);
    } else {
      var k :| k in s && Covers(k, x) && k.kind == l.kind;
      assert Proper(k, r.owner) && k in list0;
    }
  }

  /** The files after a request has been granted on file f. */
  lemma GrantFiles(files: Files, f: nat, list: seq<Lock>, r: Request, woken: set<nat>, ids: set<nat>,
                   table: seq<Entry>, nextId: nat,
                   pre: seq<Lock>, s: seq<Lock>, s': seq<Lock>, post: seq<Lock>)
    requires FilesOk(files) && f in files && TableOk(files, table, nextId) && r.owner != 0
    requires Edited(files[f], list, r, woken, ids, pre, s, s', post) && FileOk(list)
    requires forall id :: id in ids ==> id >= nextId
    requires r.kind.Unlock? || forall l :: l in files[f] ==> !Conflicts(r, l)
    ensures FilesOk(files[f := list])
  {
    hide Edited, Conflicts;
    GrantExclusive(files[f], list, r, woken, ids, pre, s, s', post);
    forall l | l in list ensures Stems(files[f], ids, r.owner, l) {
      FromOld(files[f], list, r, woken, ids, pre, s, s', post, l);
    }
    GrantIds(files, f, list, ids, r.owner, table, nextId);
  }

  /** A lock of the new list is a new structure or one of the old. */
  ghost predicate Stems(list0: seq<Lock>, ids: set<nat>, owner: nat, l: Lock) {
    (l.id in ids && l.owner == owner) || exists l0 :: l0 in list0 && l0.id == l.id && l0.owner == l.owner
  }

  ghost predicate OneFile(files: Files) {
    forall f, g, l, m :: f in files && g in files && l in files[f] && m in files[g] && l.id == m.id ==>
      f == g && l.owner == m.owner
  }

  lemma GrantIds(files: Files, f: nat, list: seq<Lock>, ids: set<nat>, owner: nat, table: seq<Entry>, nextId: nat)
    requires OneFile(files) && f in files && TableOk(files, table, nextId)
    requires (forall id :: id in ids ==> id >= nextId) && forall l :: l in list ==> Stems(files[f], ids, owner, l)
    ensures OneFile(files[f := list])
  {
    var files': Files := files[f := list];
    forall f1, l: Lock | f1 in files && l in files[f1] ensures l.id < nextId { assert Entry(l.id, l.owner) in table; }
    forall f1, g1, l: Lock, m: Lock | f1 in files' && g1 in files' && l in files'[f1] && m in files'[g1] && l.id == m.id
      ensures f1 == g1 && l.owner == m.owner
    {
      if f1 == f { assert Stems(files[f], ids, owner, l); }
      if g1 == f { assert Stems(files[f], ids, owner, m); }
    }
  }

  lemma FromOld(list0: seq<Lock>, list: seq<Lock>, r: Request, woken: set<nat>, ids: set<nat>, pre: seq<Lock>,
                s: seq<Lock>, s': seq<Lock>, post: seq<Lock>, l: Lock)
    requires Edited(list0, list, r, woken, ids, pre, s, s', post) && l in list
    ensures Stems(list0, ids, r.owner, l)
  {
    hide Kept, Overridden;
    OldOrOwn(list0, list, r, woken, ids, pre, s, s', post, l);
    if l.owner == r.owner && l.id !in ids {
      var l0 :| l0 in s && l0.id == l.id;
      assert l0 in list0 && Proper(l0, r.owner);
    }
  }

  /** The owners whose waits end when the given structures' waiters are woken. */
  ghost function WokenOwners(blocks: Blocks, woken: set<nat>): set<nat> {
    set id, w | id in woken && id in blocks && w in blocks[id] :: w.owner
  }

  /** Waking the waiters of everything that shrank, changed type or went leaves only waiters
      that still conflict. */
  lemma GrantBlocks(files: Files, blocks: Blocks, waits: map<nat, nat>, f: nat, list: seq<Lock>, r: Request,
                    woken: set<nat>, ids: set<nat>,
                    pre: seq<Lock>, s: seq<Lock>, s': seq<Lock>, post: seq<Lock>)
    requires BlocksOk(files, blocks, waits) && f in files && FileOk(list) && FileOk(files[f])
    requires Edited(files[f], list, r, woken, ids, pre, s, s', post) && r.owner != 0
    ensures BlocksOk(files[f := list], blocks - woken, waits - WokenOwners(blocks, woken))
  {
    hide Overridden, Known;
    var files', blocks', waits' := files[f := list], blocks - woken, waits - WokenOwners(blocks, woken);
    forall id, w | Waiting(blocks', id, w) ensures WaiterOk(files', waits', id, w) {
      assert Waiting(blocks, id, w);
      var g, l :| WaitsRightly(files, waits, id, w, g, l);
      assert w.owner in waits' by { StillWaiting(files, blocks, waits, woken, id, w); }
      if g == f {
        var l' := KeptLock(files[f], list, r, woken, ids, pre, s, s', post, l);
        PosixHasOwner(files[f], l);
        PosixHasOwner(list, l');
        GrownConflicts(w, l, l');
        assert WaitsRightly(files', waits', id, w, f, l');
      } else {
        assert WaitsRightly(files', waits', id, w, g, l);
      }
    }
    FewerWaiters(files, blocks, waits, woken);
  }

  lemma PosixHasOwner(list: seq<Lock>, l: Lock)
    requires FileOk(list) && l in list
    ensures l.posix <==> l.owner != 0
  {
    var i :| 0 <= i < |list| && list[i] == l;
  }

  lemma StillWaiting(files: Files, blocks: Blocks, waits: map<nat, nat>, woken: set<nat>, id: nat, w: Request)
    requires BlocksOk(files, blocks, waits) && Waiting(blocks - woken, id, w)
    ensures w.owner in waits - WokenOwners(blocks, woken)
  {
    assert Waiting(blocks, id, w) && WaiterOk(files, waits, id, w);
    if w.owner in WokenOwners(blocks, woken) {
      var id', w' :| id' in woken && id' in blocks && w' in blocks[id'] && w'.owner == w.owner;
      assert Waiting(blocks, id', w');
    }
  }

  lemma KeptLock(list0: seq<Lock>, list: seq<Lock>, r: Request, woken: set<nat>, ids: set<nat>, pre: seq<Lock>,
                 s: seq<Lock>, s': seq<Lock>, post: seq<Lock>, l: Lock) returns (l': Lock)
    requires Edited(list0, list, r, woken, ids, pre, s, s', post) && l in list0 && l.id !in woken
    ensures l' in list && Grown(l, l')
  {
    hide Overridden, Known;
    if l in s {
      l' :| l' in s' && Grown(l, l');
      assert l' in list;
    } else {
      l' := l;
      assert l in pre || l in post;
      assert l in list && Grown(l, l);
    }
  }

  /** The waiters that remain are some of those there were. */
  lemma FewerWaiters(files: Files, blocks: Blocks, waits: map<nat, nat>, woken: set<nat>)
    requires BlocksOk(files, blocks, waits)
    ensures var blocks', waits' := blocks - woken, waits - WokenOwners(blocks, woken);
      && (forall a :: a in waits' ==> exists id, w :: Waiting(blocks', id, w) && w.owner == a)
      && (forall id, w, id', w' :: Waiting(blocks', id, w) && Waiting(blocks', id', w') && w.owner == w'.owner ==>
        id == id' && w == w')
      && (forall id :: id in blocks' ==> OnceEach(blocks'[id]))
  {
    var blocks', waits' := blocks - woken, waits - WokenOwners(blocks, woken);
    forall a | a in waits' ensures exists id, w :: Waiting(blocks', id, w) && w.owner == a {
      var id, w :| Waiting(blocks, id, w) && w.owner == a;
      assert id !in woken;
      assert Waiting(blocks', id, w);
    }
    forall id, w, id', w' | Waiting(blocks', id, w) && Waiting(blocks', id', w') && w.owner == w'.owner
      ensures id == id' && w == w'
    {
      assert Waiting(blocks, id, w) && Waiting(blocks, id', w');
    }
  }

  // ---- Going to sleep, and being woken one at a time

  lemma SleepBlocks(files: Files, blocks: Blocks, waits: map<nat, nat>, f: nat, l: Lock, r: Request)
    requires BlocksOk(files, blocks, waits) && f in files && l in files[f] && Conflicts(r, l) && r.start <= r.end
    requires r.owner != 0 && r.owner !in waits
    ensures var ws := if l.id in blocks then blocks[l.id] else [];
      BlocksOk(files, blocks[l.id := ws + [r]], waits[r.owner := l.owner])
  {
    var ws := if l.id in blocks then blocks[l.id] else [];
    var blocks', waits' := blocks[l.id := ws + [r]], waits[r.owner := l.owner];
    forall id, w | Waiting(blocks, id, w) ensures w.owner != r.owner { assert WaiterOk(files, waits, id, w); }
    assert WaitsRightly(files, waits', l.id, r, f, l);
    forall id, w | Waiting(blocks', id, w) ensures WaiterOk(files, waits', id, w) {
      if !(id == l.id && w == r) {
        assert Waiting(blocks, id, w);
        var g, m :| WaitsRightly(files, waits, id, w, g, m);
        assert WaitsRightly(files, waits', id, w, g, m);
      }
    }
    forall a | a in waits' ensures exists id, w :: Waiting(blocks', id, w) && w.owner == a {
      if a == r.owner {
        assert Waiting(blocks', l.id, r);
      } else {
        var id, w :| Waiting(blocks, id, w) && w.owner == a;
        assert Waiting(blocks', id, w);
      }
    }
    forall id, w, id', w' | Waiting(blocks', id, w) && Waiting(blocks', id', w') && w.owner == w'.owner
      ensures id == id' && w == w'
    {
      assert (id == l.id && w == r) || Waiting(blocks, id, w);
      assert (id' == l.id && w' == r) || Waiting(blocks, id', w');
    }
    forall i | 0 <= i < |ws| ensures ws[i].owner != r.owner { assert Waiting(blocks, l.id, ws[i]); }
  }

  function DropOwner(ws: seq<Request>, a: nat): seq<Request> {
    if ws == [] then [] else if ws[0].owner == a then ws[1..] else [ws[0]] + DropOwner(ws[1..], a)
  }

  lemma {:induction false} DropOwnerIs(ws: seq<Request>, a: nat)
    requires OnceEach(ws)
    ensures OnceEach(DropOwner(ws, a)) && forall w :: w in DropOwner(ws, a) <==> w in ws && w.owner != a
  {
    if ws != [] {
      assert OnceEach(ws[1..]) && forall w :: w in ws <==> w == ws[0] || w in ws[1..];
      if ws[0].owner != a {
        DropOwnerIs(ws[1..], a);
      } else {
        assert forall w :: w in ws[1..] ==> w.owner != a;
      }
    }
  }

  lemma UnblockBlocks(files: Files, blocks: Blocks, waits: map<nat, nat>, id: nat, a: nat)
    requires BlocksOk(files, blocks, waits) && id in blocks && exists w :: w in blocks[id] && w.owner == a
    ensures BlocksOk(files, blocks[id := DropOwner(blocks[id], a)], waits - {a})
  {
    var blocks', waits' := blocks[id := DropOwner(blocks[id], a)], waits - {a};
    var w0 :| w0 in blocks[id] && w0.owner == a;
    assert Waiting(blocks, id, w0);
    DropOwnerIs(blocks[id], a);
    forall id1, w | Waiting(blocks', id1, w) ensures Waiting(blocks, id1, w) && w.owner != a {
      assert Waiting(blocks, id1, w);
    }
    forall id1, w | Waiting(blocks', id1, w) ensures WaiterOk(files, waits', id1, w) {
      var g, m :| WaitsRightly(files, waits, id1, w, g, m);
      assert WaitsRightly(files, waits', id1, w, g, m);
    }
    forall b | b in waits' ensures exists id1, w :: Waiting(blocks', id1, w) && w.owner == b {
      var id1, w :| Waiting(blocks, id1, w) && w.owner == b;
      assert Waiting(blocks', id1, w);
    }
  }
}
