/** posix_lock_file and its companions over all files: conflict search, deadlock detection,
    blocking, waking, and removal on close. */
module Locks {
  import opened LockRanges
  import opened LockEdit
  import opened LockState
  import opened Links

  datatype Outcome = Granted | Again | Deadlock | Restart | Asleep

  // ---- The global table

  function Retain(table: seq<Entry>, gone: set<nat>): seq<Entry> {
    if table == [] then [] else (if table[0].id in gone then [] else [table[0]]) + Retain(table[1..], gone)
  }

  lemma {:induction false} RetainIs(table: seq<Entry>, gone: set<nat>)
    ensures forall e :: e in Retain(table, gone) <==> e in table && e.id !in gone
  {
    if table != [] {
      RetainIs(table[1..], gone);
      assert forall e :: e in table <==> e == table[0] || e in table[1..];
    }
  }

  function Fresh(list: seq<Lock>, known: set<nat>): seq<Entry> {
    if list == [] then []
      else Fresh(list[1..], known) + (if list[0].id in known then [] else [Entry(list[0].id, list[0].owner)])
  }

  lemma {:induction false} FreshIs(list: seq<Lock>, known: set<nat>)
    ensures forall e :: e in Fresh(list, known) <==>
      exists l :: l in list && l.id !in known && e == Entry(l.id, l.owner)
  {
    if list != [] {
      FreshIs(list[1..], known);
      assert forall l :: l in list <==> l == list[0] || l in list[1..];
    }
  }

  /** locks_insert_lock puts new locks at the front, locks_delete_lock takes old ones out. */
  function Retabled(table: seq<Entry>, list0: seq<Lock>, list: seq<Lock>): seq<Entry> {
    Fresh(list, Ids(list0)) + Retain(table, Ids(list0) - Ids(list))
  }

  lemma TableAfter(files: Files, f: nat, list: seq<Lock>, ids: set<nat>, owner: nat, table: seq<Entry>, nextId: nat,
                   nextId': nat)
    requires OneFile(files) && f in files && TableOk(files, table, nextId) && nextId <= nextId'
    requires forall id :: id in ids ==> nextId <= id < nextId'
    requires forall l :: l in list ==> Stems(files[f], ids, owner, l)
    ensures TableOk(files[f := list], Retabled(table, files[f], list), nextId')
  {
    var files': Files := files[f := list];
    var table' := Retabled(table, files[f], list);
    var gone := Ids(files[f]) - Ids(list);
    RetainIs(table, gone);
    FreshIs(list, Ids(files[f]));
    forall l | l in list && l.id !in Ids(files[f])
      ensures l.id in ids && l.owner == owner
    {
      assert Stems(files[f], ids, owner, l);
    }
    forall e | e in table' ensures e.id < nextId' && (e in table || (e.id in ids && e.owner == owner)) {}
    forall g, l: Lock | g in files' && l in files'[g] ensures Entry(l.id, l.owner) in table' {
      EntryStays(files, f, list, ids, owner, table, nextId, g, l);
    }
  }

  lemma EntryStays(files: Files, f: nat, list: seq<Lock>, ids: set<nat>, owner: nat, table: seq<Entry>, nextId: nat,
                   g: nat, l: Lock)
    requires OneFile(files) && f in files && TableOk(files, table, nextId)
    requires (forall id :: id in ids ==> id >= nextId) && forall l :: l in list ==> Stems(files[f], ids, owner, l)
    requires g in files && l in if g == f then list else files[g]
    ensures Entry(l.id, l.owner) in Retabled(table, files[f], list)
  {
    hide OneFile, Retain, Fresh;
    var gone := Ids(files[f]) - Ids(list);
    RetainIs(table, gone);
    FreshIs(list, Ids(files[f]));
    if g != f {
      OtherFile(files, f, g, l);
      assert Entry(l.id, l.owner) in table;
    } else {
      assert Stems(files[f], ids, owner, l) && l.id in Ids(list);
      if l.id in Ids(files[f]) {
        var m :| m in files[f] && m.id == l.id;
        assert Entry(m.id, m.owner) in table;
        var l0 :| l0 in files[f] && l0.id == l.id && l0.owner == l.owner;
        assert Entry(l0.id, l0.owner) in table;
      }
    }
  }

  lemma OtherFile(files: Files, f: nat, g: nat, l: Lock)
    requires OneFile(files) && f in files && g in files && f != g && l in files[g]
    ensures l.id !in Ids(files[f])
  {
  }

  // ---- Searching

  /** The first lock on the file that the request conflicts with. */
  method FindConflict(list: seq<Lock>, r: Request) returns (i: nat)
    ensures i <= |list| && (forall j :: 0 <= j < i ==> !Conflicts(r, list[j])) && (i < |list| ==> Conflicts(r, list[i]))
  {
    i := 0;
    while i < |list|
      invariant i <= |list| && forall j :: 0 <= j < i ==> !Conflicts(r, list[j])
    {
      if list[i].posix && Conflicts(r, list[i]) {
        return;
      }
      i := i + 1;
    }
  }

  ghost predicate QueuedOn(table: seq<Entry>, blocks: Blocks, a: nat, e: Entry) {
    e in table && e.owner != 0 && exists w :: Waiting(blocks, e.id, w) && w.owner == a
  }

  /** Looks through the block lists of all locks for a task that is waiting. */
  method FindWait(table: seq<Entry>, blocks: Blocks, blocked: nat) returns (found: Node, ghost e: Entry)
    ensures found.Some? ==> QueuedOn(table, blocks, blocked, e) && found.owner == e.owner
    ensures found.None? ==> forall e' :: !QueuedOn(table, blocks, blocked, e')
  {
    e := Entry(0, 0);
    var i := 0;
    while i < |table|
      invariant 0 <= i <= |table| && forall j :: 0 <= j < i ==> !QueuedOn(table, blocks, blocked, table[j])
    {
      if table[i].owner != 0 && table[i].id in blocks {
        var ws := blocks[table[i].id];
        var k := 0;
        while k < |ws|
          invariant 0 <= k <= |ws| && forall j :: 0 <= j < k ==> ws[j].owner != blocked
        {
          if ws[k].owner == blocked {
            e := table[i];
            assert Waiting(blocks, e.id, ws[k]);
            return Some(table[i].owner), e;
          }
          k := k + 1;
        }
      }
      i := i + 1;
    }
    found := None;
  }

  /** What the search finds is what the task waits for. */
  lemma QueuedIsWaiting(files: Files, blocks: Blocks, table: seq<Entry>, nextId: nat, waits: map<nat, nat>, a: nat,
                        e: Entry)
    requires BlocksOk(files, blocks, waits) && TableOk(files, table, nextId) && QueuedOn(table, blocks, a, e)
    ensures a in waits && waits[a] == e.owner
  {
    var w :| Waiting(blocks, e.id, w) && w.owner == a;
    assert WaiterOk(files, waits, e.id, w);
    var f, l :| WaitsRightly(files, waits, e.id, w, f, l);
    assert Entry(l.id, l.owner) in table;
  }

  lemma WaitingIsQueued(files: Files, blocks: Blocks, table: seq<Entry>, nextId: nat, waits: map<nat, nat>,
                        a: nat) returns (e: Entry)
    requires FilesOk(files) && BlocksOk(files, blocks, waits) && TableOk(files, table, nextId) && a in waits
    ensures QueuedOn(table, blocks, a, e)
  {
    var id, w :| Waiting(blocks, id, w) && w.owner == a;
    assert WaiterOk(files, waits, id, w);
    var f, l :| WaitsRightly(files, waits, id, w, f, l);
    PosixHasOwner(files[f], l);
    e := Entry(l.id, l.owner);
  }

  /** The lock a request waits for is the first in the list that it conflicts with. */
  ghost predicate FirstConflict(list: seq<Lock>, r: Request, i: nat) {
    i < |list| && Conflicts(r, list[i]) && forall j :: 0 <= j < i ==> !Conflicts(r, list[j])
  }

  /** What becomes of a request that conflicts with l. */
  ghost function Refused(waits: map<nat, nat>, r: Request, l: Lock, wait: bool, signal: bool): Outcome {
    if !wait then Again
    else if !Acyclic(waits[r.owner := l.owner]) then Deadlock
    else if signal then Restart
    else Asleep
  }

  /** locks_insert_block: a waiter goes to the end of the queue. */
  function Queued(blocks: Blocks, id: nat, r: Request): Blocks {
    blocks[id := (if id in blocks then blocks[id] else []) + [r]]
  }

  /** The request is turned away, or queued, on account of the first lock it conflicts with. */
  ghost predicate Turned(list: seq<Lock>, r: Request, wait: bool, signal: bool, waits0: map<nat, nat>,
                         waits: map<nat, nat>, blocks0: Blocks, blocks: Blocks, out: Outcome) {
    exists i: nat ::
      FirstConflict(list, r, i) && TurnedBy(list[i], r, wait, signal, waits0, waits, blocks0, blocks, out)
  }

  ghost predicate TurnedBy(l: Lock, r: Request, wait: bool, signal: bool, waits0: map<nat, nat>, waits: map<nat, nat>,
                           blocks0: Blocks, blocks: Blocks, out: Outcome) {
    && out == Refused(waits0, r, l, wait, signal)
    && waits == (if out == Asleep then waits0[r.owner := l.owner] else waits0)
    && blocks == (if out == Asleep then Queued(blocks0, l.id, r) else blocks0)
  }

  // ---- Closing a file

  predicate Closes(owners: set<nat>, l: Lock) {
    l.posix && l.owner in owners
  }

  function Without(list: seq<Lock>, owners: set<nat>): seq<Lock> {
    if list == [] then []
    else if Closes(owners, list[|list| - 1]) then Without(list[..|list| - 1], owners)
    else Without(list[..|list| - 1], owners) + [list[|list| - 1]]
  }

  ghost function ClosedIds(list: seq<Lock>, owners: set<nat>): set<nat> {
    set l | l in list && Closes(owners, l) :: l.id
  }

  /** The first n locks of the file have been looked at. */
  ghost predicate Closing(files0: Files, files: Files, blocks0: Blocks, blocks: Blocks, f: nat, owners: set<nat>,
                          n: nat, i: nat) {
    && f in files0 && n <= |files0[f]| && i == |Without(files0[f][..n], owners)|
    && files == files0[f := Without(files0[f][..n], owners) + files0[f][n..]]
    && blocks == blocks0 - ClosedIds(files0[f][..n], owners)
  }

  lemma ClosingStart(files: Files, blocks: Blocks, f: nat, owners: set<nat>)
    requires f in files
    ensures Closing(files, files, blocks, blocks, f, owners, 0, 0)
  {
    assert files[f] == [] + files[f][0..];
  }

  lemma ClosingStep(files0: Files, files: Files, blocks0: Blocks, blocks: Blocks, f: nat, owners: set<nat>, n: nat,
                    i: nat)
    requires Closing(files0, files, blocks0, blocks, f, owners, n, i) && i < |files[f]|
    ensures n < |files0[f]|
    ensures if Closes(owners, files[f][i])
      then Closing(files0, files[f := files[f][..i] + files[f][i + 1..]], blocks0, blocks - {files[f][i].id}, f,
        owners, n + 1, i)
      else Closing(files0, files, blocks0, blocks, f, owners, n + 1, i + 1)
  {
    hide Without, ClosedIds, Closes;
    WithoutNext(files0[f], n, owners, files[f]);
  }

  lemma ClosingEnd(files0: Files, files: Files, blocks0: Blocks, blocks: Blocks, f: nat, owners: set<nat>, n: nat,
                   i: nat)
    requires Closing(files0, files, blocks0, blocks, f, owners, n, i) && i >= |files[f]|
    ensures files == files0[f := Without(files0[f], owners)] && blocks == blocks0 - ClosedIds(files0[f], owners)
  {
    hide Without, ClosedIds;
    assert files0[f][..n] == files0[f] && Without(files0[f], owners) + files0[f][n..] == Without(files0[f], owners);
  }

  lemma WithoutNext(list0: seq<Lock>, n: nat, owners: set<nat>, list: seq<Lock>)
    requires n <= |list0| && list == Without(list0[..n], owners) + list0[n..] && |Without(list0[..n], owners)| < |list|
    ensures n < |list0|
    ensures var i := |Without(list0[..n], owners)|;
      && list[i] == list0[n]
      && Without(list0[..n + 1], owners)
        == Without(list0[..n], owners) + (if Closes(owners, list[i]) then [] else [list[i]])
      && (if Closes(owners, list[i]) then list[..i] + list[i + 1..] else list)
        == Without(list0[..n + 1], owners) + list0[n + 1..]
    ensures ClosedIds(list0[..n + 1], owners)
      == ClosedIds(list0[..n], owners) + (if Closes(owners, list0[n]) then {list0[n].id} else {})
  {
    assert list0[..n + 1] == list0[..n] + [list0[n]] && list0[n..] == [list0[n]] + list0[n + 1..];
    assert list0[..n + 1][..n] == list0[..n];
  }

  lemma DropLockFiles(files: Files, f: nat, i: nat, list: seq<Lock>)
    requires FilesOk(files) && f in files && i < |files[f]| && list == files[f][..i] + files[f][i + 1..]
    ensures FilesOk(files[f := list]) && FileOk(list)
  {
    hide FileOk;
    forall l | l in list ensures l in files[f] {}
    DropLockFile(files[f], i, list);
  }

  lemma DropLockFile(list0: seq<Lock>, i: nat, list: seq<Lock>)
    requires FileOk(list0) && i < |list0| && list == list0[..i] + list0[i + 1..]
    ensures FileOk(list)
  {
    hide Before, Proper;
    forall j | 0 <= j < |list| ensures list[j] == list0[Was(i, j)] {}
    forall j, k, l | 0 <= j < k < l < |list| && list[j].owner == list[l].owner != 0
      ensures list[k].owner == list[j].owner
    {
      assert list0[Was(i, j)].owner == list0[Was(i, k)].owner;
    }
  }

  /** Where an entry was before entry i went. */
  ghost function Was(i: nat, j: nat): nat {
    if j < i then j else j + 1
  }

  lemma DropLockBlocks(files: Files, blocks: Blocks, waits: map<nat, nat>, f: nat, i: nat, list: seq<Lock>)
    requires BlocksOk(files, blocks, waits) && f in files && i < |files[f]| && list == files[f][..i] + files[f][i + 1..]
    ensures var id := files[f][i].id; BlocksOk(files[f := list], blocks - {id}, waits - WokenOwners(blocks, {id}))
  {
    var id0 := files[f][i].id;
    var files', blocks', waits' := files[f := list], blocks - {id0}, waits - WokenOwners(blocks, {id0});
    forall id, w | Waiting(blocks', id, w) ensures WaiterOk(files', waits', id, w) {
      assert Waiting(blocks, id, w);
      var g, l :| WaitsRightly(files, waits, id, w, g, l);
      assert w.owner in waits' by { StillWaiting(files, blocks, waits, {id0}, id, w); }
      assert l in files'[g] by { if g == f { StaysIn(files[f], i, list, l); } }
      assert WaitsRightly(files', waits', id, w, g, l);
    }
    FewerWaiters(files, blocks, waits, {id0});
  }

  lemma StaysIn(list0: seq<Lock>, i: nat, list: seq<Lock>, l: Lock)
    requires i < |list0| && list == list0[..i] + list0[i + 1..] && l in list0 && l != list0[i]
    ensures l in list
  {
    var j :| 0 <= j < |list0| && list0[j] == l;
    assert list[if j < i then j else j - 1] == l;
  }

  class LockManager {
    /** The list of locks of each file, the waiters queued on each lock, the table of all locks. */
    var files: Files
    var blocks: Blocks
    var table: seq<Entry>
    var nextId: nat
    ghost var waits: map<nat, nat>

    ghost predicate Valid()
      reads this
    {
      StateOk(files, blocks, table, nextId, waits)
    }

    constructor (inodes: set<nat>)
      ensures Valid() && waits == map[] && files == map f | f in inodes :: []
    {
      files := map f | f in inodes :: [];
      blocks, table, nextId := map[], [], 1;
      waits := map[];
      new;
      NothingWaits();
    }

    /** posix_locks_deadlock: would the caller, by waiting for `blocked`, wait for itself? */
    method PosixLocksDeadlock(caller: nat, blocked0: nat) returns (r: bool)
      requires Valid()
      ensures r <==> Reaches(waits, blocked0, caller)
      ensures caller !in waits ==> (r <==> !Acyclic(waits[caller := blocked0]))
    {
      hide FilesOk, BlocksOk, TableOk, Acyclic, QueuedOn;
      if caller !in waits { NewLink(waits, caller, blocked0); }
      var blocked := blocked0;
      ghost var n: nat, seen: set<nat> := 0, {};
      while true
        invariant Follow(waits, blocked0, n) == Some(blocked)
        invariant forall i: nat :: i < n ==> Follow(waits, blocked0, i) != Some(caller)
        invariant forall x :: x in seen ==> exists i: nat :: i < n && Follow(waits, blocked0, i) == Some(x)
        decreases waits.Keys - seen
      {
        if caller == blocked {
          return true;
        }
        var next;
        ghost var e;
        next, e := FindWait(table, blocks, blocked);
        if next.None? {
          if blocked in waits {
            var e' := WaitingIsQueued(files, blocks, table, nextId, waits, blocked);
            assert false;
          }
          NoFurther(waits, blocked0, blocked, n, caller);
          return false;
        }
        QueuedIsWaiting(files, blocks, table, nextId, waits, blocked, e);
        NotSeen(waits, blocked0, blocked, n, seen);
        FollowAdd(waits, blocked0, n, 1);
        OneStep(waits, blocked);
        seen := seen + {blocked};
        blocked, n := next.owner, n + 1;
      }
    }

    /** posix_lock_file. A request that must wait goes to sleep on the first lock it conflicts
        with; it is made again after a wakeup. `signal` says a signal is pending. */
    method PosixLockFile(f: nat, r: Request, wait: bool, signal: bool) returns (out: Outcome, ghost pre: seq<Lock>,
                         ghost s: seq<Lock>, ghost s': seq<Lock>, ghost post: seq<Lock>)
      requires Valid() && f in files && r.owner != 0 && r.owner !in waits && r.start <= r.end
      modifies this
      ensures Valid()
      ensures out != Granted ==> files == old(files) && table == old(table)
      ensures out == Granted <==> Fits(old(files)[f], r, old(nextId))
      ensures out == Granted <==> Unopposed(old(files)[f], r)
      ensures out == Granted <==> r.kind.Unlock? || forall l :: l in old(files)[f] ==> !Conflicts(r, l)
      ensures out != Granted ==> Turned(files[f], r, wait, signal, old(waits), waits, old(blocks), blocks, out)
      ensures out == Granted ==>
        && old(files)[f] == pre + s + post && files == old(files)[f := pre + s' + post]
        && NoneOf(pre, r.owner) && NoneOf(post, r.owner)
        && Normal(s', r.owner) && Overridden(s, s', r)
      ensures out == Granted ==>
        forall id :: id in old(blocks) ==> if id in blocks then blocks[id] == old(blocks)[id] else id in Ids(s)
    {
      hide FilesOk, BlocksOk, TableOk, Acyclic, Overridden, Conflicts, TurnedBy, Fits, Unopposed;
      GrantableIff(files, f, r, nextId);
      pre, s, s', post := [], [], [], [];
      if !r.kind.Unlock? {
        var i := FindConflict(files[f], r);
        if i < |files[f]| {
          assert files[f][i] in files[f] && FirstConflict(files[f], r, i);
          out := Blocked(f, files[f][i], r, wait, signal);
          return;
        }
      }
      pre, s, s', post := Grant(f, r);
      out := Granted;
    }

    /** The request conflicts with l. */
    method Blocked(f: nat, l: Lock, r: Request, wait: bool, signal: bool) returns (out: Outcome)
      requires Valid() && f in files && l in files[f] && Conflicts(r, l) && r.owner != 0 && r.owner !in waits
      requires r.start <= r.end
      modifies this`blocks, this`waits
      ensures Valid() && out != Granted && TurnedBy(l, r, wait, signal, old(waits), waits, old(blocks), blocks, out)
    {
      hide FilesOk, BlocksOk, TableOk, Acyclic, Conflicts;
      if !wait {
        return Again;
      }
      var dead := PosixLocksDeadlock(r.owner, l.owner);
      if dead {
        return Deadlock;
      }
      if signal {
        return Restart;
      }
      SleepBlocks(files, blocks, waits, f, l, r);
      blocks := Queued(blocks, l.id, r);
      waits := waits[r.owner := l.owner];
      out := Asleep;
    }

    /** The request conflicts with nothing: edit the list and wake whoever may go on. */
    method Grant(f: nat, r: Request) returns (ghost pre: seq<Lock>, ghost s: seq<Lock>, ghost s': seq<Lock>,
                 ghost post: seq<Lock>)
      requires Valid() && f in files && r.owner != 0 && r.start <= r.end
      requires r.kind.Unlock? || forall l :: l in files[f] ==> !Conflicts(r, l)
      modifies this
      ensures Valid()
      ensures old(files)[f] == pre + s + post && files == old(files)[f := pre + s' + post]
      ensures NoneOf(pre, r.owner) && NoneOf(post, r.owner) && Normal(s', r.owner) && Overridden(s, s', r)
      ensures forall id :: id in old(blocks) ==> if id in blocks then blocks[id] == old(blocks)[id] else id in Ids(s)
    {
      hide FilesOk, BlocksOk, TableOk, Acyclic, Overridden, Conflicts, Edited, FileOk, Normal, Stems, OneFile;
      hide Retabled, WokenOwners, Ids;
      ghost var ids := {nextId, nextId + 1};
      assert FileOk(files[f]) && OneFile(files) by { FileIsOk(files, f); }
      var list, woken;
      list, woken, pre, s, s', post := EditList(files[f], r, nextId, nextId + 1);
      GrantFiles(files, f, list, r, woken, ids, table, nextId, pre, s, s', post);
      GrantBlocks(files, blocks, waits, f, list, r, woken, ids, pre, s, s', post);
      FewerLinks(waits, WokenOwners(blocks, woken));
      forall l | l in list ensures Stems(files[f], ids, r.owner, l) {
        FromOld(files[f], list, r, woken, ids, pre, s, s', post, l);
      }
      TableAfter(files, f, list, ids, r.owner, table, nextId, nextId + 2);
      EditedFacts(files[f], list, r, woken, ids, pre, s, s', post);
      table := Retabled(table, files[f], list);
      waits := waits - WokenOwners(blocks, woken);
      blocks := blocks - woken;
      files := files[f := list];
      nextId := nextId + 2;
    }

    /** locks_delete_lock: the lock leaves its lists, and those who waited for it are woken. */
    method DeleteLock(f: nat, i: nat)
      requires Valid() && f in files && i < |files[f]|
      modifies this
      ensures Valid()
      ensures files == old(files)[f := old(files)[f][..i] + old(files)[f][i + 1..]]
      ensures blocks == old(blocks) - {old(files)[f][i].id}
    {
      hide FilesOk, BlocksOk, TableOk, Acyclic, FileOk, OneFile, Retabled, WokenOwners;
      var id := files[f][i].id;
      var list := files[f][..i] + files[f][i + 1..];
      assert OneFile(files) by { FileIsOk(files, f); }
      DropLockFiles(files, f, i, list);
      DropLockBlocks(files, blocks, waits, f, i, list);
      FewerLinks(waits, WokenOwners(blocks, {id}));
      forall l | l in list ensures Stems(files[f], {}, 0, l) {}
      TableAfter(files, f, list, {}, 0, table, nextId, nextId);
      table := Retabled(table, files[f], list);
      waits := waits - WokenOwners(blocks, {id});
      blocks := blocks - {id};
      files := files[f := list];
    }

    /** locks_remove_posix: closing a file drops every POSIX lock the closing task holds on it. */
    method RemovePosix(f: nat, owners: set<nat>)
      requires Valid() && f in files
      modifies this
      ensures Valid()
      ensures files == old(files)[f := Without(old(files)[f], owners)]
      ensures blocks == old(blocks) - ClosedIds(old(files)[f], owners)
    {
      hide FilesOk, BlocksOk, TableOk, Acyclic, Closing, Without, Closes, ClosedIds;
      ghost var list0 := files[f];
      ghost var n := 0;
      ClosingStart(files, blocks, f, owners);
      var i := 0;
      while i < |files[f]|
        invariant Valid() && f in files && n <= |list0|
        invariant Closing(old(files), files, old(blocks), blocks, f, owners, n, i)
        decreases |list0| - n
      {
        ClosingStep(old(files), files, old(blocks), blocks, f, owners, n, i);
        if Closes(owners, files[f][i]) {
          DeleteLock(f, i);
        } else {
          i := i + 1;
        }
        n := n + 1;
      }
      ClosingEnd(old(files), files, old(blocks), blocks, f, owners, n, i);
    }

    /** locks_delete_block by a sleeper that is interrupted. */
    method Unblock(id: nat, a: nat)
      requires Valid() && id in blocks && exists w :: w in blocks[id] && w.owner == a
      modifies this`blocks, this`waits
      ensures Valid() && waits == old(waits) - {a} && blocks == old(blocks)[id := DropOwner(old(blocks)[id], a)]
    {
      hide FilesOk, BlocksOk, TableOk, Acyclic, DropOwner;
      UnblockBlocks(files, blocks, waits, id, a);
      FewerLinks(waits, {a});
      blocks := blocks[id := DropOwner(blocks[id], a)];
      waits := waits - {a};
    }
  }

  lemma NothingWaits()
    ensures Acyclic(map[])
  {
    forall x: nat, n: nat | n > 0 ensures Follow(map[], x, n) != Some(x) {}
  }

  lemma GrantableIff(files: Files, f: nat, r: Request, id: nat)
    requires FilesOk(files) && f in files && r.start <= r.end
    ensures (r.kind.Unlock? || forall l :: l in files[f] ==> !Conflicts(r, l)) <==> Fits(files[f], r, id)
    ensures Fits(files[f], r, id) <==> Unopposed(files[f], r)
  {
    FitsIff(files[f], r, id);
  }

  lemma FileIsOk(files: Files, f: nat)
    requires FilesOk(files) && f in files
    ensures FileOk(files[f]) && OneFile(files)
  {
  }

  lemma EditedFacts(list0: seq<Lock>, list: seq<Lock>, r: Request, woken: set<nat>, ids: set<nat>, pre: seq<Lock>,
                    s: seq<Lock>, s': seq<Lock>, post: seq<Lock>)
    requires Edited(list0, list, r, woken, ids, pre, s, s', post)
    ensures list0 == pre + s + post && list == pre + s' + post
    ensures NoneOf(pre, r.owner) && NoneOf(post, r.owner) && Normal(s', r.owner) && Overridden(s, s', r)
    ensures woken <= Ids(s)
  {
  }

  lemma OneStep(waits: map<nat, nat>, x: nat)
    requires x in waits
    ensures Follow(waits, x, 1) == Some(waits[x])
  {
    assert Follow(waits, waits[x], 0) == Some(waits[x]);
  }

  /** The walk along waits has come to an end without meeting the caller. */
  lemma NoFurther(waits: map<nat, nat>, x: nat, y: nat, n: nat, caller: nat)
    requires Follow(waits, x, n) == Some(y) && y !in waits && y != caller
    requires forall i: nat :: i < n ==> Follow(waits, x, i) != Some(caller)
    ensures !Reaches(waits, x, caller)
  {
    forall i: nat ensures Follow(waits, x, i) != Some(caller) {
      if i > n {
        FollowAdd(waits, x, n, i - n);
      }
    }
  }

  /** The walk meets nobody twice. */
  lemma NotSeen(waits: map<nat, nat>, x: nat, y: nat, n: nat, seen: set<nat>)
    requires Acyclic(waits) && Follow(waits, x, n) == Some(y)
    requires forall z :: z in seen ==> exists i: nat :: i < n && Follow(waits, x, i) == Some(z)
    ensures y !in seen
  {
    hide Follow;
    if y in seen {
      var i: nat :| i < n && Follow(waits, x, i) == Some(y);
      FollowAdd(waits, x, i, n - i);
    }
  }
}
