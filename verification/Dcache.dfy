/** The directory entry cache: reference counting with deferred freeing, pruning, renaming,
    and the walks that go up and down the tree by pointers alone. */
module Dcache {
  import opened Links
  import opened Lists
  import opened DentryTree
  import opened DentryState
  import opened DentryPut
  import opened DentryMove

  class Cache {
    var live: Live
    var unused: seq<nat>
    var nrUnused: int
    var chains: Chains
    /** How many references to each entry there are from outside the cache. */
    ghost var ext: map<nat, int>
    const bucket: (nat, nat) -> nat
    const nameHash: string -> nat

    ghost predicate Shape()
      reads this
    {
      ShapeOk(live, unused, chains, bucket, nameHash) && nrUnused == |unused|
    }

    ghost predicate Valid()
      reads this
    {
      Shape() && RefsOk(live, ext)
    }

    constructor (bucket: (nat, nat) -> nat, nameHash: string -> nat)
      ensures Valid() && live == map[] && unused == []
    {
      this.bucket, this.nameHash := bucket, nameHash;
      live, unused, nrUnused, chains, ext := map[], [], 0, map[], map[];
    }

    /** d_alloc: a new entry at address d, held by the caller. Its parent gets a reference. */
    method Alloc(d: nat, parent: nat, name: string, hash: nat)
      requires Valid() && parent in live && d !in live
      modifies this`live, this`ext
      ensures Valid() && live == Allocated(old(live), d, parent, name, hash) && ext == old(ext)[d := 1]
      ensures live.Keys == old(live).Keys + {d} && live[d] == Dentry(parent, name, hash, 1, false, [])
      ensures forall x :: x in old(live) && x != parent ==> live[x] == old(live)[x]
      ensures var p := old(live)[parent]; live[parent] == p.(count := p.count + 1, subdirs := [d] + p.subdirs)
    {
      hide ShapeOk, RefsOk;
      AllocOk(live, ext, unused, chains, bucket, nameHash, d, parent, name, hash);
      live := Allocated(live, d, parent, name, hash);
      ext := ext[d := 1];
    }

    /** d_alloc_root */
    method AllocRoot(d: nat)
      requires Valid() && d !in live
      modifies this`live, this`ext
      ensures Valid() && live == AllocatedRoot(old(live), d) && ext == old(ext)[d := 1]
      ensures live == old(live)[d := Dentry(d, "/", 0, 1, false, [])]
    {
      hide ShapeOk, RefsOk;
      AllocRootOk(live, ext, unused, chains, bucket, nameHash, d);
      live := AllocatedRoot(live, d);
      ext := ext[d := 1];
    }

    /** d_drop: nobody finds d any more. The cache stays in order just when somebody holds d. */
    method Drop(d: nat)
      requires Valid() && d in live
      modifies this`live, this`chains
      ensures live == Marked(old(live), d, false) && (Valid() <==> old(live)[d].count > 0)
      ensures Tree(live) && HashOk(live, chains, bucket, nameHash) && RefsOk(live, ext)
      ensures forall p, name, x :: Found(live, p, name, x) <==> x != d && Found(old(live), p, name, x)
    {
      DropOk(live, ext, unused, chains, bucket, nameHash, d);
      hide Tree, LruOk, HashOk, RefsOk;
      if live[d].hashed {
        chains := Unchained(chains, bucket(live[d].parent, live[d].hash), d);
      }
      live := Marked(live, d, false);
    }

    /** d_rehash */
    method Rehash(d: nat)
      requires Valid() && d in live && !live[d].hashed && !IsRoot(live, d) && live[d].hash == nameHash(live[d].name)
      modifies this`live, this`chains
      ensures Valid() && live == Marked(old(live), d, true)
      ensures forall p, name, x :: Found(live, p, name, x) <==>
        (x == d && p == live[d].parent && name == live[d].name) || Found(old(live), p, name, x)
    {
      hide ShapeOk, RefsOk;
      RehashOk(live, ext, unused, chains, bucket, nameHash, d);
      chains := Rechained(chains, bucket(live[d].parent, live[d].hash), d);
      live := Marked(live, d, true);
    }

    /** d_lookup: searches one hash chain, which is as good as searching the whole cache. */
    method Lookup(parent: nat, name: string, hash: nat) returns (r: Node)
      requires Valid() && hash == nameHash(name)
      modifies this`live, this`ext
      ensures Valid()
      ensures r.Some? ==>
        && Found(old(live), parent, name, r.owner)
        && live == Counted(old(live), r.owner, old(live)[r.owner].count + 1)
          && ext == old(ext)[r.owner := old(ext)[r.owner] + 1]
      ensures r.None? ==> live == old(live) && ext == old(ext) && forall x :: !Found(live, parent, name, x)
    {
      hide ShapeOk, RefsOk;
      var s := Chain(chains, bucket(parent, hash));
      var i := 0;
      while i < |s|
        invariant Valid() && live == old(live) && ext == old(ext)
        invariant 0 <= i <= |s| && forall j :: 0 <= j < i ==> !Found(live, parent, name, s[j])
      {
        InChain(live, unused, chains, bucket, nameHash, bucket(parent, hash), s[i]);
        if live[s[i]].hash == hash && live[s[i]].parent == parent && live[s[i]].name == name {
          var d := s[i];
          Dget(d);
          return Some(d);
        }
        i := i + 1;
      }
      forall x ensures !Found(live, parent, name, x) {
        WouldBeThere(live, unused, chains, bucket, nameHash, parent, name, x);
      }
      r := None;
    }

    /** is_subdir: is a the same as b or somewhere under it? */
    method IsSubdir(a: nat, b: nat) returns (r: bool)
      requires Valid() && a in live && b in live
      ensures r <==> a in Below(live, b)
    {
      hide ShapeOk, RefsOk, Below;
      TreeOf(live, unused, chains, bucket, nameHash);
      var d := a;
      while d != b
        invariant d in live && (a in Below(live, b) <==> d in Below(live, b))
        decreases live.Keys - Below(live, d)
      {
        StepUp(live, d, b);
        ParentOf(live, d);
        var parent := live[d].parent;
        if parent == d {
          return false;
        }
        ChildBelow(live, parent, d);
        SelfBelow(live, parent);
        d := parent;
      }
      SelfBelow(live, b);
      r := true;
    }

    /** d_move: a takes the name and place of b. `junk` is what is left in b's name. */
    method Move(a: nat, b: nat, junk: string)
      requires Valid() && Movable(live, a, b) && Apart(live, a, b) && ext[a] > 0 && ext[b] > 0
      modifies this`live, this`chains
      ensures Valid() && old(live)[a].parent in old(live) && old(live)[b].parent in old(live)
      ensures live == Moved(old(live), a, b, junk)
      ensures old(live)[b].hashed && Unambiguous(old(live)) ==>
        Unambiguous(live) && Found(live, old(live)[b].parent, old(live)[b].name, a)
    {
      hide ShapeOk, RefsOk, Moved, MovedChains, Apart, Unambiguous, Found;
      MoveOk(live, ext, unused, chains, bucket, nameHash, a, b, junk);
      TreeOf(live, unused, chains, bucket, nameHash);
      if live[b].hashed && Unambiguous(live) {
        MoveFound(live, a, b, junk);
      }
      chains := MovedChains(live, chains, bucket, a, b);
      live := Moved(live, a, b, junk);
    }

    /** dget */
    method Dget(d: nat)
      requires Valid() && d in live
      modifies this`live, this`ext
      ensures Valid() && live == Counted(old(live), d, old(live)[d].count + 1) && ext == old(ext)[d := old(ext)[d] + 1]
    {
      hide Tree, HashOk;
      CountedShape(live, d, live[d].count + 1, unused, unused, chains, bucket, nameHash);
      live := Counted(live, d, live[d].count + 1);
      ext := ext[d := ext[d] + 1];
    }

    /** dput by somebody who has a reference. */
    method Dput(d: nat, ghost p: nat)
      requires Valid() && d in live && ext[d] > 0
      modifies this`live, this`unused, this`nrUnused, this`ext
      ensures Valid() && PutDone(old(live), old(ext)[d := old(ext)[d] - 1], old(unused), live, ext, unused, d, p)
    {
      hide ShapeOk, PutDone;
      ext := ext[d := ext[d] - 1];
      Put(d, p);
    }

    /** prune_one_dentry: d has just been taken off the list of unused entries. */
    method PruneOne(d: nat, ghost p: nat)
      requires ShapeOk(live, unused + [d], chains, bucket, nameHash) && nrUnused == |unused| && RefsOk(live, ext)
      requires d in live && live[d].count == 0
      modifies this
      ensures Valid() && ext.Keys == live.Keys && Shed(old(live), old(ext), live, ext) && d in Gone(old(live), live)
      ensures HashedGone(old(live), live) == {d}
      ensures Guarded(old(live), old(ext), p, d) && d != p ==> Inside(old(live), live, p)
      ensures forall seg :: Idle(old(live), old(unused), seg) && d !in seg ==> Idle(live, unused, seg)
    {
      hide ShapeOk, Owed, PutDone, Freed, Shed, Gone, HashedGone, Inside, Guarded, Idle, Unchained;
      PruneFrees(live, ext, unused, chains, bucket, nameHash, d);
      ghost var t, ext0, unused0, chains0 := live, ext, unused, chains;
      var parent := live[d].parent;
      chains := Unchained(chains, bucket(live[d].parent, live[d].hash), d);
      live := Freed(live, d);
      ext := ext - {d};
      Put(parent, p);
      PruneResult(t, ext0, unused0, d, p, live, ext, unused, chains0, chains, bucket, nameHash);
    }

    /** prune_dcache: throws away unused entries from the end of the list, `count` of them, or
        all if count is not positive. Freeing one can put its parent on the list. */
    method PruneDcache(count0: int, ghost seg: seq<nat>, ghost p: nat)
      requires Valid()
      modifies this
      ensures Valid() && Pruned(old(live), old(ext), old(unused), count0, seg, p, live, ext, unused)
    {
      hide ShapeOk, RefsOk, Pruning, Pruned, Shed, Gone, HashedGone, Inside, Guarded, Idle;
      var count := count0;
      ghost var t0, ext0, unused0 := live, ext, unused;
      PruneBegin(live, ext, unused, chains, bucket, nameHash, count, seg, p);
      while unused != []
        invariant Valid() && Pruning(t0, ext0, unused0, count0, seg, p, live, ext, unused, count)
        decreases |live|, |unused|
      {
        var d := unused[|unused| - 1];
        ghost var t1, ext1, unused1, chains1 := live, ext, unused[..|unused| - 1], chains;
        assert unused == unused1 + [d];
        TailFacts(live, ext, unused1, d, chains, bucket, nameHash);
        nrUnused := nrUnused - 1;
        unused := unused[..|unused| - 1];
        if live[d].count == 0 {
          PruneOne(d, p);
          PruneCounts(t0, ext0, unused0, count0, seg, p, t1, ext1, unused1, chains1, bucket, nameHash, count, d,
            live, ext, unused);
          count := count - 1;
          if count == 0 {
            return;
          }
        } else {
          PruneSkips(t0, ext0, unused0, count0, seg, p, live, ext, unused, count, d);
        }
      }
      PruneEnds(t0, ext0, unused0, count0, seg, p, live, ext, unused, count);
    }

    /** is_root_busy: would the root be in use if everything under it were freed? */
    method IsRootBusy(root: nat) returns (busy: bool)
      requires Valid() && root in live
      ensures busy <==> (exists x :: BusyLeaf(live, root, x)) || Users(live, ext, root) > 1
    {
      hide ShapeOk, RefsOk, Tree, Below, Walk, Remaining, BusyLeaf;
      assert Tree(live) && RefsOk(live, ext) by { TreeOf(live, unused, chains, bucket, nameHash); }
      var p, count := root, live[root].count;
      var i: nat := 0;
      ghost var seen: seq<nat> := [];
      WalkBegin(live, root);
      UsersAre(live, ext, root);
      while true
        invariant p in live && p in Below(live, root) && i <= |live[p].subdirs|
        invariant seen + Remaining(live, root, p, i) == Walk(live, root, 0) && (forall x :: x in seen ==> x in live)
        invariant count == live[root].count + Sum(Extra(live), seen)
        invariant forall x :: x in seen ==> !BusyLeaf(live, root, x)
        decreases |Remaining(live, root, p, i)|, live.Keys - Below(live, p)
      {
        if i < |live[p].subdirs| {
          WalkDown(live, root, p, i);
          var c := live[p].subdirs[i];
          SeenNext(live, seen, c, Remaining(live, root, c, 0));
          count := count + (live[c].count - 1);
          i := i + 1;
          seen := seen + [c];
          if live[c].subdirs != [] {
            p, i := c, 0;
            assert !BusyLeaf(live, root, c) by { NotLeaf(live, root, c); }
          } else if live[c].count != 0 {
            NoNegative(live, ext, c);
            LeafIs(live, root, c);
            return true;
          } else {
            assert !BusyLeaf(live, root, c) by { NotLeaf(live, root, c); }
          }
        } else if p != root {
          WalkUp(live, root, p);
          var q := live[p].parent;
          i := IndexOf(live[q].subdirs, p) + 1;
          p := q;
        } else {
          WalkUp(live, root, p);
          break;
        }
      }
      assert seen == Walk(live, root, 0);
      AllSeen(live, root);
      busy := count > 1;
    }

    /** select_parent: moves the unused entries under `parent` to the end of the list. */
    method SelectParent(parent: nat) returns (found: nat)
      requires Valid() && parent in live
      modifies this`unused
      ensures Valid() && Tree(live) && Selected(live, parent, unused, found)
      ensures forall x :: x in unused <==> x in old(unused)
      ensures var zeros := Zeros(live, Walk(live, parent, 0)); unused == Minus(old(unused), Elems(zeros)) + zeros
    {
      hide ShapeOk, RefsOk, Tree, Below, Walk, Remaining, Idle, Zeros, LruOk, Minus, Elems;
      assert Distinct(unused) by { TreeOf(live, unused, chains, bucket, nameHash); ListOf(live, unused); }
      AllInOrder(unused);
      assert Tree(live) && LruOk(live, unused) by { TreeOf(live, unused, chains, bucket, nameHash); }
      var p := parent;
      var i: nat := 0;
      found := 0;
      ghost var seen: seq<nat> := [];
      WalkBegin(live, parent);
      NoneFound(live, unused);
      while true
        invariant p in live && p in Below(live, parent) && i <= |live[p].subdirs|
        invariant seen + Remaining(live, parent, p, i) == Walk(live, parent, 0)
        invariant Valid() && LruOk(live, unused) && Idle(live, unused, Zeros(live, seen))
        invariant found == |Zeros(live, seen)|
        invariant forall x :: x in unused <==> x in old(unused)
        invariant Distinct(old(unused)) && unused == Minus(old(unused), Elems(Zeros(live, seen))) + Zeros(live, seen)
        decreases |Remaining(live, parent, p, i)|, live.Keys - Below(live, p)
      {
        if i < |live[p].subdirs| {
          WalkDown(live, parent, p, i);
          var c := live[p].subdirs[i];
          i := i + 1;
          NotYet(live, parent, seen, c, Remaining(live, parent, c, 0));
          ZerosNext(live, seen, c);
          if live[c].count == 0 {
            MovesToEnd(live, unused, Zeros(live, seen), c, chains, bucket, nameHash);
            OthersInOrder(old(unused), unused, Zeros(live, seen), c);
            unused := Remove(unused, c) + [c];
            found := found + 1;
          }
          seen := seen + [c];
          if live[c].subdirs != [] {
            p, i := c, 0;
          }
        } else if p != parent {
          WalkUp(live, parent, p);
          var q := live[p].parent;
          i := IndexOf(live[q].subdirs, p) + 1;
          p := q;
        } else {
          WalkUp(live, parent, p);
          break;
        }
      }
      assert seen == Walk(live, parent, 0);
    }

    /** shrink_dcache_parent, called by somebody who holds `parent`. */
    method ShrinkDcacheParent(parent: nat)
      requires Valid() && parent in live && ext[parent] > 0
      modifies this
      ensures Valid() && Shed(old(live), old(ext), live, ext) && parent in live && Inside(old(live), live, parent)
      ensures forall x :: x in live && x in Below(live, parent) && x != parent ==> live[x].count > 0
    {
      hide ShapeOk, RefsOk, Tree, Below, Walk, Idle, Zeros, Shed, Inside, Selected, Pruned;
      ghost var t0, ext0 := live, ext;
      ShrinkStart(live, ext, unused, chains, bucket, nameHash, parent);
      var found := SelectParent(parent);
      while found != 0
        invariant Valid() && parent in live && ext0.Keys == t0.Keys && Linked(t0)
        invariant Shrinking(t0, ext0, parent, live, ext)
        invariant Selected(live, parent, unused, found)
        decreases |live|
      {
        TreeOf(live, unused, chains, bucket, nameHash);
        ghost var seg := Zeros(live, Walk(live, parent, 0));
        ghost var t1, ext1, unused1, chains1 := live, ext, unused, chains;
        PruneDcache(found, seg, parent);
        ShrinkStep(t0, ext0, parent, t1, ext1, unused1, chains1, bucket, nameHash, found, live, ext, unused, chains);
        found := SelectParent(parent);
      }
      ShrinkEnd(live, ext, unused, parent);
      assert Shed(t0, ext0, live, ext) && Inside(t0, live, parent);
    }

    /** The loop of dput: d's count is still to be decremented. p is any entry. */
    method Put(d: nat, ghost p: nat)
      requires Shape() && Owed(live, ext, d)
      modifies this`live, this`unused, this`nrUnused, this`ext
      ensures Valid() && PutDone(old(live), old(ext), old(unused), live, ext, unused, d, p)
    {
      hide ShapeOk, Owed, RefsOk, Putting, PutDone, Remove, Freed, Distinct;
      var dentry := d;
      ghost var t0, ext0, unused0 := live, ext, unused;
      PutStart(live, ext, unused, chains, bucket, nameHash, d, p);
      while true
        invariant Shape() && Owed(live, ext, dentry) && dentry in live
        invariant Putting(t0, ext0, unused0, live, ext, unused, d, p, dentry)
        decreases |live|
      {
        var count := live[dentry].count - 1;
        if count != 0 {
          PutHolds(t0, ext0, unused0, live, ext, unused, chains, bucket, nameHash, d, p, dentry);
          live := Counted(live, dentry, count);
          return;
        }
        PutLists(live, ext, unused, chains, bucket, nameHash, dentry);
        if live[dentry].hashed {
          PutUnused(t0, ext0, unused0, live, ext, unused, chains, bucket, nameHash, d, p, dentry);
          if dentry in unused {
            nrUnused := nrUnused - 1;
          }
          unused := [dentry] + Remove(unused, dentry);
          nrUnused := nrUnused + 1;
          live := Counted(live, dentry, 0);
          return;
        }
        PutFrees(live, ext, unused, chains, bucket, nameHash, dentry);
        PutGoesOn(t0, ext0, unused0, live, ext, unused, chains, bucket, nameHash, d, p, dentry);
        var parent := live[dentry].parent;
        if dentry in unused {
          nrUnused := nrUnused - 1;
        }
        unused := Remove(unused, dentry);
        live := Freed(live, dentry);
        ext := ext - {dentry};
        if dentry == parent {
          return;
        }
        dentry := parent;
      }
    }
  }
}
