/** Adding entries, hashing and unhashing them, and renaming. */
module DentryMove {
  import opened Links
  import opened Lists
  import opened DentryTree
  import opened DentryState

  lemma {:induction false} FollowInside(t: Live, x: nat, n: nat)
    requires Linked(t) && x in t && Follow(Up(t), x, n).Some?
    ensures Follow(Up(t), x, n).owner in t
    decreases n
  {
    ParentOf(t, x);
    if n > 0 {
      FollowInside(t, t[x].parent, n - 1);
    }
  }

  // ---- d_alloc

  function Allocated(t: Live, d: nat, p: nat, name: string, hash: nat): Live
    requires p in t
  {
    t[p := t[p].(count := t[p].count + 1, subdirs := [d] + t[p].subdirs)][d := Dentry(p, name, hash, 1, false, [])]
  }

  lemma AllocTree(t: Live, d: nat, p: nat, name: string, hash: nat)
    requires Tree(t) && p in t && d !in t
    ensures Tree(Allocated(t, d, p, name, hash))
  {
    var t' := Allocated(t, d, p, name, hash);
    assert Up(t') == Up(t)[d := p];
    NewLink(Up(t), d, p);
    forall n: nat ensures Follow(Up(t), p, n) != Some(d) {
      if Follow(Up(t), p, n).Some? { FollowInside(t, p, n); }
    }
    hide Acyclic;
    forall x | x in t' ensures Placed(t', x) { AllocPlaced(t, d, p, name, hash, x); }
  }

  lemma AllocPlaced(t: Live, d: nat, p: nat, name: string, hash: nat, x: nat)
    requires Linked(t) && p in t && d !in t && x in Allocated(t, d, p, name, hash)
    ensures Placed(Allocated(t, d, p, name, hash), x)
  {
    var t' := Allocated(t, d, p, name, hash);
    if x != d {
      assert Placed(t, x);
      JoinDistinct([d], t[x].subdirs);
      forall c ensures c in t'[x].subdirs <==> c in t' && c != x && t'[c].parent == x {
        assert c in t[x].subdirs <==> c in t && c != x && t[c].parent == x;
      }
    } else {
      forall c | c in t' && c != d ensures t'[c].parent != d { ParentOf(t, c); }
    }
  }

  lemma AllocOk(t: Live, ext: map<nat, int>, unused: seq<nat>, chains: Chains, bucket: (nat, nat) -> nat,
                nameHash: string -> nat, d: nat, p: nat, name: string, hash: nat)
    requires ShapeOk(t, unused, chains, bucket, nameHash) && RefsOk(t, ext) && p in t && d !in t
    ensures var t' := Allocated(t, d, p, name, hash);
      ShapeOk(t', unused, chains, bucket, nameHash) && RefsOk(t', ext[d := 1])
  {
    hide HashOk, Tree, RefsOk;
    AllocTree(t, d, p, name, hash);
    AllocRefs(t, ext, d, p, name, hash);
    SameHash(t, Allocated(t, d, p, name, hash), chains, bucket, nameHash);
  }

  lemma AllocRefs(t: Live, ext: map<nat, int>, d: nat, p: nat, name: string, hash: nat)
    requires RefsOk(t, ext) && p in t && d !in t
    ensures RefsOk(Allocated(t, d, p, name, hash), ext[d := 1]) && t[p].count >= 0
  {
  }

  function AllocatedRoot(t: Live, d: nat): Live {
    t[d := Dentry(d, "/", 0, 1, false, [])]
  }

  lemma AllocRootOk(t: Live, ext: map<nat, int>, unused: seq<nat>, chains: Chains, bucket: (nat, nat) -> nat,
                    nameHash: string -> nat, d: nat)
    requires ShapeOk(t, unused, chains, bucket, nameHash) && RefsOk(t, ext) && d !in t
    ensures var t' := AllocatedRoot(t, d); ShapeOk(t', unused, chains, bucket, nameHash) && RefsOk(t', ext[d := 1])
  {
    hide HashOk, Tree;
    AllocRootTree(t, d);
    SameHash(t, AllocatedRoot(t, d), chains, bucket, nameHash);
  }

  lemma AllocRootTree(t: Live, d: nat)
    requires Tree(t) && d !in t
    ensures Tree(AllocatedRoot(t, d))
  {
    var t' := AllocatedRoot(t, d);
    assert Up(t') == Up(t);
    hide Acyclic;
    forall x | x in t' ensures Placed(t', x) {
      if x != d {
        assert Placed(t, x);
      } else {
        forall c | c in t ensures t[c].parent != d { ParentOf(t, c); }
      }
    }
  }

  // ---- d_drop and d_rehash

  function Marked(t: Live, d: nat, hashed: bool): Live
    requires d in t
  {
    t[d := t[d].(hashed := hashed)]
  }

  lemma MarkedTree(t: Live, d: nat, hashed: bool)
    requires Tree(t) && d in t
    ensures Tree(Marked(t, d, hashed))
  {
    var t' := Marked(t, d, hashed);
    assert Up(t') == Up(t);
    hide Acyclic;
    forall x | x in t' ensures Placed(t', x) { assert Placed(t, x); }
  }

  /** An entry that nobody holds is not to be unhashed: it would be kept for those who look it up
      and cannot find it. */
  lemma DropOk(t: Live, ext: map<nat, int>, unused: seq<nat>, chains: Chains, bucket: (nat, nat) -> nat,
               nameHash: string -> nat, d: nat)
    requires ShapeOk(t, unused, chains, bucket, nameHash) && RefsOk(t, ext) && d in t
    ensures RefsOk(Marked(t, d, false), ext) && Tree(Marked(t, d, false))
    ensures HashOk(Marked(t, d, false), if t[d].hashed then Unchained(chains, bucket(t[d].parent, t[d].hash), d)
      else chains, bucket, nameHash)
    ensures LruOk(Marked(t, d, false), unused) <==> t[d].count > 0
  {
    MarkedTree(t, d, false);
    hide Linked, Acyclic;
    if t[d].hashed {
      UnhashOk(t, Marked(t, d, false), chains, bucket, nameHash, d);
    } else {
      SameHash(t, Marked(t, d, false), chains, bucket, nameHash);
    }
  }

  /** So it is with a root and one entry that nobody holds. */
  lemma DropUnheld(bucket: (nat, nat) -> nat, nameHash: string -> nat)
    ensures var h := nameHash("a");
      var t := map[0 := Dentry(0, "/", 0, 2, false, [1]), 1 := Dentry(0, "a", h, 0, true, [])];
      && ShapeOk(t, [1], map[bucket(0, h) := [1]], bucket, nameHash) && RefsOk(t, map[0 := 1, 1 := 0])
      && !LruOk(Marked(t, 1, false), [1])
  {
    var h := nameHash("a");
    var t := map[0 := Dentry(0, "/", 0, 2, false, [1]), 1 := Dentry(0, "a", h, 0, true, [])];
    var chains := map[bucket(0, h) := [1]];
    assert Placed(t, 0) && Placed(t, 1);
    assert Up(t) == map[][1 := 0];
    assert Acyclic(Up(t)) by {
      NewLink(map[], 1, 0);
      assert forall n: nat :: n > 0 ==> Follow(map[], 0, n) == None;
    }
    hide Acyclic;
    forall b, x ensures x in Chain(chains, b) <==> InBucket(t, bucket, b, x) {
    }
    assert 1 in t && t[1].count == 0;
    assert Marked(t, 1, false)[1].count == 0;
  }

  function Rechained(chains: Chains, b: nat, d: nat): Chains {
    chains[b := [d] + Chain(chains, b)]
  }

  lemma RehashOk(t: Live, ext: map<nat, int>, unused: seq<nat>, chains: Chains, bucket: (nat, nat) -> nat,
                 nameHash: string -> nat, d: nat)
    requires ShapeOk(t, unused, chains, bucket, nameHash) && RefsOk(t, ext) && d in t && !t[d].hashed && !IsRoot(t, d)
    requires t[d].hash == nameHash(t[d].name)
    ensures RefsOk(Marked(t, d, true), ext)
    ensures ShapeOk(Marked(t, d, true), unused, Rechained(chains, bucket(t[d].parent, t[d].hash), d), bucket, nameHash)
  {
    MarkedTree(t, d, true);
    hide Linked, Acyclic;
    var t', b0 := Marked(t, d, true), bucket(t[d].parent, t[d].hash);
    var chains' := Rechained(chains, b0, d);
    forall b, x ensures x in Chain(chains', b) <==> InBucket(t', bucket, b, x) {
      assert x in Chain(chains, b) <==> InBucket(t, bucket, b, x);
    }
    forall b ensures Distinct(Chain(chains', b)) {
      assert Distinct(Chain(chains, b)) && (d in Chain(chains, b) <==> InBucket(t, bucket, b, d));
      JoinDistinct([d], Chain(chains, b));
    }
  }

  // ---- d_move: the tree

  function Listed(t: Live, p: nat, s: seq<nat>): Live
    requires p in t
  {
    t[p := t[p].(subdirs := s)]
  }

  function Moved(t: Live, a: nat, b: nat, junk: string): Live
    requires a in t && b in t && t[a].parent in t && t[b].parent in t
  {
    var (da, db) := (t[a], t[b]);
    var (p, q) := (da.parent, db.parent);
    var t1 := Listed(t, p, Remove(t[p].subdirs, a));
    var t2 := Listed(t1, q, Remove(t1[q].subdirs, b));
    var t3 := t2[a := t2[a].(parent := q, name := db.name, hash := db.hash, hashed := db.hashed)];
    var t4 := t3[b := t3[b].(parent := p, name := junk, hash := da.hash, hashed := false)];
    var t5 := Listed(t4, p, [b] + t4[p].subdirs);
    Listed(t5, q, [a] + t5[q].subdirs)
  }

  ghost predicate Movable(t: Live, a: nat, b: nat) {
    a in t && b in t && a != b && !IsRoot(t, a) && !IsRoot(t, b)
  }

  /** The child lists after the move: a and b change places, and nobody gains or loses a child. */
  lemma MovedLists(t: Live, a: nat, b: nat, junk: string, x: nat)
    requires Linked(t) && Movable(t, a, b) && x in t
    ensures t[a].parent in t && t[b].parent in t
    ensures var s, s' := t[x].subdirs, Moved(t, a, b, junk)[x].subdirs;
      && Distinct(s') && |s'| == |s|
      && forall c :: c in s' <==>
        (c == b && x == t[a].parent) || (c == a && x == t[b].parent) || (c != a && c != b && c in s)
  {
    ParentOf(t, a);
    ParentOf(t, b);
    ParentOf(t, x);
    ChildOf(t, x, a);
    ChildOf(t, x, b);
    var (p, q, s) := (t[a].parent, t[b].parent, t[x].subdirs);
    var s1 := if x == p then Remove(s, a) else s;
    var s2 := if x == q then Remove(s1, b) else s1;
    var s3 := if x == p then [b] + s2 else s2;
    assert Moved(t, a, b, junk)[x].subdirs == if x == q then [a] + s3 else s3;
    RemoveIs(s, a);
    RemoveIs(s1, b);
    if x == p { JoinDistinct([b], s2); }
    if x == q { JoinDistinct([a], s3); }
  }

  lemma MovedFields(t: Live, a: nat, b: nat, junk: string, x: nat)
    requires Linked(t) && Movable(t, a, b) && x in t
    ensures t[a].parent in t && t[b].parent in t && Moved(t, a, b, junk).Keys == t.Keys
    ensures var y := Moved(t, a, b, junk)[x];
      if x == a then y.(subdirs := []) == t[b].(count := t[a].count, subdirs := [])
      else if x == b then y.(subdirs := []) == t[a].(count := t[b].count, name := junk, hashed := false, subdirs := [])
      else y.(subdirs := []) == t[x].(subdirs := [])
  {
    ParentOf(t, a);
    ParentOf(t, b);
  }

  ghost predicate Apart(t: Live, a: nat, b: nat) {
    !Reaches(Up(t), a, b) && !Reaches(Up(t), b, a)
  }

  lemma MovedUp(t: Live, a: nat, b: nat, junk: string)
    requires Linked(t) && Movable(t, a, b) && t[a].parent != b && t[b].parent != a
    ensures t[a].parent in t && t[b].parent in t && Up(Moved(t, a, b, junk)) == Swapped(Up(t), a, b)
  {
    MovedFields(t, a, b, junk, a);
    MovedFields(t, a, b, junk, b);
    var t', up' := Moved(t, a, b, junk), Swapped(Up(t), a, b);
    forall x ensures x in Up(t') <==> x in up' { if x in t { MovedFields(t, a, b, junk, x); } }
    forall x | x in up' ensures Up(t')[x] == up'[x] { MovedFields(t, a, b, junk, x); }
  }

  /** Renaming keeps the tree exactly when neither entry is an ancestor of the other. */
  lemma MoveTree(t: Live, a: nat, b: nat, junk: string)
    requires Tree(t) && Movable(t, a, b)
    ensures t[a].parent in t && t[b].parent in t && (Tree(Moved(t, a, b, junk)) <==> Apart(t, a, b))
  {
    hide Acyclic;
    MovedFields(t, a, b, junk, a);
    MovedFields(t, a, b, junk, b);
    if t[a].parent == b || t[b].parent == a {
      SelfParent(t, a, b, junk);
    } else {
      MovedUp(t, a, b, junk);
      SwapLinks(Up(t), a, b);
      forall x | x in t ensures Placed(Moved(t, a, b, junk), x) { MovedPlaced(t, a, b, junk, x); }
    }
  }

  lemma MovedPlaced(t: Live, a: nat, b: nat, junk: string, x: nat)
    requires Linked(t) && Movable(t, a, b) && t[a].parent != b && t[b].parent != a && x in t
    ensures t[a].parent in t && t[b].parent in t && x in Moved(t, a, b, junk) && Placed(Moved(t, a, b, junk), x)
  {
    MovedLists(t, a, b, junk, x);
    MovedFields(t, a, b, junk, x);
    ParentOf(t, x);
    var t' := Moved(t, a, b, junk);
    forall c ensures c in t'[x].subdirs <==> c in t' && c != x && t'[c].parent == x {
      ChildOf(t, x, c);
      if c in t { MovedFields(t, a, b, junk, c); }
    }
  }

  /** If one is the parent of the other, it ends up in its own child list. */
  lemma SelfParent(t: Live, a: nat, b: nat, junk: string)
    requires Linked(t) && Movable(t, a, b) && (t[a].parent == b || t[b].parent == a)
    ensures t[a].parent in t && t[b].parent in t && !Linked(Moved(t, a, b, junk)) && !Apart(t, a, b)
  {
    MovedFields(t, a, b, junk, a);
    MovedLists(t, a, b, junk, a);
    MovedLists(t, a, b, junk, b);
    var t' := Moved(t, a, b, junk);
    if t[a].parent == b {
      assert b in t'[b].subdirs && !Placed(t', b);
      assert Follow(Up(t), b, 0) == Some(b) && Follow(Up(t), a, 1) == Some(b);
    } else {
      assert a in t'[a].subdirs && !Placed(t', a);
      assert Follow(Up(t), a, 0) == Some(a) && Follow(Up(t), b, 1) == Some(a);
    }
  }

  /** Moving an entry into a directory under it, or a directory over one. */
  lemma MoveBelow(junk: string)
    ensures var t := Allocated(Allocated(AllocatedRoot(map[], 0), 1, 0, "a", 0), 2, 1, "b", 0);
      && Tree(t) && t[1].parent == 0 && t[2].parent == 1
      && !Tree(Moved(t, 1, 2, junk)) && !Tree(Moved(t, 2, 1, junk))
  {
    var t0 := AllocatedRoot(map[], 0);
    var t1 := Allocated(t0, 1, 0, "a", 0);
    var t := Allocated(t1, 2, 1, "b", 0);
    assert Up(map[]) == map[];
    AllocRootTree(map[], 0);
    AllocTree(t0, 1, 0, "a", 0);
    AllocTree(t1, 2, 1, "b", 0);
    assert Follow(Up(t), 1, 0) == Some(1) && Follow(Up(t), 2, 1) == Some(1);
    hide Tree;
    MoveTree(t, 1, 2, junk);
    MoveTree(t, 2, 1, junk);
  }

  // ---- d_move: the hash chains

  function InsertAfter(s: seq<nat>, y: nat, x: nat): seq<nat> {
    if s == [] then [] else if s[0] == y then [y, x] + s[1..] else [s[0]] + InsertAfter(s[1..], y, x)
  }

  lemma {:induction false} InsertIs(s: seq<nat>, y: nat, x: nat)
    requires Distinct(s) && x !in s && y in s
    ensures Distinct(InsertAfter(s, y, x)) && forall z :: z in InsertAfter(s, y, x) <==> z == x || z in s
  {
    assert Distinct(s[1..]) && s[0] !in s[1..] && forall z :: z in s <==> z == s[0] || z in s[1..];
    if s[0] == y {
      JoinDistinct([x], s[1..]);
      JoinDistinct([y], [x] + s[1..]);
      assert [y, x] + s[1..] == [y] + ([x] + s[1..]);
    } else {
      InsertIs(s[1..], y, x);
      JoinDistinct([s[0]], InsertAfter(s[1..], y, x));
    }
  }

  /** a leaves its chain and takes the place of b, if b is on a chain. */
  function MovedChains(t: Live, chains: Chains, bucket: (nat, nat) -> nat, a: nat, b: nat): Chains
    requires a in t && b in t
  {
    var chains1 := if t[a].hashed then Unchained(chains, bucket(t[a].parent, t[a].hash), a) else chains;
    if t[b].hashed then
      var k := bucket(t[b].parent, t[b].hash);
      Unchained(chains1[k := InsertAfter(Chain(chains1, k), b, a)], k, b)
    else chains1
  }

  lemma MovedChain(t: Live, chains: Chains, bucket: (nat, nat) -> nat, nameHash: string -> nat, a: nat, b: nat, k: nat)
    requires HashOk(t, chains, bucket, nameHash) && Linked(t) && Movable(t, a, b)
    ensures var s, s' := Chain(chains, k), Chain(MovedChains(t, chains, bucket, a, b), k);
      && Distinct(s')
      && forall x :: x in s' <==> (x == a && InBucket(t, bucket, k, b)) || (x != a && x != b && x in s)
  {
    hide Linked;
    var s := Chain(chains, k);
    assert Distinct(s) && (b in s <==> InBucket(t, bucket, k, b)) && (a in s <==> InBucket(t, bucket, k, a));
    var s1 := if InBucket(t, bucket, k, a) then Remove(s, a) else s;
    RemoveIs(s, a);
    if InBucket(t, bucket, k, b) {
      InsertIs(s1, b, a);
      RemoveIs(InsertAfter(s1, b, a), b);
    }
  }

  lemma MoveHash(t: Live, chains: Chains, bucket: (nat, nat) -> nat, nameHash: string -> nat, a: nat, b: nat,
                 junk: string)
    requires HashOk(t, chains, bucket, nameHash) && Linked(t) && Movable(t, a, b) && t[b].parent != a
    ensures t[a].parent in t && t[b].parent in t
    ensures HashOk(Moved(t, a, b, junk), MovedChains(t, chains, bucket, a, b), bucket, nameHash)
  {
    MovedFields(t, a, b, junk, a);
    var t', chains' := Moved(t, a, b, junk), MovedChains(t, chains, bucket, a, b);
    hide Linked, Moved, MovedChains;
    forall k, x ensures x in Chain(chains', k) <==> InBucket(t', bucket, k, x) {
      MovedChain(t, chains, bucket, nameHash, a, b, k);
      assert x in Chain(chains, k) <==> InBucket(t, bucket, k, x);
      if x in t { MovedFields(t, a, b, junk, x); }
    }
    forall k ensures Distinct(Chain(chains', k)) { MovedChain(t, chains, bucket, nameHash, a, b, k); }
    forall x | x in t' && t'[x].hashed
      ensures !IsRoot(t', x) && t'[x].hash == nameHash(t'[x].name)
    {
      MovedFields(t, a, b, junk, x);
    }
  }

  lemma MoveOk(t: Live, ext: map<nat, int>, unused: seq<nat>, chains: Chains, bucket: (nat, nat) -> nat,
               nameHash: string -> nat, a: nat, b: nat, junk: string)
    requires ShapeOk(t, unused, chains, bucket, nameHash) && RefsOk(t, ext) && Movable(t, a, b) && Apart(t, a, b)
    requires ext[a] > 0 && ext[b] > 0
    ensures t[a].parent in t && t[b].parent in t
    ensures RefsOk(Moved(t, a, b, junk), ext)
    ensures ShapeOk(Moved(t, a, b, junk), unused, MovedChains(t, chains, bucket, a, b), bucket, nameHash)
  {
    MoveTree(t, a, b, junk);
    if t[b].parent == a {
      SelfParent(t, a, b, junk);
    }
    MoveHash(t, chains, bucket, nameHash, a, b, junk);
    hide Linked, Acyclic, Moved, MovedChains, HashOk, Apart;
    MovedFields(t, a, b, junk, a);
    forall x | x in t
      ensures var y := Moved(t, a, b, junk)[x];
        y.count == t[x].count && |y.subdirs| == |t[x].subdirs| && (x != a && x != b ==> y.hashed == t[x].hashed)
    {
      MovedFields(t, a, b, junk, x);
      MovedLists(t, a, b, junk, x);
    }
  }

  // ---- What d_lookup can find

  ghost predicate Found(t: Live, p: nat, name: string, x: nat) {
    x in t && t[x].hashed && t[x].parent == p && t[x].name == name
  }

  /** No directory has two entries of the same name that can be looked up. */
  ghost predicate Unambiguous(t: Live) {
    forall p, name, x, y :: Found(t, p, name, x) && Found(t, p, name, y) ==> x == y
  }

  /** After a rename the entry is found where the target was, and no longer where it was;
      everything else is found as before. */
  lemma MoveFound(t: Live, a: nat, b: nat, junk: string)
    requires Linked(t) && Movable(t, a, b) && Unambiguous(t) && t[b].hashed
    ensures t[a].parent in t && t[b].parent in t
    ensures var t' := Moved(t, a, b, junk);
      && Unambiguous(t') && Found(t', t[b].parent, t[b].name, a)
      && (forall p: nat, name: string, x: nat ::
        (p, name) != (t[a].parent, t[a].name) && (p, name) != (t[b].parent, t[b].name) ==>
          (Found(t', p, name, x) <==> Found(t, p, name, x)))
      && (t[a].hashed && (t[a].parent, t[a].name) != (t[b].parent, t[b].name) ==>
        forall x :: !Found(t', t[a].parent, t[a].name, x))
  {
    MovedFields(t, a, b, junk, a);
    var t' := Moved(t, a, b, junk);
    forall p, name, x
      ensures Found(t', p, name, x) <==>
        (x == a && p == t[b].parent && name == t[b].name) || (x != a && x != b && Found(t, p, name, x))
    {
      if x in t { MovedFields(t, a, b, junk, x); }
    }
    assert Found(t, t[b].parent, t[b].name, b);
    assert t[a].hashed ==> Found(t, t[a].parent, t[a].name, a);
    assert forall p, name :: Found(t, p, name, a) ==> p == t[a].parent && name == t[a].name;
  }

  lemma InChain(t: Live, unused: seq<nat>, chains: Chains, bucket: (nat, nat) -> nat, nameHash: string -> nat, k: nat,
                x: nat)
    requires ShapeOk(t, unused, chains, bucket, nameHash) && x in Chain(chains, k)
    ensures x in t && t[x].hashed && t[x].hash == nameHash(t[x].name)
  {
    assert InBucket(t, bucket, k, x);
  }

  /** An entry that can be found is on the chain for its parent and name. */
  lemma WouldBeThere(t: Live, unused: seq<nat>, chains: Chains, bucket: (nat, nat) -> nat, nameHash: string -> nat,
                     p: nat, name: string, x: nat)
    requires ShapeOk(t, unused, chains, bucket, nameHash)
    ensures Found(t, p, name, x) ==> x in Chain(chains, bucket(p, nameHash(name)))
  {
    if Found(t, p, name, x) {
      assert InBucket(t, bucket, bucket(p, nameHash(name)), x);
    }
  }
}
