/** Dropping references and pruning, one step at a time. */
module DentryPut {
  import opened Links
  import opened Lists
  import opened DentryTree
  import opened DentryState

  // ---- One turn of the loop in dput

  /** Nobody refers to d any more and it cannot be looked up: it goes, and its parent loses
      a reference. */
  lemma PutFrees(t: Live, ext: map<nat, int>, unused: seq<nat>, chains: Chains, bucket: (nat, nat) -> nat,
                 nameHash: string -> nat, d: nat)
    requires ShapeOk(t, unused, chains, bucket, nameHash) && Owed(t, ext, d) && t[d].count == 1 && !t[d].hashed
    ensures t[d].parent in t && ShapeOk(Freed(t, d), Remove(unused, d), chains, bucket, nameHash)
    ensures if IsRoot(t, d) then RefsOk(Freed(t, d), ext - {d})
      else t[d].parent in Freed(t, d) && Owed(Freed(t, d), ext - {d}, t[d].parent)
  {
    hide Acyclic;
    assert t[d].subdirs == [];
    FreedTree(t, d);
    FreedRefs(t, ext, d);
    FreedLru(t, unused, d);
    SameHash(t, Freed(t, d), chains, bucket, nameHash);
  }

  function Counted(t: Live, d: nat, n: int): Live
    requires d in t
  {
    t[d := t[d].(count := n)]
  }

  lemma CountedShape(t: Live, d: nat, n: int, unused: seq<nat>, unused': seq<nat>, chains: Chains,
                     bucket: (nat, nat) -> nat, nameHash: string -> nat)
    requires d in t && ShapeOk(t, unused, chains, bucket, nameHash)
    requires Distinct(unused') && (forall x :: x in unused' ==> x in t)
    requires forall x :: x in unused && x != d ==> x in unused'
    requires n == 0 ==> t[d].hashed && d in unused'
    ensures ShapeOk(Counted(t, d, n), unused', chains, bucket, nameHash)
  {
    var t' := Counted(t, d, n);
    assert Tree(t') by {
      assert Up(t') == Up(t);
      hide Acyclic;
      forall x | x in t' ensures Placed(t', x) { assert Placed(t, x); }
    }
    SameHash(t, t', chains, bucket, nameHash);
  }

  lemma Settled(t: Live, ext: map<nat, int>, d: nat)
    requires Owed(t, ext, d)
    ensures RefsOk(Counted(t, d, t[d].count - 1), ext)
  {
  }

  lemma ToFront(unused: seq<nat>, d: nat)
    requires Distinct(unused)
    ensures Distinct([d] + Remove(unused, d)) && forall x :: x in [d] + Remove(unused, d) <==> x == d || x in unused
  {
    RemoveIs(unused, d);
    JoinDistinct([d], Remove(unused, d));
  }

  // ---- What a run of freeing does

  /** From t0 on, entries have gone that nobody refers to, children before parents. */
  ghost predicate Shed(t0: Live, ext0: map<nat, int>, t: Live, ext: map<nat, int>)
    requires ext0.Keys == t0.Keys
  {
    && Kept(t0, t) && ext.Keys == t.Keys && (forall x :: x in t ==> ext[x] == ext0[x])
    && forall x :: x in Gone(t0, t) ==> ext0[x] == 0 && forall c :: c in t0[x].subdirs ==> c in Gone(t0, t)
  }

  ghost predicate AllUnhashed(t0: Live, t: Live) {
    forall x :: x in Gone(t0, t) ==> !t0[x].hashed
  }

  lemma ShedFreed(t0: Live, ext0: map<nat, int>, t: Live, ext: map<nat, int>, d: nat)
    requires Linked(t0) && Linked(t) && ext0.Keys == t0.Keys && Shed(t0, ext0, t, ext) && d in t && t[d].subdirs == []
    requires ext[d] == 0
    ensures t[d].parent in t && Shed(t0, ext0, Freed(t, d), ext - {d})
  {
    ParentOf(t, d);
    KeptFreed(t0, t, d);
    forall c | c in t0[d].subdirs ensures c in Gone(t0, Freed(t, d)) {
      ChildOf(t0, d, c);
      ChildOf(t, d, c);
    }
  }

  lemma ShedCounted(t0: Live, ext0: map<nat, int>, t: Live, ext: map<nat, int>, d: nat, n: int)
    requires ext0.Keys == t0.Keys && Shed(t0, ext0, t, ext) && d in t
    ensures Shed(t0, ext0, Counted(t, d, n), ext)
  {
    assert Gone(t0, Counted(t, d, n)) == Gone(t0, t);
  }

  lemma ShedTrans(t0: Live, ext0: map<nat, int>, t1: Live, ext1: map<nat, int>, t2: Live, ext2: map<nat, int>)
    requires Linked(t0) && Linked(t1) && ext0.Keys == t0.Keys && Shed(t0, ext0, t1, ext1) && Shed(t1, ext1, t2, ext2)
    ensures Shed(t0, ext0, t2, ext2) && Gone(t0, t2) == Gone(t0, t1) + Gone(t1, t2)
  {
    forall x, c | x in Gone(t1, t2) && c in t0[x].subdirs ensures c in Gone(t0, t2) {
      ChildOf(t0, x, c);
      ChildOf(t1, x, c);
    }
  }

  /** Those that have gone although they could be looked up: they have been pruned. */
  ghost function HashedGone(t0: Live, t: Live): set<nat> {
    set x | x in Gone(t0, t) && t0[x].hashed
  }

  /** What has gone from t0 lies strictly under p. */
  ghost predicate Inside(t0: Live, t: Live, p: nat) {
    forall x :: x in Gone(t0, t) ==> x in Below(t0, p) && x != p
  }

  /** d is under p, which somebody holds. */
  ghost predicate Guarded(t: Live, ext: map<nat, int>, p: nat, d: nat) {
    p in t && p in ext && ext[p] > 0 && d in Below(t, p)
  }

  /** dput, begun at d0 in t0, has come to d, whose count is still to be decremented. */
  ghost predicate Putting(t0: Live, ext0: map<nat, int>, unused0: seq<nat>, t: Live, ext: map<nat, int>,
                          unused: seq<nat>, d0: nat, p: nat, d: nat) {
    && Linked(t0) && ext0.Keys == t0.Keys && Shed(t0, ext0, t, ext) && AllUnhashed(t0, t)
    && (Guarded(t0, ext0, p, d0) ==> Inside(t0, t, p) && d in Below(t0, p) && p in t)
    && (forall seg :: Idle(t0, unused0, seg) ==> Idle(t, unused, seg))
    && (forall x :: x in unused <==> x in t && x in unused0)
    && Distinct(unused0) && unused == Minus(unused0, Gone(t0, t))
  }

  /** The list has lost those that have gone, and at most one entry has come to its front. */
  ghost predicate Reordered(unused0: seq<nat>, unused: seq<nat>, gone: set<nat>, t: Live) {
    unused == Minus(unused0, gone) || exists d ::
      d in t && t[d].count == 0 && unused == [d] + Minus(unused0, gone + {d})
  }

  /** What dput, begun at d0 in t0, has done: it has freed exactly what nothing needs any more. */
  ghost predicate PutDone(t0: Live, ext0: map<nat, int>, unused0: seq<nat>, t: Live, ext: map<nat, int>,
                          unused: seq<nat>, d0: nat, p: nat) {
    && ext0.Keys == t0.Keys && Shed(t0, ext0, t, ext) && Garbage(t0, ext0, Gone(t0, t))
    && (Guarded(t0, ext0, p, d0) ==> Inside(t0, t, p))
    && (forall seg :: Idle(t0, unused0, seg) ==> Idle(t, unused, seg))
    && (forall x :: x in unused <==> x in t && (x in unused0 || t[x].count == 0))
    && Reordered(unused0, unused, Gone(t0, t), t)
  }

  lemma PutStart(t: Live, ext: map<nat, int>, unused: seq<nat>, chains: Chains, bucket: (nat, nat) -> nat,
                 nameHash: string -> nat, d: nat, p: nat)
    requires ShapeOk(t, unused, chains, bucket, nameHash) && Owed(t, ext, d)
    ensures Putting(t, ext, unused, t, ext, unused, d, p, d) && d in t
  {
    MinusNone(unused);
    assert Gone(t, t) == {};
  }

  lemma PutLists(t: Live, ext: map<nat, int>, unused: seq<nat>, chains: Chains, bucket: (nat, nat) -> nat,
                 nameHash: string -> nat, d: nat)
    requires ShapeOk(t, unused, chains, bucket, nameHash) && Owed(t, ext, d)
    ensures t[d].parent in t && |Remove(unused, d)| == |unused| - (if d in unused then 1 else 0)
    ensures |Freed(t, d)| < |t|
  {
    ParentOf(t, d);
    RemoveIs(unused, d);
    var t' := Freed(t, d);
    assert t'.Keys == t.Keys - {d};
    assert |t'.Keys| == |t'| && |t.Keys| == |t|;
  }

  lemma DoneWhenRight(t0: Live, ext0: map<nat, int>, t: Live, ext: map<nat, int>, unused: seq<nat>)
    requires Linked(t0) && Linked(t) && ext0.Keys == t0.Keys && Shed(t0, ext0, t, ext) && AllUnhashed(t0, t)
    requires RefsOk(t, ext) && LruOk(t, unused)
    ensures Garbage(t0, ext0, Gone(t0, t))
  {
    forall x | x in t0 ensures x in Gone(t0, t) <==> Doomed(t0, ext0, Gone(t0, t), x) {
      if x in t {
        NoneDoomed(t0, t, ext0, ext, unused, x);
      }
    }
  }

  lemma PutHolds(t0: Live, ext0: map<nat, int>, unused0: seq<nat>, t: Live, ext: map<nat, int>, unused: seq<nat>,
                 chains: Chains, bucket: (nat, nat) -> nat, nameHash: string -> nat, d0: nat, p: nat, d: nat)
    requires Putting(t0, ext0, unused0, t, ext, unused, d0, p, d) && ShapeOk(t, unused, chains, bucket, nameHash)
    requires Owed(t, ext, d) && t[d].count != 1
    ensures var t' := Counted(t, d, t[d].count - 1);
      ShapeOk(t', unused, chains, bucket, nameHash) && RefsOk(t', ext)
        && PutDone(t0, ext0, unused0, t', ext, unused, d0, p)
  {
    hide ShapeOk, RefsOk, Shed, Linked, Below, Gone, Inside, Guarded, Minus, AllUnhashed, Garbage, Reordered, Idle;
    assert d in t && t[d].count >= 1;
    var n := t[d].count - 1;
    var t' := Counted(t, d, n);
    SameGone(t0, t, t', p);
    InOrder(unused0, unused, Gone(t0, t'), t');
    CountedDone(t0, ext0, t, ext, d, n, unused, chains, bucket, nameHash);
    CountedLists(t0, unused0, t, unused, d, n, chains, bucket, nameHash);
  }

  lemma CountedDone(t0: Live, ext0: map<nat, int>, t: Live, ext: map<nat, int>, d: nat, n: int, unused: seq<nat>,
                    chains: Chains, bucket: (nat, nat) -> nat, nameHash: string -> nat)
    requires Linked(t0) && ext0.Keys == t0.Keys && Shed(t0, ext0, t, ext) && AllUnhashed(t0, t)
    requires ShapeOk(t, unused, chains, bucket, nameHash)
    requires Owed(t, ext, d) && n == t[d].count - 1 != 0
    ensures var t' := Counted(t, d, n);
      ShapeOk(t', unused, chains, bucket, nameHash) && RefsOk(t', ext) && Shed(t0, ext0, t', ext)
        && Garbage(t0, ext0, Gone(t0, t'))
  {
    hide Acyclic, HashOk, Gone, Garbage, AllUnhashed;
    var t' := Counted(t, d, n);
    SameGone(t0, t, t', 0);
    CountedShape(t, d, n, unused, unused, chains, bucket, nameHash);
    Settled(t, ext, d);
    ShedCounted(t0, ext0, t, ext, d, n);
    FreedDone(t0, ext0, t', ext, unused, chains, bucket, nameHash);
  }

  lemma CountedLists(t0: Live, unused0: seq<nat>, t: Live, unused: seq<nat>, d: nat, n: int, chains: Chains,
                     bucket: (nat, nat) -> nat, nameHash: string -> nat)
    requires d in t && n != 0 && t[d].count != 0 && ShapeOk(Counted(t, d, n), unused, chains, bucket, nameHash)
    requires forall seg :: Idle(t0, unused0, seg) ==> Idle(t, unused, seg)
    requires forall x :: x in unused <==> x in t && x in unused0
    ensures var t' := Counted(t, d, n);
      && (forall seg :: Idle(t0, unused0, seg) ==> Idle(t', unused, seg))
      && (forall x :: x in unused <==> x in t' && (x in unused0 || t'[x].count == 0))
  {
    hide Tree, HashOk;
    var t' := Counted(t, d, n);
    forall seg | Idle(t0, unused0, seg) ensures Idle(t', unused, seg) { assert Idle(t, unused, seg); }
  }

  lemma SameGone(t0: Live, t: Live, t': Live, p: nat)
    requires t'.Keys == t.Keys
    ensures Inside(t0, t, p) <==> Inside(t0, t', p)
    ensures AllUnhashed(t0, t) <==> AllUnhashed(t0, t')
    ensures Gone(t0, t) == Gone(t0, t')
  {
    assert Gone(t0, t) == Gone(t0, t');
  }

  lemma InOrder(unused0: seq<nat>, unused: seq<nat>, gone: set<nat>, t: Live)
    requires unused == Minus(unused0, gone)
    ensures Reordered(unused0, unused, gone, t)
  {
  }

  lemma MovedToFront(t0: Live, t: Live, unused0: seq<nat>, unused: seq<nat>, d: nat)
    requires d in t && t.Keys <= t0.Keys && Distinct(unused0) && unused == Minus(unused0, Gone(t0, t))
    ensures Reordered(unused0, [d] + Remove(unused, d), Gone(t0, Counted(t, d, 0)), Counted(t, d, 0))
  {
    var t' := Counted(t, d, 0);
    SameGone(t0, t, t', 0);
    MinusOne(unused0, Gone(t0, t), d);
    assert d in t' && t'[d].count == 0 && [d] + Remove(unused, d) == [d] + Minus(unused0, Gone(t0, t') + {d});
  }

  lemma FreedMinus(t0: Live, t: Live, unused0: seq<nat>, unused: seq<nat>, d: nat)
    requires Kept(t0, t) && d in t && t[d].parent in t && Distinct(unused0) && unused == Minus(unused0, Gone(t0, t))
    ensures Remove(unused, d) == Minus(unused0, Gone(t0, Freed(t, d)))
  {
    KeptFreed(t0, t, d);
    MinusOne(unused0, Gone(t0, t), d);
  }

  lemma PutUnused(t0: Live, ext0: map<nat, int>, unused0: seq<nat>, t: Live, ext: map<nat, int>, unused: seq<nat>,
                  chains: Chains, bucket: (nat, nat) -> nat, nameHash: string -> nat, d0: nat, p: nat, d: nat)
    requires Putting(t0, ext0, unused0, t, ext, unused, d0, p, d) && ShapeOk(t, unused, chains, bucket, nameHash)
    requires Owed(t, ext, d) && t[d].count == 1 && t[d].hashed
    ensures var t', unused' := Counted(t, d, 0), [d] + Remove(unused, d);
      ShapeOk(t', unused', chains, bucket, nameHash) && RefsOk(t', ext)
        && PutDone(t0, ext0, unused0, t', ext, unused', d0, p)
  {
    hide Minus, Reordered;
    var t', unused' := Counted(t, d, 0), [d] + Remove(unused, d);
    ToFront(unused, d);
    CountedShape(t, d, 0, unused, unused', chains, bucket, nameHash);
    Settled(t, ext, d);
    ShedCounted(t0, ext0, t, ext, d, 0);
    DoneWhenRight(t0, ext0, t', ext, unused');
    MovedToFront(t0, t, unused0, unused, d);
    hide Reordered, Minus, Linked, Acyclic, Below, HashOk, Shed, Garbage, Remove, RefsOk, Owed;
    forall seg | Idle(t0, unused0, seg) ensures Idle(t', unused', seg) {
      assert Idle(t, unused, seg);
      IdleToFront(t, unused, seg, d);
    }
  }

  lemma IdleToFront(t: Live, unused: seq<nat>, seg: seq<nat>, d: nat)
    requires Idle(t, unused, seg) && d in t && t[d].count != 0
    ensures Idle(Counted(t, d, 0), [d] + Remove(unused, d), seg)
  {
    IdleRemove(t, unused, seg, d);
    IdlePush(t, Remove(unused, d), seg, d);
  }

  /** The turn that frees d, whether or not the loop goes on. */
  lemma PutGoesOn(t0: Live, ext0: map<nat, int>, unused0: seq<nat>, t: Live, ext: map<nat, int>, unused: seq<nat>,
                  chains: Chains, bucket: (nat, nat) -> nat, nameHash: string -> nat, d0: nat, p: nat, d: nat)
    requires Putting(t0, ext0, unused0, t, ext, unused, d0, p, d) && ShapeOk(t, unused, chains, bucket, nameHash)
    requires Owed(t, ext, d) && t[d].count == 1 && !t[d].hashed
    ensures t[d].parent in t
    ensures if IsRoot(t, d) then PutDone(t0, ext0, unused0, Freed(t, d), ext - {d}, Remove(unused, d), d0, p)
      else Putting(t0, ext0, unused0, Freed(t, d), ext - {d}, Remove(unused, d), d0, p, t[d].parent)
  {
    hide ShapeOk, RefsOk, Shed, AllUnhashed, Inside, Guarded, Below, Idle, Linked, Freed, Remove, Garbage, Gone, Minus;
    FreedFacts(t0, ext0, unused0, t, ext, unused, chains, bucket, nameHash, d0, p, d);
    var t', ext', unused' := Freed(t, d), ext - {d}, Remove(unused, d);
    if IsRoot(t, d) {
      FreedDone(t0, ext0, t', ext', unused', chains, bucket, nameHash);
      forall x
        ensures x in unused' <==> x in t' && (x in unused0 || t'[x].count == 0)
      {
        UnusedHas(t', unused', chains, bucket, nameHash, x);
      }
    }
  }

  lemma UnusedHas(t: Live, unused: seq<nat>, chains: Chains, bucket: (nat, nat) -> nat, nameHash: string -> nat, x: nat)
    requires ShapeOk(t, unused, chains, bucket, nameHash)
    ensures x in t && t[x].count == 0 ==> x in unused
  {
  }

  lemma FreedFacts(t0: Live, ext0: map<nat, int>, unused0: seq<nat>, t: Live, ext: map<nat, int>, unused: seq<nat>,
                   chains: Chains, bucket: (nat, nat) -> nat, nameHash: string -> nat, d0: nat, p: nat, d: nat)
    requires Putting(t0, ext0, unused0, t, ext, unused, d0, p, d) && ShapeOk(t, unused, chains, bucket, nameHash)
    requires Owed(t, ext, d) && t[d].count == 1 && !t[d].hashed
    ensures t[d].parent in t && Linked(t0) && ext0.Keys == t0.Keys
    ensures var t', ext', unused' := Freed(t, d), ext - {d}, Remove(unused, d);
      && ShapeOk(t', unused', chains, bucket, nameHash) && (IsRoot(t, d) ==> RefsOk(t', ext'))
      && Shed(t0, ext0, t', ext') && AllUnhashed(t0, t')
      && (Guarded(t0, ext0, p, d0) ==> Inside(t0, t', p) && t[d].parent in Below(t0, p) && p in t')
      && (forall seg :: Idle(t0, unused0, seg) ==> Idle(t', unused', seg))
      && (forall x :: x in unused' <==> x in t' && x in unused0)
      && Distinct(unused0) && unused' == Minus(unused0, Gone(t0, t'))
  {
    hide Minus;
    ParentOf(t, d);
    assert t[d].subdirs == [] && ext[d] == 0;
    hide Acyclic, HashOk, Below, Freed, Remove, Idle, Gone, AllUnhashed, Inside, Guarded;
    PutFrees(t, ext, unused, chains, bucket, nameHash, d);
    FreedShed(t0, ext0, t, ext, d);
    FreedInside(t0, ext0, t, ext, d0, p, d);
    FreedUnused(t0, unused0, t, unused, d);
    FreedMinus(t0, t, unused0, unused, d);
  }

  lemma FreedDone(t0: Live, ext0: map<nat, int>, t: Live, ext: map<nat, int>, unused: seq<nat>, chains: Chains,
                  bucket: (nat, nat) -> nat, nameHash: string -> nat)
    requires Linked(t0) && ext0.Keys == t0.Keys && Shed(t0, ext0, t, ext) && AllUnhashed(t0, t)
    requires ShapeOk(t, unused, chains, bucket, nameHash) && RefsOk(t, ext)
    ensures Garbage(t0, ext0, Gone(t0, t))
  {
    DoneWhenRight(t0, ext0, t, ext, unused);
  }

  lemma FreedShed(t0: Live, ext0: map<nat, int>, t: Live, ext: map<nat, int>, d: nat)
    requires Linked(t0) && Linked(t) && ext0.Keys == t0.Keys && Shed(t0, ext0, t, ext) && AllUnhashed(t0, t)
    requires d in t && t[d].subdirs == [] && ext[d] == 0 && !t[d].hashed
    ensures t[d].parent in t && Shed(t0, ext0, Freed(t, d), ext - {d}) && AllUnhashed(t0, Freed(t, d))
  {
    ShedFreed(t0, ext0, t, ext, d);
    KeptFreed(t0, t, d);
  }

  lemma FreedInside(t0: Live, ext0: map<nat, int>, t: Live, ext: map<nat, int>, d0: nat, p: nat, d: nat)
    requires Linked(t0) && Linked(t) && ext0.Keys == t0.Keys && Kept(t0, t) && ext.Keys == t.Keys
    requires forall x :: x in t ==> ext[x] == ext0[x]
    requires Guarded(t0, ext0, p, d0) ==> Inside(t0, t, p) && d in Below(t0, p) && p in t
    requires d in t && t[d].parent in t && ext[d] == 0
    ensures Guarded(t0, ext0, p, d0) ==> Inside(t0, Freed(t, d), p) && t[d].parent in Below(t0, p) && p in Freed(t, d)
  {
    if Guarded(t0, ext0, p, d0) {
      KeptFreed(t0, t, d);
      StepUp(t0, d, p);
    }
  }

  lemma FreedUnused(t0: Live, unused0: seq<nat>, t: Live, unused: seq<nat>, d: nat)
    requires d in t && t[d].parent in t && t[d].count != 0 && Distinct(unused)
    requires forall seg :: Idle(t0, unused0, seg) ==> Idle(t, unused, seg)
    requires forall x :: x in unused <==> x in t && x in unused0
    ensures forall seg :: Idle(t0, unused0, seg) ==> Idle(Freed(t, d), Remove(unused, d), seg)
    ensures forall x :: x in Remove(unused, d) <==> x in Freed(t, d) && x in unused0
  {
    RemoveIs(unused, d);
    forall seg | Idle(t0, unused0, seg) ensures Idle(Freed(t, d), Remove(unused, d), seg) {
      assert Idle(t, unused, seg);
      IdleFreed(t, unused, seg, d);
    }
  }

  lemma IdleFreed(t: Live, unused: seq<nat>, seg: seq<nat>, d: nat)
    requires Idle(t, unused, seg) && d in t && t[d].parent in t && t[d].count != 0
    ensures Idle(Freed(t, d), Remove(unused, d), seg)
  {
    IdleRemove(t, unused, seg, d);
  }

  // ---- Pruning

  lemma DropLast(unused: seq<nat>, d: nat)
    requires Distinct(unused + [d])
    ensures Remove(unused + [d], d) == unused && d !in unused
  {
    assert (unused + [d])[|unused|] == d && forall i :: 0 <= i < |unused| ==> (unused + [d])[i] == unused[i];
    RemoveEnd(unused, d);
  }

  /** prune_one_dentry, up to its dput: the unused entry d leaves its hash chain and the tree. */
  lemma PruneFrees(t: Live, ext: map<nat, int>, unused: seq<nat>, chains: Chains, bucket: (nat, nat) -> nat,
                   nameHash: string -> nat, d: nat)
    requires ShapeOk(t, unused + [d], chains, bucket, nameHash) && RefsOk(t, ext) && d in t && t[d].count == 0
    ensures t[d].parent in t && !IsRoot(t, d) && d !in unused && t[d].subdirs == [] && ext[d] == 0
    ensures ShapeOk(Freed(t, d), unused, Unchained(chains, bucket(t[d].parent, t[d].hash), d), bucket, nameHash)
    ensures Owed(Freed(t, d), ext - {d}, t[d].parent)
  {
    hide Acyclic;
    assert t[d].subdirs == [];
    FreedTree(t, d);
    FreedRefs(t, ext, d);
    DropLast(unused, d);
    FreedLru(t, unused + [d], d);
    UnhashOk(t, Freed(t, d), chains, bucket, nameHash, d);
  }

  /** Freeing d, and then what dput of its parent frees. */
  lemma PruneShed(t: Live, ext: map<nat, int>, unused: seq<nat>, d: nat, p: nat, t': Live, ext': map<nat, int>,
                  unused': seq<nat>)
    requires Tree(t) && RefsOk(t, ext) && d in t && t[d].subdirs == [] && ext[d] == 0 && t[d].parent in t
    requires !IsRoot(t, d) && d !in unused && t[d].hashed
    requires Tree(Freed(t, d)) && PutDone(Freed(t, d), ext - {d}, unused, t', ext', unused', t[d].parent, p)
    ensures Shed(t, ext, t', ext') && d in Gone(t, t') && HashedGone(t, t') == {d}
    ensures Guarded(t, ext, p, d) && d != p ==> Inside(t, t', p)
  {
    PruneOnlyOne(t, ext, d, t');
    hide Acyclic, Garbage, Idle, HashedGone;
    assert Shed(t, ext, t, ext);
    ShedFreed(t, ext, t, ext, d);
    ShedTrans(t, ext, Freed(t, d), ext - {d}, t', ext');
    if Guarded(t, ext, p, d) && d != p {
      PruneInside(t, ext, d, p, t');
    }
  }

  /** All that dput frees could not be looked up. */
  lemma PruneOnlyOne(t: Live, ext: map<nat, int>, d: nat, t': Live)
    requires d in t && t[d].parent in t && t[d].hashed && ext.Keys == t.Keys && t'.Keys <= Freed(t, d).Keys
    requires (ext - {d}).Keys == Freed(t, d).Keys && Garbage(Freed(t, d), ext - {d}, Gone(Freed(t, d), t'))
    ensures HashedGone(t, t') == {d}
  {
    forall x | x in Gone(t, t') && x != d ensures !t[x].hashed {
      assert x in Gone(Freed(t, d), t') && Doomed(Freed(t, d), ext - {d}, Gone(Freed(t, d), t'), x);
    }
  }

  lemma PruneInside(t: Live, ext: map<nat, int>, d: nat, p: nat, t': Live)
    requires Linked(t) && RefsOk(t, ext) && d in t && t[d].parent in t && Linked(Freed(t, d)) && Guarded(t, ext, p, d)
    requires d != p
    requires Guarded(Freed(t, d), ext - {d}, p, t[d].parent) ==> Inside(Freed(t, d), t', p)
    ensures Inside(t, t', p)
  {
    var t1 := Freed(t, d);
    KeptFreed(t, t, d);
    StepUp(t, d, p);
    assert t[d].parent in t1;
    BelowKept(t, t1, t[d].parent, p);
    forall x | x in Gone(t, t') ensures x in Below(t, p) && x != p {
      if x != d {
        assert x in Gone(t1, t');
        BelowKept(t, t1, x, p);
      }
    }
  }

  lemma PruneIdle(t: Live, unused: seq<nat>, d: nat, seg: seq<nat>)
    requires Idle(t, unused, seg) && d in t && t[d].parent in t && d !in seg
    ensures Idle(Freed(t, d), unused, seg)
  {
  }

  /** prune_dcache has been asked for the entries seg, all under p, which is held. */
  ghost predicate Targeted(t: Live, ext: map<nat, int>, unused: seq<nat>, count: int, seg: seq<nat>, p: nat) {
    && Idle(t, unused, seg) && |seg| == count > 0 && p in t && p in ext && ext[p] > 0
    && forall x :: x in seg ==> x in Below(t, p)
  }

  ghost predicate Pruning(t0: Live, ext0: map<nat, int>, unused0: seq<nat>, count0: int, seg: seq<nat>, p: nat, t: Live,
                          ext: map<nat, int>, unused: seq<nat>, count: int) {
    && Linked(t0) && ext0.Keys == t0.Keys && Shed(t0, ext0, t, ext)
    && |HashedGone(t0, t)| == count0 - count && (count0 > 0 ==> count > 0)
    && (Targeted(t0, ext0, unused0, count0, seg, p) ==>
      count <= |seg| && Idle(t, unused, seg[..count]) && Inside(t0, t, p) && p in t)
  }

  /** What prune_dcache(count) has done: it has freed entries nobody refers to, children before
      parents; of those that could be looked up, as many as asked for, or all there were. */
  ghost predicate Pruned(t0: Live, ext0: map<nat, int>, unused0: seq<nat>, count: int, seg: seq<nat>, p: nat, t: Live,
                         ext: map<nat, int>, unused: seq<nat>) {
    && ext0.Keys == t0.Keys && Shed(t0, ext0, t, ext)
    && (count > 0 ==> |HashedGone(t0, t)| <= count) && (unused == [] || |HashedGone(t0, t)| == count > 0)
    && (Targeted(t0, ext0, unused0, count, seg, p) ==> Inside(t0, t, p))
  }

  lemma PruneStart(t: Live, ext: map<nat, int>, unused: seq<nat>, count: int, seg: seq<nat>, p: nat)
    requires Linked(t) && RefsOk(t, ext)
    ensures Pruning(t, ext, unused, count, seg, p, t, ext, unused, count)
  {
    assert |seg| == count ==> seg[..count] == seg;
  }

  /** The entry at the end of the list is in use: it only leaves the list. */
  lemma PruneSkips(t0: Live, ext0: map<nat, int>, unused0: seq<nat>, count0: int, seg: seq<nat>, p: nat, t: Live,
                   ext: map<nat, int>, unused: seq<nat>, count: int, d: nat)
    requires Pruning(t0, ext0, unused0, count0, seg, p, t, ext, unused + [d], count) && d in t && t[d].count != 0
    ensures Pruning(t0, ext0, unused0, count0, seg, p, t, ext, unused, count)
  {
    if Targeted(t0, ext0, unused0, count0, seg, p) {
      LastOfIdle(t, unused, d, seg[..count]);
      assert false;
    }
  }

  lemma PruneNext(t0: Live, ext0: map<nat, int>, unused0: seq<nat>, count0: int, seg: seq<nat>, p: nat, t: Live,
                  ext: map<nat, int>, unused: seq<nat>, count: int, d: nat,
                  t': Live, ext': map<nat, int>, unused': seq<nat>)
    requires Pruning(t0, ext0, unused0, count0, seg, p, t, ext, unused + [d], count) && Linked(t)
    requires Distinct(unused + [d]) && d in t
    requires ext.Keys == t.Keys && Shed(t, ext, t', ext') && d in Gone(t, t')
    requires Guarded(t, ext, p, d) && d != p ==> Inside(t, t', p)
    requires forall s :: Idle(t, unused, s) && d !in s ==> Idle(t', unused', s)
    requires RefsOk(t, ext) && t[d].count == 0 && HashedGone(t, t') == {d}
    ensures count != 1 ==> Pruning(t0, ext0, unused0, count0, seg, p, t', ext', unused', count - 1)
    ensures count == 1 ==> Pruned(t0, ext0, unused0, count0, seg, p, t', ext', unused')
  {
    ShedTrans(t0, ext0, t, ext, t', ext');
    MoreGone(t0, t, t', d);
    if Targeted(t0, ext0, unused0, count0, seg, p) {
      PruneTarget(t0, ext0, unused0, count0, seg, p, t, ext, unused, count, d, t', ext', unused');
    }
  }

  lemma MoreGone(t0: Live, t: Live, t': Live, d: nat)
    requires Kept(t0, t) && t'.Keys <= t.Keys && HashedGone(t, t') == {d}
    ensures |HashedGone(t0, t')| == |HashedGone(t0, t)| + 1
  {
    assert d in HashedGone(t, t');
    forall x | x in t ensures t[x].hashed == t0[x].hashed {}
    assert HashedGone(t0, t') == HashedGone(t0, t) + HashedGone(t, t');
  }

  lemma {:induction false} Subsize(a: set<nat>, b: set<nat>)
    requires a <= b
    ensures |a| <= |b|
  {
    if a != {} {
      var x :| x in a;
      Subsize(a - {x}, b - {x});
    }
  }

  lemma PruneTarget(t0: Live, ext0: map<nat, int>, unused0: seq<nat>, count0: int, seg: seq<nat>, p: nat, t: Live,
                    ext: map<nat, int>, unused: seq<nat>, count: int, d: nat,
                    t': Live, ext': map<nat, int>, unused': seq<nat>)
    requires Targeted(t0, ext0, unused0, count0, seg, p) && ext0.Keys == t0.Keys && Shed(t0, ext0, t, ext)
    requires 0 < count <= |seg|
    requires Idle(t, unused + [d], seg[..count]) && Inside(t0, t, p) && p in t && Linked(t) && Distinct(unused + [d])
    requires d in t
    requires ext.Keys == t.Keys && Shed(t, ext, t', ext') && d in Gone(t, t')
    requires Guarded(t, ext, p, d) && d != p ==> Inside(t, t', p)
    requires forall s :: Idle(t, unused, s) && d !in s ==> Idle(t', unused', s)
    requires RefsOk(t, ext) && t[d].count == 0
    ensures Idle(t', unused', seg[..count - 1]) && Inside(t0, t', p) && p in t'
  {
    hide Acyclic, Below;
    LastOfIdle(t, unused, d, seg[..count]);
    assert seg[..count][..count - 1] == seg[..count - 1] && d == seg[count - 1];
    DropLast(unused, d);
    TargetInside(t0, ext0, p, t, ext, d, t', ext');
  }

  lemma LastOfIdle(t: Live, unused: seq<nat>, d: nat, s: seq<nat>)
    requires Idle(t, unused + [d], s) && s != []
    ensures d == s[|s| - 1] && Idle(t, unused, s[..|s| - 1])
  {
    var front := (unused + [d])[..|unused| + 1 - |s|];
    assert unused + [d] == front + s;
    assert s == s[..|s| - 1] + [s[|s| - 1]];
    assert unused == (front + s)[..|unused|] == front + s[..|s| - 1];
  }

  lemma TargetInside(t0: Live, ext0: map<nat, int>, p: nat, t: Live, ext: map<nat, int>, d: nat, t': Live,
                     ext': map<nat, int>)
    requires ext0.Keys == t0.Keys && Shed(t0, ext0, t, ext) && p in t0 && ext0[p] > 0 && d in Below(t0, p)
    requires Inside(t0, t, p) && p in t && Linked(t) && d in t && RefsOk(t, ext) && t[d].count == 0
    requires Shed(t, ext, t', ext') && (Guarded(t, ext, p, d) && d != p ==> Inside(t, t', p))
    ensures Inside(t0, t', p) && p in t'
  {
    BelowKept(t0, t, d, p);
    assert ext[p] == ext0[p] && d != p;
    forall x | x in Gone(t, t') ensures x in Below(t0, p) && x != p { BelowKept(t0, t, x, p); }
    assert p !in Gone(t, t');
  }

  lemma PruneResult(t: Live, ext: map<nat, int>, unused: seq<nat>, d: nat, p: nat, t': Live, ext': map<nat, int>,
                    unused': seq<nat>, chains: Chains, chains': Chains, bucket: (nat, nat) -> nat,
                    nameHash: string -> nat)
    requires ShapeOk(t, unused + [d], chains, bucket, nameHash) && RefsOk(t, ext) && d in t && t[d].count == 0
    requires t[d].parent in t
    requires ShapeOk(Freed(t, d), unused, chains', bucket, nameHash)
    requires PutDone(Freed(t, d), ext - {d}, unused, t', ext', unused', t[d].parent, p)
    ensures Shed(t, ext, t', ext') && d in Gone(t, t') && HashedGone(t, t') == {d}
    ensures Guarded(t, ext, p, d) && d != p ==> Inside(t, t', p)
    ensures forall seg :: Idle(t, unused, seg) && d !in seg ==> Idle(t', unused', seg)
  {
    PruneFrees(t, ext, unused, chains, bucket, nameHash, d);
    PruneShed(t, ext, unused, d, p, t', ext', unused');
    hide Tree, Shed, Garbage, Guarded, Inside, Freed;
    forall seg | Idle(t, unused, seg) && d !in seg ensures Idle(t', unused', seg) { PruneIdle(t, unused, d, seg); }
  }

  lemma PruneBegin(t: Live, ext: map<nat, int>, unused: seq<nat>, chains: Chains, bucket: (nat, nat) -> nat,
                   nameHash: string -> nat, count: int, seg: seq<nat>, p: nat)
    requires ShapeOk(t, unused, chains, bucket, nameHash) && RefsOk(t, ext)
    ensures Pruning(t, ext, unused, count, seg, p, t, ext, unused, count)
  {
    hide HashOk, Acyclic, LruOk;
    PruneStart(t, ext, unused, count, seg, p);
  }

  lemma TailFacts(t: Live, ext: map<nat, int>, unused: seq<nat>, d: nat, chains: Chains, bucket: (nat, nat) -> nat,
                  nameHash: string -> nat)
    requires ShapeOk(t, unused + [d], chains, bucket, nameHash)
    ensures d in t && (t[d].count != 0 ==> ShapeOk(t, unused, chains, bucket, nameHash))
  {
    hide HashOk, Acyclic;
    assert (unused + [d])[|unused|] == d;
    forall i, j | 0 <= i < j < |unused| ensures unused[i] != unused[j] {
      assert (unused + [d])[i] == unused[i] && (unused + [d])[j] == unused[j];
    }
    forall x | x in unused ensures x in t { assert x in unused + [d]; }
  }

  lemma PruneCounts(t0: Live, ext0: map<nat, int>, unused0: seq<nat>, count0: int, seg: seq<nat>, p: nat, t: Live,
                    ext: map<nat, int>, unused: seq<nat>,
                    chains: Chains, bucket: (nat, nat) -> nat, nameHash: string -> nat, count: int, d: nat, t': Live,
                      ext': map<nat, int>, unused': seq<nat>)
    requires Pruning(t0, ext0, unused0, count0, seg, p, t, ext, unused + [d], count) && d in t
    requires ShapeOk(t, unused + [d], chains, bucket, nameHash)
    requires RefsOk(t, ext) && t[d].count == 0
    requires Shed(t, ext, t', ext') && d in Gone(t, t') && HashedGone(t, t') == {d}
    requires Guarded(t, ext, p, d) && d != p ==> Inside(t, t', p)
    requires forall s :: Idle(t, unused, s) && d !in s ==> Idle(t', unused', s)
    ensures if count == 1 then Pruned(t0, ext0, unused0, count0, seg, p, t', ext', unused')
      else Pruning(t0, ext0, unused0, count0, seg, p, t', ext', unused', count - 1)
    ensures |t'| < |t|
  {
    hide HashOk, Acyclic, Pruning, Pruned, Idle, Inside, Guarded;
    PruneNext(t0, ext0, unused0, count0, seg, p, t, ext, unused, count, d, t', ext', unused');
    Subsize(t'.Keys, t.Keys - {d});
    assert |t'.Keys| == |t'| && |t.Keys| == |t|;
  }

  lemma PruneEnds(t0: Live, ext0: map<nat, int>, unused0: seq<nat>, count0: int, seg: seq<nat>, p: nat, t: Live,
                  ext: map<nat, int>, unused: seq<nat>, count: int)
    requires Pruning(t0, ext0, unused0, count0, seg, p, t, ext, unused, count) && unused == []
    ensures Pruned(t0, ext0, unused0, count0, seg, p, t, ext, unused)
  {
  }

  // ---- Walks

  /** An entry under root that has no children and is in use. */
  ghost predicate BusyLeaf(t: Live, root: nat, x: nat) {
    x in t && x in Below(t, root) && x != root && t[x].subdirs == [] && t[x].count > 0
  }

  lemma TreeOf(t: Live, unused: seq<nat>, chains: Chains, bucket: (nat, nat) -> nat, nameHash: string -> nat)
    requires ShapeOk(t, unused, chains, bucket, nameHash)
    ensures Tree(t) && LruOk(t, unused)
  {
  }

  lemma ListOf(t: Live, unused: seq<nat>)
    requires LruOk(t, unused)
    ensures Distinct(unused)
  {
  }

  lemma WalkBegin(t: Live, root: nat)
    requires Tree(t) && root in t
    ensures root in Below(t, root) && [] + Remaining(t, root, root, 0) == Walk(t, root, 0)
  {
    SelfBelow(t, root);
    hide Tree, Below;
    assert After(t, root, root) == [];
  }

  lemma SeenNext(t: Live, seen: seq<nat>, c: nat, rest: seq<nat>)
    requires c in t && forall x :: x in seen ==> x in t
    ensures seen + ([c] + rest) == (seen + [c]) + rest
    ensures forall x :: x in seen + [c] ==> x in t
    ensures Sum(Extra(t), seen + [c]) == Sum(Extra(t), seen) + (t[c].count - 1)
    ensures forall x :: x in seen + [c] <==> x in seen || x == c
  {
    SumNext(Extra(t), seen, c);
  }

  lemma NotLeaf(t: Live, root: nat, c: nat)
    requires c in t && (t[c].subdirs != [] || t[c].count == 0)
    ensures !BusyLeaf(t, root, c)
  {
  }

  lemma LeafIs(t: Live, root: nat, c: nat)
    requires c in t && c in Below(t, root) && c != root && t[c].subdirs == [] && t[c].count > 0
    ensures BusyLeaf(t, root, c)
  {
  }

  lemma NoNegative(t: Live, ext: map<nat, int>, c: nat)
    requires RefsOk(t, ext) && c in t
    ensures t[c].count >= 0
  {
  }

  lemma AllSeen(t: Live, root: nat)
    requires Tree(t) && root in t
    ensures forall x :: BusyLeaf(t, root, x) ==> x in Walk(t, root, 0)
  {
    hide Tree, Below, Walk;
    WalkAll(t, root);
  }

  lemma NoneFound(t: Live, unused: seq<nat>)
    ensures Zeros(t, []) == [] && Idle(t, unused, [])
  {
    assert unused == unused[..|unused|] + [];
  }

  /** The walk comes to each entry once. */
  lemma NotYet(t: Live, root: nat, seen: seq<nat>, c: nat, rest: seq<nat>)
    requires Tree(t) && root in t && seen + ([c] + rest) == Walk(t, root, 0)
    ensures c !in Zeros(t, seen) && seen + ([c] + rest) == (seen + [c]) + rest
  {
    hide Tree, Below, Walk;
    WalkDistinct(t, root, 0);
    ZerosAre(t, seen);
    var w := Walk(t, root, 0);
    assert w[|seen|] == c && forall j :: 0 <= j < |seen| ==> w[j] == seen[j];
  }

  ghost function Elems(s: seq<nat>): set<nat> {
    set x | x in s
  }

  /** The other entries keep their order when one is moved to the end. */
  lemma OthersInOrder(unused0: seq<nat>, unused: seq<nat>, zeros: seq<nat>, x: nat)
    requires Distinct(unused0) && unused == Minus(unused0, Elems(zeros)) + zeros && x !in zeros
    ensures Remove(unused, x) + [x] == Minus(unused0, Elems(zeros + [x])) + (zeros + [x])
  {
    RemoveSuffix(Minus(unused0, Elems(zeros)), zeros, x);
    MinusOne(unused0, Elems(zeros), x);
    assert Elems(zeros + [x]) == Elems(zeros) + {x};
    assert Minus(unused0, Elems(zeros + [x])) + zeros + [x] == Minus(unused0, Elems(zeros + [x])) + (zeros + [x]);
  }

  lemma AllInOrder(unused: seq<nat>)
    ensures unused == Minus(unused, Elems([])) + []
  {
    assert Elems([]) == {};
    MinusNone(unused);
  }

  lemma MovesToEnd(t: Live, unused: seq<nat>, seg: seq<nat>, x: nat, chains: Chains, bucket: (nat, nat) -> nat,
                   nameHash: string -> nat)
    requires ShapeOk(t, unused, chains, bucket, nameHash) && Idle(t, unused, seg) && x in t && t[x].count == 0
    requires x !in seg
    ensures var unused' := Remove(unused, x) + [x];
      && ShapeOk(t, unused', chains, bucket, nameHash) && LruOk(t, unused') && Idle(t, unused', seg + [x])
        && |unused'| == |unused|
      && forall y :: y in unused' <==> y in unused
  {
    hide Tree, HashOk;
    ToEnd(t, unused, seg, x);
  }

  /** The unused entries under `parent` are at the end of the list, and found is how many. */
  ghost predicate Selected(t: Live, parent: nat, unused: seq<nat>, found: nat) {
    && Tree(t) && parent in t && found == |Zeros(t, Walk(t, parent, 0))|
    && Idle(t, unused, Zeros(t, Walk(t, parent, 0)))
  }

  ghost predicate Shrinking(t0: Live, ext0: map<nat, int>, p: nat, t: Live, ext: map<nat, int>)
    requires ext0.Keys == t0.Keys
  {
    Shed(t0, ext0, t, ext) && Inside(t0, t, p) && p in t && p in ext && ext[p] > 0
  }

  lemma ShrinkStart(t: Live, ext: map<nat, int>, unused: seq<nat>, chains: Chains, bucket: (nat, nat) -> nat,
                    nameHash: string -> nat, p: nat)
    requires ShapeOk(t, unused, chains, bucket, nameHash) && RefsOk(t, ext) && p in t && ext[p] > 0
    ensures Linked(t) && ext.Keys == t.Keys && Shrinking(t, ext, p, t, ext)
  {
    hide HashOk, Acyclic;
  }

  lemma ShrinkTarget(t: Live, ext: map<nat, int>, unused: seq<nat>, p: nat, found: nat)
    requires Selected(t, p, unused, found) && p in ext && ext[p] > 0 && found > 0
    ensures Targeted(t, ext, unused, found, Zeros(t, Walk(t, p, 0)), p)
  {
    hide Tree, Below, Walk;
    WalkAll(t, p);
    ZerosAre(t, Walk(t, p, 0));
  }

  lemma ShrinkStep(t0: Live, ext0: map<nat, int>, p: nat, t: Live, ext: map<nat, int>, unused: seq<nat>, chains: Chains,
                   bucket: (nat, nat) -> nat, nameHash: string -> nat, found: nat,
                   t': Live, ext': map<nat, int>, unused': seq<nat>, chains': Chains)
    requires Linked(t0) && ext0.Keys == t0.Keys && Shrinking(t0, ext0, p, t, ext)
    requires ShapeOk(t, unused, chains, bucket, nameHash) && RefsOk(t, ext)
    requires Selected(t, p, unused, found) && found > 0
    requires Pruned(t, ext, unused, found, Zeros(t, Walk(t, p, 0)), p, t', ext', unused')
    requires ShapeOk(t', unused', chains', bucket, nameHash) && RefsOk(t', ext')
    ensures Shrinking(t0, ext0, p, t', ext') && p in t' && |t'| < |t|
  {
    hide Acyclic, HashOk, Walk;
    ShrinkTarget(t, ext, unused, p, found);
    ShedTrans(t0, ext0, t, ext, t', ext');
    assert p !in Gone(t, t') && p in t';
    assert Inside(t0, t', p) by {
      forall x | x in Gone(t, t') ensures x in Below(t0, p) { BelowKept(t0, t, x, p); }
    }
    ShrinkProgress(t, ext, unused, found, Zeros(t, Walk(t, p, 0)), p, t', ext', unused');
  }

  lemma ShrinkProgress(t: Live, ext: map<nat, int>, unused: seq<nat>, found: nat, seg: seq<nat>, p: nat, t': Live,
                       ext': map<nat, int>, unused': seq<nat>)
    requires Linked(t) && RefsOk(t, ext) && Targeted(t, ext, unused, found, seg, p) && found > 0
    requires Pruned(t, ext, unused, found, seg, p, t', ext', unused') && Linked(t') && RefsOk(t', ext')
    requires LruOk(t', unused')
    ensures |t'| < |t|
  {
    hide Below, Inside;
    var x := seg[0];
    assert x in seg && t[x].count == 0;
    if x in t' && t'[x].subdirs != [] {
      ChildOf(t', x, t'[x].subdirs[0]);
      ChildOf(t, x, t'[x].subdirs[0]);
    }
    assert t'.Keys < t.Keys;
    Subsize(t'.Keys, t.Keys - {if x in t' then (var y :| y in Gone(t, t'); y) else x});
    assert |t'.Keys| == |t'| && |t.Keys| == |t|;
  }

  lemma ShrinkEnd(t: Live, ext: map<nat, int>, unused: seq<nat>, p: nat)
    requires RefsOk(t, ext) && Selected(t, p, unused, 0)
    ensures forall x :: x in t && x in Below(t, p) && x != p ==> t[x].count > 0
  {
    hide Tree, Below, Walk;
    WalkAll(t, p);
    ZerosAre(t, Walk(t, p, 0));
  }
}
