/** What every operation on the directory entry cache keeps: the tree, the reference counts,
    the list of unused entries and the hash chains agree. */
module DentryState {
  import opened Links
  import opened Lists
  import opened DentryTree

  type Chains = map<nat, seq<nat>>

  /** Every entry with count zero is on the list of unused entries, and can be looked up.
      Entries in use may be on the list too. */
  ghost predicate LruOk(t: Live, unused: seq<nat>) {
    && Distinct(unused) && (forall x :: x in unused ==> x in t)
    && forall x :: x in t && t[x].count == 0 ==> t[x].hashed && x in unused
  }

  function Chain(chains: Chains, b: nat): seq<nat> {
    if b in chains then chains[b] else []
  }

  ghost predicate InBucket(t: Live, bucket: (nat, nat) -> nat, b: nat, x: nat) {
    x in t && t[x].hashed && bucket(t[x].parent, t[x].hash) == b
  }

  ghost predicate HashOk(t: Live, chains: Chains, bucket: (nat, nat) -> nat, nameHash: string -> nat) {
    && (forall b, x :: x in Chain(chains, b) <==> InBucket(t, bucket, b, x))
    && (forall b :: Distinct(Chain(chains, b)))
    && (forall x :: x in t && t[x].hashed ==> !IsRoot(t, x) && t[x].hash == nameHash(t[x].name))
  }

  /** Everything but the counts. */
  ghost predicate ShapeOk(t: Live, unused: seq<nat>, chains: Chains, bucket: (nat, nat) -> nat,
                          nameHash: string -> nat) {
    Tree(t) && LruOk(t, unused) && HashOk(t, chains, bucket, nameHash)
  }

  /** The counts are right, except that d has one reference that is to be dropped. */
  ghost predicate Owed(t: Live, ext: map<nat, int>, d: nat) {
    ext.Keys == t.Keys && d in t && forall x :: x in t ==>
      ext[x] >= 0 && t[x].count == ext[x] + |t[x].subdirs| + (if x == d then 1 else 0)
  }

  // ---- Taking an entry out of the tree

  /** The entry is unlinked from its parent's child list and freed. */
  function Freed(t: Live, d: nat): Live
    requires d in t && t[d].parent in t
  {
    var p := t[d].parent;
    if p == d then t - {d} else t[p := t[p].(subdirs := Remove(t[p].subdirs, d))] - {d}
  }

  lemma FreedTree(t: Live, d: nat)
    requires Tree(t) && d in t && t[d].subdirs == []
    ensures t[d].parent in t && Tree(Freed(t, d))
  {
    ParentOf(t, d);
    assert Up(Freed(t, d)) == Up(t) - {d};
    FewerLinks(Up(t), {d});
    hide Acyclic;
    forall x | x in Freed(t, d) ensures Placed(Freed(t, d), x) {
      FreedList(t, d, x);
    }
  }

  lemma FreedList(t: Live, d: nat, x: nat)
    requires Linked(t) && d in t && t[d].parent in t && t[d].subdirs == [] && x in Freed(t, d)
    ensures Placed(Freed(t, d), x)
  {
    ChildOf(t, d, x);
    ParentOf(t, x);
    ParentOf(t, d);
    assert Placed(t, x);
    RemoveIs(t[x].subdirs, d);
    var t' := Freed(t, d);
    forall c ensures c in t'[x].subdirs <==> c in t' && c != x && t'[c].parent == x {
      assert c in t[x].subdirs <==> c in t && c != x && t[c].parent == x;
    }
  }

  /** The parent's count is now one too high. */
  lemma FreedRefs(t: Live, ext: map<nat, int>, d: nat)
    requires Linked(t) && d in t && t[d].subdirs == [] && ext.Keys == t.Keys
    requires forall x :: x in t && x != d ==> ext[x] >= 0 && t[x].count == ext[x] + |t[x].subdirs|
    ensures t[d].parent in t
    ensures if IsRoot(t, d) then RefsOk(Freed(t, d), ext - {d}) else Owed(Freed(t, d), ext - {d}, t[d].parent)
  {
    ParentOf(t, d);
    RemoveIs(t[t[d].parent].subdirs, d);
  }

  lemma FreedLru(t: Live, unused: seq<nat>, d: nat)
    requires d in t && t[d].parent in t && Distinct(unused) && (forall x :: x in unused ==> x in t)
    requires forall x :: x in t && x != d && t[x].count == 0 ==> t[x].hashed && x in unused
    ensures LruOk(Freed(t, d), Remove(unused, d))
  {
    RemoveIs(unused, d);
  }

  /** The same entries can be looked up, in the same places. */
  ghost predicate SameHashed(t: Live, t': Live) {
    && (forall x :: x in t && t[x].hashed ==> x in t' && t'[x].hashed)
    && (forall x :: x in t' && t'[x].hashed ==>
      x in t && t[x].hashed && t[x].parent == t'[x].parent && t[x].hash == t'[x].hash && t[x].name == t'[x].name)
  }

  lemma SameHash(t: Live, t': Live, chains: Chains, bucket: (nat, nat) -> nat, nameHash: string -> nat)
    requires HashOk(t, chains, bucket, nameHash) && SameHashed(t, t')
    ensures HashOk(t', chains, bucket, nameHash)
  {
    forall b, x ensures InBucket(t', bucket, b, x) <==> InBucket(t, bucket, b, x) {}
    forall x | x in t' && t'[x].hashed ensures !IsRoot(t', x) {}
  }

  function Unchained(chains: Chains, b: nat, d: nat): Chains {
    chains[b := Remove(Chain(chains, b), d)]
  }

  /** d can no longer be looked up; the others as before. */
  ghost predicate AllBut(t: Live, t': Live, d: nat) {
    && (d in t' ==> !t'[d].hashed)
    && (forall x :: x != d && x in t && t[x].hashed ==> x in t' && t'[x].hashed)
    && (forall x :: x != d && x in t' && t'[x].hashed ==>
      x in t && t[x].hashed && t[x].parent == t'[x].parent && t[x].hash == t'[x].hash && t[x].name == t'[x].name)
  }

  lemma UnhashOk(t: Live, t': Live, chains: Chains, bucket: (nat, nat) -> nat, nameHash: string -> nat, d: nat)
    requires HashOk(t, chains, bucket, nameHash) && d in t && t[d].hashed && AllBut(t, t', d)
    ensures HashOk(t', Unchained(chains, bucket(t[d].parent, t[d].hash), d), bucket, nameHash)
  {
    var b0 := bucket(t[d].parent, t[d].hash);
    var chains' := Unchained(chains, b0, d);
    RemoveIs(Chain(chains, b0), d);
    forall b, x ensures x in Chain(chains', b) <==> InBucket(t', bucket, b, x) {
      assert x in Chain(chains, b) <==> InBucket(t, bucket, b, x);
      assert InBucket(t', bucket, b, x) <==> x != d && InBucket(t, bucket, b, x);
    }
    forall b ensures Distinct(Chain(chains', b)) { assert Distinct(Chain(chains, b)); }
    forall x | x in t' && t'[x].hashed ensures !IsRoot(t', x) {}
  }

  // ---- What freeing leaves alone

  /** Some entries have gone; the others have the same place and name. */
  ghost predicate Kept(t0: Live, t: Live) {
    && t.Keys <= t0.Keys
    && forall x :: x in t ==>
      t[x].parent == t0[x].parent && t[x].name == t0[x].name && t[x].hash == t0[x].hash && t[x].hashed == t0[x].hashed
  }

  ghost function Gone(t0: Live, t: Live): set<nat> {
    t0.Keys - t.Keys
  }

  /** Nothing needs x once everything in f has gone: it cannot be looked up, nobody refers to
      it, and its children are all in f. */
  ghost predicate Doomed(t: Live, ext: map<nat, int>, f: set<nat>, x: nat)
    requires x in t && ext.Keys == t.Keys
  {
    !t[x].hashed && ext[x] == 0 && forall c :: c in t[x].subdirs ==> c in f
  }

  ghost predicate Garbage(t: Live, ext: map<nat, int>, f: set<nat>)
    requires ext.Keys == t.Keys
  {
    f <= t.Keys && forall x :: x in t ==> (x in f <==> Doomed(t, ext, f, x))
  }

  /** There is only one such set. */
  lemma GarbageUnique(t: Live, ext: map<nat, int>, f: set<nat>, f': set<nat>)
    requires Tree(t) && ext.Keys == t.Keys && Garbage(t, ext, f) && Garbage(t, ext, f')
    ensures f == f'
  {
    forall x | x in t ensures x in f <==> x in f' {
      GarbageAt(t, ext, f, f', x);
    }
  }

  lemma {:induction false} GarbageAt(t: Live, ext: map<nat, int>, f: set<nat>, f': set<nat>, x: nat)
    requires Tree(t) && ext.Keys == t.Keys && Garbage(t, ext, f) && Garbage(t, ext, f') && x in t
    ensures x in f <==> x in f'
    decreases Below(t, x)
  {
    hide Tree, Below;
    forall c | c in t[x].subdirs ensures c in f <==> c in f' {
      ChildBelow(t, x, c);
      GarbageAt(t, ext, f, f', c);
    }
    assert Doomed(t, ext, f, x) <==> Doomed(t, ext, f', x);
  }

  /** Nothing that remains is doomed, since all counts are right again. */
  lemma NoneDoomed(t0: Live, t: Live, ext0: map<nat, int>, ext: map<nat, int>, unused: seq<nat>, x: nat)
    requires Linked(t0) && Linked(t) && Kept(t0, t) && RefsOk(t, ext) && LruOk(t, unused) && ext0.Keys == t0.Keys
    requires x in t && ext0[x] == ext[x]
    ensures !Doomed(t0, ext0, Gone(t0, t), x)
  {
    if Doomed(t0, ext0, Gone(t0, t), x) {
      if t[x].subdirs != [] {
        var c := t[x].subdirs[0];
        ChildOf(t, x, c);
        ChildOf(t0, x, c);
      }
    }
  }

  lemma {:induction false} FollowKept(t0: Live, t: Live, x: nat, n: nat)
    requires Linked(t) && Kept(t0, t) && x in t
    ensures Follow(Up(t), x, n) == Follow(Up(t0), x, n)
    decreases n
  {
    ParentOf(t, x);
    if n > 0 && t[x].parent != x {
      FollowKept(t0, t, t[x].parent, n - 1);
    }
  }

  lemma BelowKept(t0: Live, t: Live, x: nat, d: nat)
    requires Linked(t) && Kept(t0, t) && x in t
    ensures x in Below(t, d) <==> x in Below(t0, d)
  {
    if x in Below(t, d) {
      var n: nat :| Follow(Up(t), x, n) == Some(d);
      FollowKept(t0, t, x, n);
    }
    if x in Below(t0, d) {
      var n: nat :| Follow(Up(t0), x, n) == Some(d);
      FollowKept(t0, t, x, n);
    }
  }

  lemma KeptFreed(t0: Live, t: Live, d: nat)
    requires Kept(t0, t) && d in t && t[d].parent in t
    ensures Kept(t0, Freed(t, d)) && Gone(t0, Freed(t, d)) == Gone(t0, t) + {d}
  {
  }

  // ---- The end of the list of unused entries

  /** seg is at the end of the list and nobody uses its entries. */
  ghost predicate Idle(t: Live, unused: seq<nat>, seg: seq<nat>) {
    && |seg| <= |unused| && unused == unused[..|unused| - |seg|] + seg
    && forall x :: x in seg ==> x in t && t[x].count == 0
  }

  lemma IdleRemove(t: Live, unused: seq<nat>, seg: seq<nat>, d: nat)
    requires Idle(t, unused, seg) && d !in seg
    ensures Idle(t, Remove(unused, d), seg)
  {
    var front := unused[..|unused| - |seg|];
    RemoveSuffix(front, seg, d);
    assert (Remove(front, d) + seg)[..|Remove(front, d)|] == Remove(front, d);
  }

  lemma IdlePush(t: Live, unused: seq<nat>, seg: seq<nat>, d: nat)
    requires Idle(t, unused, seg)
    ensures Idle(t, [d] + unused, seg)
  {
    assert [d] + unused == ([d] + unused[..|unused| - |seg|]) + seg;
  }

  ghost function Zeros(t: Live, s: seq<nat>): seq<nat> {
    if s == [] then []
    else Zeros(t, s[..|s| - 1]) + (var x := s[|s| - 1]; if x in t && t[x].count == 0 then [x] else [])
  }

  lemma {:induction false} ZerosAre(t: Live, s: seq<nat>)
    ensures forall x :: x in Zeros(t, s) <==> x in s && x in t && t[x].count == 0
  {
    if s != [] {
      ZerosAre(t, s[..|s| - 1]);
      assert s == s[..|s| - 1] + [s[|s| - 1]];
    }
  }

  lemma ZerosNext(t: Live, s: seq<nat>, x: nat)
    ensures Zeros(t, s + [x]) == if x in t && t[x].count == 0 then Zeros(t, s) + [x] else Zeros(t, s)
  {
    assert (s + [x])[..|s|] == s;
  }

  /** Moving an unused entry to the end of the list. */
  lemma ToEnd(t: Live, unused: seq<nat>, seg: seq<nat>, x: nat)
    requires LruOk(t, unused) && Idle(t, unused, seg) && x in t && t[x].count == 0 && x !in seg
    ensures LruOk(t, Remove(unused, x) + [x]) && Idle(t, Remove(unused, x) + [x], seg + [x])
    ensures |Remove(unused, x) + [x]| == |unused|
    ensures forall y :: y in Remove(unused, x) + [x] <==> y in unused
  {
    RemoveIs(unused, x);
    JoinDistinct(Remove(unused, x), [x]);
    IdleRemove(t, unused, seg, x);
    var u := Remove(unused, x);
    assert u + [x] == u[..|u| - |seg|] + (seg + [x]);
  }
}
