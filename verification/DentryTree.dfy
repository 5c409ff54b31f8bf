/** The tree of directory entries: parent pointers and child lists, and walks over it. */
module DentryTree {
  import opened Links
  import opened Lists

  /** A struct dentry, named by its address. */
  datatype Dentry = Dentry(parent: nat, name: string, hash: nat, count: int, hashed: bool, subdirs: seq<nat>)

  type Live = map<nat, Dentry>

  predicate IsRoot(t: Live, d: nat)
    requires d in t
  {
    t[d].parent == d
  }

  /** The child list holds exactly those whose parent pointer leads here. */
  ghost predicate Placed(t: Live, d: nat)
    requires d in t
  {
    t[d].parent in t && Distinct(t[d].subdirs) && forall c :: c in t[d].subdirs <==>
      c in t && c != d && t[c].parent == d
  }

  ghost predicate Linked(t: Live) {
    forall d {:trigger Placed(t, d)} :: d in t ==> Placed(t, d)
  }

  ghost function Up(t: Live): map<nat, nat> {
    map d | d in t && t[d].parent != d :: t[d].parent
  }

  ghost predicate Tree(t: Live) {
    Linked(t) && Acyclic(Up(t))
  }

  /** d and everything under it. */
  ghost function Below(t: Live, d: nat): set<nat> {
    set x | x in t && Reaches(Up(t), x, d)
  }

  lemma SelfBelow(t: Live, d: nat)
    requires d in t
    ensures d in Below(t, d)
  {
    assert Follow(Up(t), d, 0) == Some(d);
  }

  lemma StepUp(t: Live, x: nat, d: nat)
    requires Linked(t) && x in t && d in t && x != d
    ensures x in Below(t, d) <==> !IsRoot(t, x) && t[x].parent in Below(t, d)
  {
    var up := Up(t);
    if x in Below(t, d) {
      var n: nat :| Follow(up, x, n) == Some(d);
      assert n > 0;
      assert Follow(up, up[x], n - 1) == Some(d);
    }
    if x in up && up[x] in Below(t, d) {
      var n: nat :| Follow(up, up[x], n) == Some(d);
      assert Follow(up, x, n + 1) == Some(d);
    }
  }

  /** Below is transitive. */
  lemma BelowTrans(t: Live, x: nat, y: nat, z: nat)
    requires x in Below(t, y) && y in Below(t, z)
    ensures x in Below(t, z)
  {
    var m: nat :| Follow(Up(t), x, m) == Some(y);
    var n: nat :| Follow(Up(t), y, n) == Some(z);
    FollowAdd(Up(t), x, m, n);
  }

  lemma NotAbove(t: Live, d: nat, c: nat)
    requires Tree(t) && d in t && c in t[d].subdirs
    ensures d !in Below(t, c)
  {
    var up := Up(t);
    ChildOf(t, d, c);
    assert c in t && up[c] == d;
    forall n: nat ensures Follow(up, d, n) != Some(c) {
      assert Follow(up, c, n + 1) == Follow(up, d, n);
    }
  }

  lemma ChildBelow(t: Live, d: nat, c: nat)
    requires Tree(t) && d in t && c in t[d].subdirs
    ensures c in t && c in Below(t, d) && Below(t, c) < Below(t, d) && d !in Below(t, c)
  {
    hide Acyclic;
    NotAbove(t, d, c);
    ChildOf(t, d, c);
    SelfBelow(t, d);
    StepUp(t, c, d);
    forall x | x in Below(t, c) ensures x in Below(t, d) { BelowTrans(t, x, c, d); }
  }

  lemma ChildOf(t: Live, d: nat, c: nat)
    requires Linked(t) && d in t
    ensures c in t[d].subdirs <==> c in t && c != d && t[c].parent == d
  {
    assert Placed(t, d);
  }

  lemma ParentOf(t: Live, d: nat)
    requires Linked(t) && d in t
    ensures t[d].parent in t && Distinct(t[d].subdirs) && Distinct(t[t[d].parent].subdirs)
    ensures !IsRoot(t, d) ==> d in t[t[d].parent].subdirs
  {
    assert Placed(t, d);
    assert Placed(t, t[d].parent);
  }

  lemma ParentStep(t: Live, x: nat, d: nat, n: nat)
    requires x in t && x != d && Follow(Up(t), x, n) == Some(d)
    ensures n > 0 && !IsRoot(t, x) && Follow(Up(t), t[x].parent, n - 1) == Some(d)
  {
  }

  /** Everything under d is under one of its children. */
  lemma {:induction false} UnderChild(t: Live, d: nat, x: nat, n: nat) returns (c: nat)
    requires Linked(t) && d in t && x in t && x != d && Follow(Up(t), x, n) == Some(d)
    ensures c in t[d].subdirs && x in Below(t, c)
    decreases n
  {
    hide Below, Placed, Follow, Up;
    ParentStep(t, x, d, n);
    ParentOf(t, x);
    var y := t[x].parent;
    SelfBelow(t, x);
    if y == d {
      c := x;
      ChildOf(t, d, x);
    } else {
      c := UnderChild(t, d, y, n - 1);
      ChildOf(t, d, c);
      if x != c { StepUp(t, x, c); }
    }
  }

  /** Nothing is under two different children. */
  lemma {:induction false} OneChild(t: Live, d: nat, c1: nat, c2: nat, x: nat, n: nat)
    requires Tree(t) && d in t && c1 in t[d].subdirs && c2 in t[d].subdirs && x in t && x in Below(t, c2)
    requires Follow(Up(t), x, n) == Some(c1)
    ensures c1 == c2
    decreases n
  {
    hide Below, Placed, Follow, Up, Acyclic;
    ChildOf(t, d, c1);
    ChildOf(t, d, c2);
    NotAbove(t, d, c1);
    NotAbove(t, d, c2);
    if x == c1 {
      if c1 != c2 { StepUp(t, c1, c2); }
    } else {
      ParentStep(t, x, c1, n);
      ParentOf(t, x);
      if x == c2 {
        InBelow(t, d, c1, n - 1);
      } else {
        StepUp(t, x, c2);
        OneChild(t, d, c1, c2, t[x].parent, n - 1);
      }
    }
  }

  lemma InBelow(t: Live, x: nat, d: nat, n: nat)
    requires x in t && Follow(Up(t), x, n) == Some(d)
    ensures x in Below(t, d)
  {
  }

  // ---- Preorder

  /** Everything under the children of d from the i-th on, in the order of the walk. */
  ghost function Walk(t: Live, d: nat, i: nat): seq<nat>
    requires Tree(t) && d in t && i <= |t[d].subdirs|
    decreases Below(t, d), |t[d].subdirs| - i
  {
    if i == |t[d].subdirs| then []
    else
      var c := t[d].subdirs[i];
      ChildBelow(t, d, c);
      [c] + Walk(t, c, 0) + Walk(t, d, i + 1)
  }

  ghost predicate FromChild(t: Live, d: nat, i: nat, x: nat)
    requires d in t
  {
    exists j :: i <= j < |t[d].subdirs| && x in Below(t, t[d].subdirs[j])
  }

  lemma {:induction false} WalkIs(t: Live, d: nat, i: nat)
    requires Tree(t) && d in t && i <= |t[d].subdirs|
    ensures forall x :: x in Walk(t, d, i) <==> FromChild(t, d, i, x)
    decreases Below(t, d), |t[d].subdirs| - i
  {
    hide Tree, Below;
    if i < |t[d].subdirs| {
      var c := t[d].subdirs[i];
      ChildBelow(t, d, c);
      WalkIs(t, c, 0);
      WalkIs(t, d, i + 1);
      forall x ensures x in Walk(t, d, i) <==> FromChild(t, d, i, x) {
        assert x in Walk(t, d, i) <==> x == c || x in Walk(t, c, 0) || x in Walk(t, d, i + 1);
        WholeSubtree(t, c, x);
        assert FromChild(t, d, i, x) <==> x in Below(t, c) || FromChild(t, d, i + 1, x);
      }
    }
  }

  lemma WholeSubtree(t: Live, c: nat, x: nat)
    requires Tree(t) && c in t
    ensures x in Below(t, c) <==> x == c || FromChild(t, c, 0, x)
  {
    hide Acyclic;
    SelfBelow(t, c);
    if x in Below(t, c) && x != c {
      var n: nat :| Follow(Up(t), x, n) == Some(c);
      var b := UnderChild(t, c, x, n);
      var j :| 0 <= j < |t[c].subdirs| && t[c].subdirs[j] == b;
    } else if FromChild(t, c, 0, x) {
      var j :| 0 <= j < |t[c].subdirs| && x in Below(t, t[c].subdirs[j]);
      ChildBelow(t, c, t[c].subdirs[j]);
    }
  }

  /** The walk from the first child meets exactly what is under d. */
  lemma WalkAll(t: Live, d: nat)
    requires Tree(t) && d in t
    ensures forall x :: x in Walk(t, d, 0) <==> x in Below(t, d) && x != d
  {
    hide Tree, Below, Walk;
    WalkIs(t, d, 0);
    forall x ensures x in Walk(t, d, 0) <==> x in Below(t, d) && x != d {
      WholeSubtree(t, d, x);
      if FromChild(t, d, 0, x) {
        var j :| 0 <= j < |t[d].subdirs| && x in Below(t, t[d].subdirs[j]);
        ChildBelow(t, d, t[d].subdirs[j]);
      }
    }
  }

  /** And meets nothing twice. */
  lemma {:induction false} WalkDistinct(t: Live, d: nat, i: nat)
    requires Tree(t) && d in t && i <= |t[d].subdirs|
    ensures Distinct(Walk(t, d, i))
    decreases Below(t, d), |t[d].subdirs| - i
  {
    hide Tree, Below;
    if i < |t[d].subdirs| {
      var c := t[d].subdirs[i];
      ChildBelow(t, d, c);
      WalkDistinct(t, c, 0);
      WalkDistinct(t, d, i + 1);
      WalkAll(t, c);
      WalkIs(t, d, i + 1);
      forall x | x in Walk(t, d, i + 1) ensures x !in Below(t, c) { LaterChild(t, d, i, x); }
      SelfIn(t, c);
      assert Walk(t, d, i) == [c] + Walk(t, c, 0) + Walk(t, d, i + 1);
      JoinDistinct([c], Walk(t, c, 0));
      JoinDistinct([c] + Walk(t, c, 0), Walk(t, d, i + 1));
    }
  }

  lemma SelfIn(t: Live, c: nat)
    requires c in t
    ensures c in Below(t, c)
  {
    SelfBelow(t, c);
  }

  lemma LaterChild(t: Live, d: nat, i: nat, x: nat)
    requires Tree(t) && d in t && i < |t[d].subdirs| && FromChild(t, d, i + 1, x)
    ensures x !in Below(t, t[d].subdirs[i])
  {
    hide Acyclic;
    var j :| i + 1 <= j < |t[d].subdirs| && x in Below(t, t[d].subdirs[j]);
    assert Placed(t, d);
    if x in Below(t, t[d].subdirs[i]) {
      var n: nat :| Follow(Up(t), x, n) == Some(t[d].subdirs[i]);
      OneChild(t, d, t[d].subdirs[i], t[d].subdirs[j], x, n);
    }
  }

  // ---- The walk with parent pointers

  /** What is still to come when the walk from root is done with everything under p. */
  ghost function After(t: Live, root: nat, p: nat): seq<nat>
    requires Tree(t) && root in t && p in t && p in Below(t, root)
    decreases t.Keys - Below(t, p)
  {
    if p == root then []
    else
      Ascend(t, root, p);
      var q := t[p].parent;
      Walk(t, q, IndexOf(t[q].subdirs, p) + 1) + After(t, root, q)
  }

  /** What is still to come when it is at child i of p. */
  ghost function Remaining(t: Live, root: nat, p: nat, i: nat): seq<nat>
    requires Tree(t) && root in t && p in t && p in Below(t, root) && i <= |t[p].subdirs|
  {
    Walk(t, p, i) + After(t, root, p)
  }

  lemma Ascend(t: Live, root: nat, p: nat)
    requires Tree(t) && root in t && p in t && p in Below(t, root) && p != root
    ensures var q := t[p].parent;
      q in t && q in Below(t, root) && p in t[q].subdirs && t.Keys - Below(t, q) < t.Keys - Below(t, p)
  {
    hide Acyclic;
    StepUp(t, p, root);
    var q := t[p].parent;
    assert Placed(t, q);
    ChildBelow(t, q, p);
    SelfBelow(t, q);
  }

  /** Going down to a child, whether or not it has children of its own. */
  lemma WalkDown(t: Live, root: nat, p: nat, i: nat)
    requires Tree(t) && root in t && p in t && p in Below(t, root) && i < |t[p].subdirs|
    ensures var c := t[p].subdirs[i];
      && c in t && c in Below(t, root) && c != root
      && Remaining(t, root, p, i) == [c] + Remaining(t, root, c, 0)
      && (t[c].subdirs == [] ==> Remaining(t, root, c, 0) == Remaining(t, root, p, i + 1))
  {
    hide Tree, Below;
    var c := t[p].subdirs[i];
    ChildBelow(t, p, c);
    Descend(t, root, p, c);
    assert t[c].parent == p && IndexOf(t[p].subdirs, c) == i by { ChildAt(t, p, i); }
    assert Walk(t, p, i) == [c] + Walk(t, c, 0) + Walk(t, p, i + 1);
    assert After(t, root, c) == Walk(t, p, i + 1) + After(t, root, p);
    Regroup([c], Walk(t, c, 0), Walk(t, p, i + 1), After(t, root, p));
  }

  /** Going back up when nothing is left at p. */
  lemma WalkUp(t: Live, root: nat, p: nat)
    requires Tree(t) && root in t && p in t && p in Below(t, root)
    ensures p == root ==> Remaining(t, root, p, |t[p].subdirs|) == []
    ensures p != root ==>
      var q := t[p].parent;
      && q in t && q in Below(t, root) && p in t[q].subdirs && t.Keys - Below(t, q) < t.Keys - Below(t, p)
      && Remaining(t, root, p, |t[p].subdirs|) == Remaining(t, root, q, IndexOf(t[q].subdirs, p) + 1)
  {
    hide Tree, Below;
    assert Walk(t, p, |t[p].subdirs|) == [];
    if p != root {
      Ascend(t, root, p);
      var q := t[p].parent;
      assert After(t, root, p) == Walk(t, q, IndexOf(t[q].subdirs, p) + 1) + After(t, root, q);
      assert [] + After(t, root, p) == After(t, root, p);
    }
  }

  lemma Regroup(a: seq<nat>, b: seq<nat>, c: seq<nat>, d: seq<nat>)
    ensures (a + b + c) + d == a + (b + (c + d)) && [] + (c + d) == c + d
  {
  }

  lemma ChildAt(t: Live, p: nat, i: nat)
    requires Tree(t) && p in t && i < |t[p].subdirs|
    ensures var c := t[p].subdirs[i]; c in t && t[c].parent == p && IndexOf(t[p].subdirs, c) == i
  {
    assert Placed(t, p);
    IndexUnique(t[p].subdirs, i);
  }

  lemma Descend(t: Live, root: nat, p: nat, c: nat)
    requires Tree(t) && root in t && p in t && p in Below(t, root) && c in t[p].subdirs
    ensures c in Below(t, root) && c != root
  {
    ChildBelow(t, p, c);
    BelowTrans(t, c, p, root);
    if c == root {
      NotAbove(t, p, c);
    }
  }

  // ---- References

  /** d_count is the number of references from outside plus the number of children. */
  ghost predicate RefsOk(t: Live, ext: map<nat, int>) {
    ext.Keys == t.Keys && forall d :: d in t ==> ext[d] >= 0 && t[d].count == ext[d] + |t[d].subdirs|
  }

  /** d_count less one: what the walk of is_root_busy adds up. */
  ghost function Extra(t: Live): map<nat, int> {
    map d | d in t :: t[d].count - 1
  }

  lemma {:induction false} WalkSum(t: Live, ext: map<nat, int>, d: nat, i: nat)
    requires Tree(t) && RefsOk(t, ext) && d in t && i <= |t[d].subdirs|
    ensures forall x :: x in Walk(t, d, i) ==> x in t
    ensures Sum(Extra(t), Walk(t, d, i)) == Sum(ext, Walk(t, d, i)) - (|t[d].subdirs| - i)
    decreases Below(t, d), |t[d].subdirs| - i
  {
    hide Tree, Below;
    WalkInside(t, d, i);
    if i < |t[d].subdirs| {
      var c := t[d].subdirs[i];
      ChildBelow(t, d, c);
      WalkSum(t, ext, c, 0);
      WalkSum(t, ext, d, i + 1);
      var w := [c] + Walk(t, c, 0);
      assert Walk(t, d, i) == w + Walk(t, d, i + 1);
      SumJoin(Extra(t), w, Walk(t, d, i + 1));
      SumJoin(ext, w, Walk(t, d, i + 1));
      assert w[1..] == Walk(t, c, 0);
    }
  }

  lemma WalkInside(t: Live, d: nat, i: nat)
    requires Tree(t) && d in t && i <= |t[d].subdirs|
    ensures forall x :: x in Walk(t, d, i) ==> x in t
  {
    hide Tree, Walk;
    WalkIs(t, d, i);
  }

  /** The references from outside to anything in the subtree of root. */
  ghost function Users(t: Live, ext: map<nat, int>, root: nat): int
    requires Tree(t) && RefsOk(t, ext) && root in t
  {
    WalkInside(t, root, 0);
    ext[root] + Sum(ext, Walk(t, root, 0))
  }

  lemma UsersAre(t: Live, ext: map<nat, int>, root: nat)
    requires Tree(t) && RefsOk(t, ext) && root in t
    ensures forall x :: x in Walk(t, root, 0) ==> x in t
    ensures Users(t, ext, root) == t[root].count + Sum(Extra(t), Walk(t, root, 0))
  {
    hide Tree, Walk;
    WalkInside(t, root, 0);
    WalkSum(t, ext, root, 0);
  }
}
