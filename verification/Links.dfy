/** Who waits for whom, and who is whose parent: each node points to at most one other. Among those
    who wait, a cycle is a deadlock. */
module Links {

  datatype Node = None | Some(owner: nat)

  /** Where following n links from x leads. */
  ghost function Follow(links: map<nat, nat>, x: nat, n: nat): Node
    decreases n
  {
    if n == 0 then Some(x) else if x in links then Follow(links, links[x], n - 1) else None
  }

  ghost predicate Reaches(links: map<nat, nat>, x: nat, y: nat) {
    exists n: nat :: Follow(links, x, n) == Some(y)
  }

  ghost predicate Acyclic(links: map<nat, nat>) {
    forall x: nat, n: nat :: n > 0 ==> Follow(links, x, n) != Some(x)
  }

  lemma {:induction false} FollowAdd(links: map<nat, nat>, x: nat, m: nat, n: nat)
    requires Follow(links, x, m).Some?
    ensures Follow(links, x, m + n) == Follow(links, Follow(links, x, m).owner, n)
    decreases m
  {
    if m > 0 {
      FollowAdd(links, links[x], m - 1, n);
    }
  }

  /** The two differ at most in where the nodes of s point. */
  ghost predicate Agree(links: map<nat, nat>, links': map<nat, nat>, s: set<nat>) {
    forall x :: x !in s ==> (x in links <==> x in links') && (x in links ==> links'[x] == links[x])
  }

  ghost predicate Avoids(links: map<nat, nat>, x: nat, n: nat, s: set<nat>) {
    forall i: nat :: i < n && Follow(links, x, i).Some? ==> Follow(links, x, i).owner !in s
  }

  /** A walk that has not yet come to s does not notice where s points. */
  lemma {:induction false} FollowSame(links: map<nat, nat>, links': map<nat, nat>, s: set<nat>, x: nat, n: nat)
    requires Agree(links, links', s) && Avoids(links, x, n, s)
    ensures Follow(links', x, n) == Follow(links, x, n)
    decreases n
  {
    if n > 0 {
      assert Follow(links, x, 0) == Some(x);
      if x in links {
        forall i: nat | i < n - 1 && Follow(links, links[x], i).Some? ensures Follow(links, links[x], i).owner !in s {
          assert Follow(links, x, i + 1) == Follow(links, links[x], i);
        }
        FollowSame(links, links', s, links[x], n - 1);
      }
    }
  }

  /** The first time a walk comes to s. */
  lemma {:induction false} FirstOf(links: map<nat, nat>, x: nat, s: set<nat>, n: nat) returns (m: nat)
    requires Follow(links, x, n).Some? && Follow(links, x, n).owner in s
    ensures m <= n && Follow(links, x, m).Some? && Follow(links, x, m).owner in s && Avoids(links, x, m, s)
    decreases n
  {
    if i: nat :| i < n && Follow(links, x, i).Some? && Follow(links, x, i).owner in s {
      m := FirstOf(links, x, s, i);
    } else {
      m := n;
    }
  }

  /** A new link closes a cycle exactly when its end already leads back to its start. */
  lemma NewLink(links: map<nat, nat>, a: nat, b: nat)
    requires Acyclic(links) && a !in links
    ensures Acyclic(links[a := b]) <==> !Reaches(links, b, a)
  {
    var links' := links[a := b];
    if Reaches(links, b, a) {
      var n: nat :| Follow(links, b, n) == Some(a);
      ReachesStill(links, a, b, n);
      var m: nat :| Follow(links', b, m) == Some(a);
      assert Follow(links', a, m + 1) == Some(a);
    } else {
      forall x: nat, n: nat | n > 0 ensures Follow(links', x, n) != Some(x) {
        if Follow(links', x, n) == Some(x) {
          CycleThrough(links, a, b, x, n);
        }
      }
    }
  }

  lemma ReachesStill(links: map<nat, nat>, a: nat, b: nat, n: nat)
    requires Follow(links, b, n) == Some(a) && a !in links
    ensures Reaches(links[a := b], b, a)
  {
    var links' := links[a := b];
    var m := FirstOf(links, b, {a}, n);
    FollowSame(links, links', {a}, b, m);
  }

  /** A cycle in the extended graph passes through the new link. */
  lemma CycleThrough(links: map<nat, nat>, a: nat, b: nat, x: nat, n: nat)
    requires Acyclic(links) && a !in links && n > 0 && Follow(links[a := b], x, n) == Some(x)
    ensures Reaches(links, b, a)
  {
    var links' := links[a := b];
    if i: nat :| i < n && Follow(links', x, i) == Some(a) {
      // from a on to x, and from x on to a again
      FollowAdd(links', x, i, n - i);
      FollowAdd(links', a, n - i, i);
      assert Follow(links', a, n) == Some(a);
      assert Follow(links', b, n - 1) == Some(a);
      var m := FirstOf(links', b, {a}, n - 1);
      FollowSame(links', links, {a}, b, m);
    } else {
      FollowSame(links', links, {a}, x, n);
    }
  }

  /** Taking a link away cannot make a cycle. */
  lemma {:induction false} FollowFewer(links: map<nat, nat>, a: set<nat>, x: nat, n: nat)
    ensures Follow(links - a, x, n).Some? ==> Follow(links, x, n) == Follow(links - a, x, n)
    decreases n
  {
    if n > 0 && x in links - a {
      FollowFewer(links, a, links[x], n - 1);
    }
  }

  lemma FewerLinks(links: map<nat, nat>, a: set<nat>)
    requires Acyclic(links)
    ensures Acyclic(links - a)
  {
    forall x: nat, n: nat | n > 0 ensures Follow(links - a, x, n) != Some(x) {
      FollowFewer(links, a, x, n);
    }
  }

  // ---- Two nodes that exchange what they point to

  ghost function Swapped(links: map<nat, nat>, a: nat, b: nat): map<nat, nat>
    requires a in links && b in links
  {
    links[a := links[b]][b := links[a]]
  }

  /** No cycle comes of it exactly when neither leads to the other. */
  lemma SwapLinks(links: map<nat, nat>, a: nat, b: nat)
    requires Acyclic(links) && a in links && b in links && a != b
    ensures Acyclic(Swapped(links, a, b)) <==> !Reaches(links, a, b) && !Reaches(links, b, a)
  {
    if Reaches(links, b, a) {
      SwapCycle(links, a, b);
    } else if Reaches(links, a, b) {
      SwapCycle(links, b, a);
      assert Swapped(links, a, b) == Swapped(links, b, a);
    } else {
      forall x: nat, n: nat | n > 0 ensures Follow(Swapped(links, a, b), x, n) != Some(x) {
        if Follow(Swapped(links, a, b), x, n) == Some(x) {
          NoSwapCycle(links, a, b, x, n);
        }
      }
    }
  }

  /** b led to a: now a leads to itself. */
  lemma SwapCycle(links: map<nat, nat>, a: nat, b: nat)
    requires Acyclic(links) && a in links && b in links && a != b && Reaches(links, b, a)
    ensures !Acyclic(Swapped(links, a, b))
  {
    var links' := Swapped(links, a, b);
    var n: nat :| Follow(links, b, n) == Some(a);
    assert Follow(links, links[b], n - 1) == Some(a);
    var m := FirstOf(links, links[b], {a, b}, n - 1);
    assert Follow(links, b, m + 1) == Follow(links, links[b], m);
    FollowSame(links, links', {a, b}, links[b], m);
    assert Follow(links', a, m + 1) == Some(a);
  }

  lemma NoSwapCycle(links: map<nat, nat>, a: nat, b: nat, x: nat, n: nat)
    requires Acyclic(links) && a in links && b in links && a != b && n > 0
    requires Follow(Swapped(links, a, b), x, n) == Some(x)
    ensures Reaches(links, a, b) || Reaches(links, b, a)
  {
    var links' := Swapped(links, a, b);
    if i: nat :| i < n && Follow(links', x, i).Some? && Follow(links', x, i).owner in {a, b} {
      var y := Follow(links', x, i).owner;
      FollowAdd(links', x, i, n - i);
      FollowAdd(links', y, n - i, i);
      assert Follow(links', y, n) == Some(y);
      ReturnsTo(links, a, b, y, n);
    } else {
      FollowSame(links', links, {a, b}, x, n);
    }
  }

  lemma ReturnsTo(links: map<nat, nat>, a: nat, b: nat, y: nat, n: nat)
    requires Acyclic(links) && a in links && b in links && a != b && y in {a, b} && n > 0
    requires Follow(Swapped(links, a, b), y, n) == Some(y)
    ensures Reaches(links, a, b) || Reaches(links, b, a)
  {
    var links' := Swapped(links, a, b);
    var z := if y == a then b else a;
    assert links'[y] == links[z];
    assert Follow(links', links[z], n - 1) == Some(y);
    var m := FirstOf(links', links[z], {a, b}, n - 1);
    FollowSame(links', links, {a, b}, links[z], m);
    assert Follow(links, z, m + 1) == Follow(links, links[z], m);
  }
}
