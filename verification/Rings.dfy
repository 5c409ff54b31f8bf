/** Circular lists linked both ways, as the kernel rewires them: every node has a next and a prev
    pointer, and a pointer that is null is one that is not in the map. */
module Rings {
  import opened Lists

  datatype Wires = Wires(next: map<nat, nat>, prev: map<nat, nat>)

  function Succ(s: seq<nat>, i: nat): nat
    requires i < |s|
  {
    if i + 1 < |s| then s[i + 1] else s[0]
  }

  function Pred(s: seq<nat>, i: nat): nat
    requires i < |s|
  {
    if i > 0 then s[i - 1] else s[|s| - 1]
  }

  ghost predicate Wired(w: Wires, x: nat, prev: nat, next: nat) {
    x in w.next && w.next[x] == next && x in w.prev && w.prev[x] == prev
  }

  /** Starting anywhere and following next pointers goes through the list and round again; prev
      pointers lead back. */
  ghost predicate Ring(w: Wires, s: seq<nat>) {
    Distinct(s) && forall i :: 0 <= i < |s| ==> Wired(w, s[i], Pred(s, i), Succ(s, i))
  }

  lemma RingDistinct(w: Wires, s: seq<nat>)
    requires Ring(w, s)
    ensures Distinct(s)
  {
  }

  lemma RotateAt(a: seq<nat>, b: seq<nat>, i: nat) returns (j: nat)
    requires i < |a| + |b|
    ensures j < |a| + |b| && (j == if i < |b| then |a| + i else i - |b|) && (b + a)[i] == (a + b)[j]
    ensures Pred(b + a, i) == Pred(a + b, j) && Succ(b + a, i) == Succ(a + b, j)
  {
    j := if i < |b| then |a| + i else i - |b|;
  }

  lemma RotateDistinct(a: seq<nat>, b: seq<nat>)
    requires Distinct(a + b)
    ensures Distinct(b + a)
  {
    forall i, j | 0 <= i < j < |b + a| ensures (b + a)[i] != (b + a)[j] {
      var k := RotateAt(a, b, i);
      var m := RotateAt(a, b, j);
    }
  }

  /** It does not matter which one comes first. */
  lemma Rotate(w: Wires, a: seq<nat>, b: seq<nat>)
    requires Ring(w, a + b)
    ensures Ring(w, b + a)
  {
    hide Pred, Succ, Wired, Distinct;
    RotateDistinct(a, b);
    forall i | 0 <= i < |b + a| ensures Wired(w, (b + a)[i], Pred(b + a, i), Succ(b + a, i)) {
      var j := RotateAt(a, b, i);
      assert Wired(w, (a + b)[j], Pred(a + b, j), Succ(a + b, j));
    }
  }

  /** The two differ at most at the nodes in `at`. */
  ghost predicate Same(w: Wires, w': Wires, at: set<nat>) {
    forall x :: x !in at ==>
      && (x in w.next <==> x in w'.next) && (x in w.next ==> w'.next[x] == w.next[x])
      && (x in w.prev <==> x in w'.prev) && (x in w.prev ==> w'.prev[x] == w.prev[x])
  }

  /** A ring does not notice changes elsewhere. */
  lemma Elsewhere(w: Wires, w': Wires, at: set<nat>, s: seq<nat>)
    requires Ring(w, s) && Same(w, w', at) && forall x :: x in s ==> x !in at
    ensures Ring(w', s)
  {
    forall i | 0 <= i < |s| ensures Wired(w', s[i], Pred(s, i), Succ(s, i)) {
      assert s[i] in s && Wired(w, s[i], Pred(s, i), Succ(s, i));
    }
  }

  function Nodes(s: seq<nat>): set<nat> {
    set x | x in s
  }

  // ---- Taking a node out

  /** Its neighbours are wired to each other, and its own pointers cleared. */
  function Unlinked(w: Wires, x: nat): Wires
    requires x in w.next && x in w.prev
  {
    Wires(w.next[w.prev[x] := w.next[x]] - {x}, w.prev[w.next[x] := w.prev[x]] - {x})
  }

  lemma UnlinkFirst(w: Wires, x: nat, u: seq<nat>)
    requires Ring(w, [x] + u)
    ensures x in w.next && x in w.prev && Ring(Unlinked(w, x), u) && Same(w, Unlinked(w, x), Nodes([x] + u))
  {
    hide Ring, Unlinked, Distinct;
    var s := [x] + u;
    assert Wired(w, s[0], Pred(s, 0), Succ(s, 0)) by { WiredAt(w, s, 0); }
    RingDistinct(w, s);
    DropFirst(x, u);
    var w' := Unlinked(w, x);
    forall i | 0 <= i < |u| ensures Wired(w', u[i], Pred(u, i), Succ(u, i)) { UnlinkAt(w, x, u, i); }
    assert Ring(w', u) by { IsRing(w', u); }
    assert w.prev[x] in s && w.next[x] in s;
    UnlinkSame(w, x, Nodes(s));
  }

  lemma WiredAt(w: Wires, s: seq<nat>, i: nat)
    requires Ring(w, s) && i < |s|
    ensures Wired(w, s[i], Pred(s, i), Succ(s, i))
  {
  }

  lemma IsRing(w: Wires, s: seq<nat>)
    requires Distinct(s) && forall i :: 0 <= i < |s| ==> Wired(w, s[i], Pred(s, i), Succ(s, i))
    ensures Ring(w, s)
  {
  }

  lemma DropFirst(x: nat, u: seq<nat>)
    requires Distinct([x] + u)
    ensures Distinct(u) && x !in u
  {
    var s := [x] + u;
    forall i, j | 0 <= i < j < |u| ensures u[i] != u[j] { assert u[i] == s[i + 1] && u[j] == s[j + 1]; }
    forall i | 0 <= i < |u| ensures u[i] != x { assert s[0] != s[i + 1]; }
  }

  lemma UnlinkSame(w: Wires, x: nat, at: set<nat>)
    requires x in w.next && x in w.prev && x in at && w.prev[x] in at && w.next[x] in at
    ensures Same(w, Unlinked(w, x), at)
  {
  }

  lemma Differ(s: seq<nat>, i: nat, j: nat)
    requires Distinct(s) && i < j < |s|
    ensures s[i] != s[j]
  {
  }

  lemma UnlinkAt(w: Wires, x: nat, u: seq<nat>, i: nat)
    requires Ring(w, [x] + u) && x in w.next && x in w.prev && i < |u|
    ensures Wired(Unlinked(w, x), u[i], Pred(u, i), Succ(u, i))
  {
    hide Ring, Distinct;
    var s, n := [x] + u, |u|;
    WiredAt(w, s, 0);
    WiredAt(w, s, i + 1);
    RingDistinct(w, s);
    assert u[i] == s[i + 1] && u[0] == s[1] && u[n - 1] == s[n];
    assert Succ(s, 0) == u[0] && Pred(s, 0) == u[n - 1];
    Differ(s, 0, i + 1);
    if i + 1 < n {
      Differ(s, i + 1, n);
      assert Succ(u, i) == Succ(s, i + 1);
    }
    if i > 0 {
      Differ(s, 1, i + 1);
      assert Pred(u, i) == Pred(s, i + 1);
    }
  }

  /** What is left is a ring in the same order, and no other ring notices. */
  lemma UnlinkRing(w: Wires, s: seq<nat>, x: nat)
    requires Ring(w, s) && x in s
    ensures x in w.next && x in w.prev && Ring(Unlinked(w, x), Remove(s, x)) && Same(w, Unlinked(w, x), Nodes(s))
  {
    hide Wired, Pred, Succ, Remove, Unlinked, Same;
    var a, b := Cut(s, x);
    assert a + [x] + b == a + ([x] + b) && Nodes([x] + (b + a)) == Nodes(s);
    Rotate(w, a, [x] + b);
    assert [x] + b + a == [x] + (b + a);
    UnlinkFirst(w, x, b + a);
    Rotate(Unlinked(w, x), b, a);
  }

  /** No other node gains or loses a pointer. */
  lemma UnlinkKeys(w: Wires, s: seq<nat>, x: nat)
    requires Ring(w, s) && x in s
    ensures x in w.next && x in w.prev
    ensures Unlinked(w, x).next.Keys == w.next.Keys - {x} && Unlinked(w, x).prev.Keys == w.prev.Keys - {x}
  {
    var i := IndexOf(s, x);
    assert Wired(w, s[i], Pred(s, i), Succ(s, i));
    var p, n := if i > 0 then i - 1 else |s| - 1, if i + 1 < |s| then i + 1 else 0;
    assert Wired(w, s[p], Pred(s, p), Succ(s, p)) && Wired(w, s[n], Pred(s, n), Succ(s, n));
  }

  /** Where the first of the list moves on to. */
  lemma FirstMoves(w: Wires, s: seq<nat>, x: nat)
    requires Ring(w, s) && x in s
    ensures s[0] == x ==>
      && x in w.next
      && (if |s| == 1 then w.next[x] == x && Remove(s, x) == [] else Remove(s, x) != [] && w.next[x] == Remove(s, x)[0])
    ensures s[0] != x ==> Remove(s, x) != [] && Remove(s, x)[0] == s[0]
  {
    assert Wired(w, s[0], Pred(s, 0), Succ(s, 0));
  }

  // ---- Putting a node in

  /** Between y and what comes after it. */
  function LinkedAfter(w: Wires, y: nat, x: nat): Wires
    requires y in w.next
  {
    var n := w.next[y];
    Wires(w.next[x := n][y := x], w.prev[x := y][n := x])
  }

  lemma LinkAfterFirst(w: Wires, y: nat, u: seq<nat>, x: nat)
    requires Ring(w, [y] + u) && x !in [y] + u
    ensures y in w.next && Ring(LinkedAfter(w, y, x), [y, x] + u)
    ensures Same(w, LinkedAfter(w, y, x), Nodes([y] + u) + {x})
  {
    hide Ring, LinkedAfter, Distinct;
    var s, t := [y] + u, [y, x] + u;
    assert Wired(w, s[0], Pred(s, 0), Succ(s, 0)) by { WiredAt(w, s, 0); }
    RingDistinct(w, s);
    InsertSecond(y, x, u);
    var w' := LinkedAfter(w, y, x);
    forall i | 0 <= i < |t| ensures Wired(w', t[i], Pred(t, i), Succ(t, i)) { LinkAt(w, y, u, x, i); }
    assert Ring(w', t) by { IsRing(w', t); }
    assert w.next[y] in s;
    LinkSame(w, y, x, Nodes(s) + {x});
  }

  lemma InsertSecond(y: nat, x: nat, u: seq<nat>)
    requires Distinct([y] + u) && x !in [y] + u
    ensures Distinct([y, x] + u)
  {
    var s := [y] + u;
    DropFirst(y, u);
    assert s[0] == y && forall i :: 0 <= i < |u| ==> s[i + 1] == u[i];
    JoinDistinct([y, x], u);
  }

  lemma LinkSame(w: Wires, y: nat, x: nat, at: set<nat>)
    requires y in w.next && x in at && y in at && w.next[y] in at
    ensures Same(w, LinkedAfter(w, y, x), at)
  {
  }

  lemma LinkAt(w: Wires, y: nat, u: seq<nat>, x: nat, i: nat)
    requires Ring(w, [y] + u) && x !in [y] + u && y in w.next && i < |u| + 2
    ensures var t := [y, x] + u; Wired(LinkedAfter(w, y, x), t[i], Pred(t, i), Succ(t, i))
  {
    hide Ring, Distinct;
    var s, t := [y] + u, [y, x] + u;
    WiredAt(w, s, 0);
    RingDistinct(w, s);
    assert s[0] == y && y in s && y != x && t[0] == y && t[1] == x;
    assert w.next[y] == Succ(s, 0) == if u == [] then y else u[0];
    if i >= 2 {
      LinkFurther(w, y, u, x, i);
    } else if u == [] {
      assert |t| == 2;
    } else {
      assert t[2] == u[0] == s[1] && s[1] in s;
      Differ(s, 0, 1);
      assert t[|t| - 1] == s[|s| - 1];
    }
  }

  lemma LinkFurther(w: Wires, y: nat, u: seq<nat>, x: nat, i: nat)
    requires Ring(w, [y] + u) && x !in [y] + u && y in w.next && 2 <= i < |u| + 2
    ensures var t := [y, x] + u; Wired(LinkedAfter(w, y, x), t[i], Pred(t, i), Succ(t, i))
  {
    hide Ring, Distinct;
    var s, t := [y] + u, [y, x] + u;
    WiredAt(w, s, 0);
    WiredAt(w, s, i - 1);
    RingDistinct(w, s);
    assert t[i] == s[i - 1] && s[i - 1] in s && w.next[y] == s[1] == u[0] == t[2];
    Differ(s, 0, i - 1);
    assert Succ(t, i) == Succ(s, i - 1);
    if i > 2 {
      Differ(s, 1, i - 1);
      assert Pred(t, i) == Pred(s, i - 1);
    }
  }

  /** Anywhere in the list. */
  lemma LinkAfterRing(w: Wires, a: seq<nat>, y: nat, b: seq<nat>, x: nat)
    requires Ring(w, a + [y] + b) && x !in a + [y] + b
    ensures y in w.next && Ring(LinkedAfter(w, y, x), a + [y, x] + b)
    ensures Same(w, LinkedAfter(w, y, x), Nodes(a + [y] + b) + {x})
  {
    hide Wired, Pred, Succ, LinkedAfter, Same;
    assert a + [y] + b == a + ([y] + b) && [y] + b + a == [y] + (b + a);
    Rotate(w, a, [y] + b);
    LinkAfterFirst(w, y, b + a, x);
    assert [y, x] + (b + a) == [y, x] + b + a && a + ([y, x] + b) == a + [y, x] + b;
    Rotate(LinkedAfter(w, y, x), [y, x] + b, a);
    assert Nodes([y] + (b + a)) == Nodes(a + [y] + b);
  }

  lemma LastBeforeFirst(w: Wires, s: seq<nat>)
    requires Ring(w, s) && s != []
    ensures s[0] in w.prev && w.prev[s[0]] == s[|s| - 1] && s[|s| - 1] in w.next && w.next[s[|s| - 1]] == s[0]
  {
    var n := |s| - 1;
    assert Wired(w, s[0], Pred(s, 0), Succ(s, 0)) && Wired(w, s[n], Pred(s, n), Succ(s, n));
  }

  /** A node linked before the first comes last. */
  lemma LinkLastRing(w: Wires, s: seq<nat>, x: nat)
    requires Ring(w, s) && s != [] && x !in s
    ensures var y := s[|s| - 1];
      && y in w.next && Ring(LinkedAfter(w, y, x), s + [x]) && Same(w, LinkedAfter(w, y, x), Nodes(s) + {x})
  {
    hide Wired, Pred, Succ, LinkedAfter, Same;
    var a, y := s[..|s| - 1], s[|s| - 1];
    assert s == a + [y];
    Rotate(w, a, [y]);
    LinkAfterFirst(w, y, a, x);
    Rotate(LinkedAfter(w, y, x), [y, x], a);
    assert a + [y, x] == s + [x];
    assert Nodes([y] + a) == Nodes(s);
  }

  lemma LinkKeys(w: Wires, s: seq<nat>, y: nat, x: nat)
    requires Ring(w, s) && y in s
    ensures y in w.next && LinkedAfter(w, y, x).next.Keys == w.next.Keys + {x}
    ensures LinkedAfter(w, y, x).prev.Keys == w.prev.Keys + {x}
  {
    var i := IndexOf(s, y);
    var n := if i + 1 < |s| then i + 1 else 0;
    assert Wired(w, s[i], Pred(s, i), Succ(s, i)) && Wired(w, s[n], Pred(s, n), Succ(s, n));
  }

  /** A node alone. */
  lemma LinkAlone(w: Wires, x: nat)
    ensures Ring(Wires(w.next[x := x], w.prev[x := x]), [x]) && Same(w, Wires(w.next[x := x], w.prev[x := x]), {x})
  {
  }
}
