/** Lists linked one way whose nodes also know where the pointer to them is kept: at the head of
    the list or in the node before. A pointer that is null is one that is not in the map. */
module Chains {
  import opened Lists

  datatype Option = None | Some(head: nat)

  /** What a pointer points to, if it is not null. */
  function Look(m: map<nat, nat>, k: nat): Option {
    if k in m then Some(m[k]) else None
  }

  /** A pointer set to what another pointed to. */
  function Store(m: map<nat, nat>, k: nat, r: Option): map<nat, nat> {
    if r.Some? then m[k := r.head] else m - {k}
  }

  datatype Place = Top(list: nat) | InNode(node: nat)

  datatype Hooks = Hooks(first: map<nat, nat>, next: map<nat, nat>, pprev: map<nat, Place>)

  ghost predicate Hooked(h: Hooks, b: nat, s: seq<nat>, i: nat)
    requires i < |s|
  {
    && s[i] in h.pprev && h.pprev[s[i]] == (if i == 0 then Top(b) else InNode(s[i - 1]))
    && (if i + 1 < |s| then s[i] in h.next && h.next[s[i]] == s[i + 1] else s[i] !in h.next)
  }

  ghost predicate Chain(h: Hooks, b: nat, s: seq<nat>) {
    && Distinct(s) && (if s == [] then b !in h.first else b in h.first && h.first[b] == s[0])
    && forall i :: 0 <= i < |s| ==> Hooked(h, b, s, i)
  }

  /** The two differ at most at the nodes in `at` and at list b. */
  ghost predicate SameHooks(h: Hooks, h': Hooks, at: set<nat>, b: nat) {
    && (forall x :: x !in at ==>
          && (x in h.next <==> x in h'.next) && (x in h.next ==> h'.next[x] == h.next[x])
          && (x in h.pprev <==> x in h'.pprev) && (x in h.pprev ==> h'.pprev[x] == h.pprev[x]))
    && (forall c :: c != b ==> (c in h.first <==> c in h'.first) && (c in h.first ==> h'.first[c] == h.first[c]))
  }

  /** A list does not notice changes elsewhere. */
  lemma OtherChain(h: Hooks, h': Hooks, at: set<nat>, b: nat, c: nat, s: seq<nat>)
    requires Chain(h, c, s) && SameHooks(h, h', at, b) && c != b && forall x :: x in s ==> x !in at
    ensures Chain(h', c, s)
  {
    forall i | 0 <= i < |s| ensures Hooked(h', c, s, i) { assert s[i] in s && Hooked(h, c, s, i); }
  }

  function Members(s: seq<nat>): set<nat> {
    set x | x in s
  }

  // ---- Putting a node in front

  function Pushed(h: Hooks, b: nat, x: nat): Hooks {
    if b in h.first
    then Hooks(h.first[b := x], h.next[x := h.first[b]], h.pprev[h.first[b] := InNode(x)][x := Top(b)])
    else Hooks(h.first[b := x], h.next - {x}, h.pprev[x := Top(b)])
  }

  lemma PushChain(h: Hooks, b: nat, s: seq<nat>, x: nat)
    requires Chain(h, b, s) && x !in s
    ensures Chain(Pushed(h, b, x), b, [x] + s) && SameHooks(h, Pushed(h, b, x), Members(s) + {x}, b)
  {
    var h', t := Pushed(h, b, x), [x] + s;
    forall i | 0 <= i < |t| ensures Hooked(h', b, t, i) {
      if i > 0 { assert t[i] == s[i - 1] && t[i] in s && Hooked(h, b, s, i - 1); }
    }
    JoinDistinct([x], s);
  }

  // ---- Taking a node out

  /** Sets the pointer kept at a place. */
  function Set(h: Hooks, p: Place, r: Option): Hooks {
    match p
    case Top(b) => h.(first := Store(h.first, b, r))
    case InNode(y) => h.(next := Store(h.next, y, r))
  }

  /** What comes after is pointed to from where the node was, and knows it; the node's own
      pointers are cleared. */
  function Pulled(h: Hooks, x: nat): Hooks
    requires x in h.pprev
  {
    var p := h.pprev[x];
    var h1 := Hooks(h.first, h.next - {x}, (if x in h.next then h.pprev[h.next[x] := p] else h.pprev) - {x});
    Set(h1, p, Look(h.next, x))
  }

  lemma PullChain(h: Hooks, b: nat, a: seq<nat>, x: nat, c: seq<nat>)
    requires Chain(h, b, a + [x] + c)
    ensures x in h.pprev && Chain(Pulled(h, x), b, a + c) && SameHooks(h, Pulled(h, x), Members(a + [x] + c), b)
  {
    var s, t, n := a + [x] + c, a + c, |a|;
    assert s[n] == x && Hooked(h, b, s, n);
    PullDistinct(a, x, c);
    var h' := Pulled(h, x);
    forall i | 0 <= i < |t| ensures Hooked(h', b, t, i) {
      PullAt(h, b, a, x, c, i);
    }
    if a == [] {
      assert s[0] == x;
      if c != [] { assert s[1] == c[0]; }
    } else {
      assert s[n - 1] == a[n - 1] && s[0] == a[0] && t[0] == a[0];
    }
    PullSame(h, b, a, x, c);
  }

  lemma PullDistinct(a: seq<nat>, x: nat, c: seq<nat>)
    requires Distinct(a + [x] + c)
    ensures Distinct(a + c)
  {
    var s, t := a + [x] + c, a + c;
    forall i, j | 0 <= i < j < |t| ensures t[i] != t[j] {
      var k, m := if i < |a| then i else i + 1, if j < |a| then j else j + 1;
      assert t[i] == s[k] && t[j] == s[m];
    }
  }

  lemma PullSame(h: Hooks, b: nat, a: seq<nat>, x: nat, c: seq<nat>)
    requires Chain(h, b, a + [x] + c) && x in h.pprev
    ensures SameHooks(h, Pulled(h, x), Members(a + [x] + c), b)
  {
    var s, n := a + [x] + c, |a|;
    assert s[n] == x && Hooked(h, b, s, n) && x in s;
    if n > 0 { assert s[n - 1] in s; }
    if c != [] { assert s[n + 1] in s; }
  }

  lemma PullAt(h: Hooks, b: nat, a: seq<nat>, x: nat, c: seq<nat>, i: nat)
    requires Chain(h, b, a + [x] + c) && i < |a + c| && x in h.pprev
    ensures Hooked(Pulled(h, x), b, a + c, i)
  {
    var s, t, n := a + [x] + c, a + c, |a|;
    assert s[n] == x && Hooked(h, b, s, n);
    var j := if i < n then i else i + 1;
    assert t[i] == s[j] && Hooked(h, b, s, j);
    if n > 0 { assert s[n - 1] == a[n - 1]; }
    if c != [] { assert s[n + 1] == c[0]; }
    if i + 1 < |t| { assert t[i + 1] == s[if i + 1 < n then i + 1 else i + 2]; }
    if i > 0 { assert t[i - 1] == s[if i - 1 < n then i - 1 else i]; }
  }

  /** No other node gains a pointer. */
  lemma PullKeys(h: Hooks, b: nat, a: seq<nat>, x: nat, c: seq<nat>)
    requires Chain(h, b, a + [x] + c)
    ensures x in h.pprev && Pulled(h, x).pprev.Keys == h.pprev.Keys - {x} && Pulled(h, x).next.Keys <= h.next.Keys - {x}
  {
    var s, n := a + [x] + c, |a|;
    assert s[n] == x && Hooked(h, b, s, n);
    if n > 0 { assert Hooked(h, b, s, n - 1); }
    if c != [] { assert Hooked(h, b, s, n + 1); }
  }
}
