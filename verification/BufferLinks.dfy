/** The pointers of the buffer cache: b_next_free and b_prev_free wire every list of used or free
    buffers into a ring, b_next and b_pprev the hash chains. */
module BufferLinks {
  import opened Lists
  import opened Rings
  import opened Chains
  import opened BufferState

  /** The pointers in the buffer heads and those to the first of each list. */
  datatype Wiring = Wiring(rings: Wires, lruFirst: map<nat, nat>, freeFirst: map<nat, nat>, hooks: Hooks)

  ghost predicate RingAt(w: Wires, first: map<nat, nat>, k: nat, s: seq<nat>) {
    Ring(w, s) && if s == [] then k !in first else k in first && first[k] == s[0]
  }

  ghost predicate AllRings(w: Wires, first: map<nat, nat>, q: Queues) {
    forall k :: RingAt(w, first, k, At(q, k))
  }

  ghost predicate AllChains(h: Hooks, q: Queues) {
    forall b :: Chain(h, b, At(q, b))
  }

  /** Nothing is on two of the lists. */
  ghost predicate Separate(q: Queues) {
    forall k, m, x :: x in At(q, k) && x in At(q, m) ==> k == m
  }

  ghost predicate Apart(q: Queues, r: Queues) {
    forall k, m, x :: x in At(q, k) ==> x !in At(r, m)
  }

  /** A buffer that is on no list has no pointers. */
  ghost predicate Clean(w: Wiring, s: Cache, out: set<nat>) {
    && (forall x :: x in w.rings.next || x in w.rings.prev ==> Placed(s, out, x))
    && (forall x :: x in w.hooks.pprev ==> Placed(s, out, x) && Hashable(s.heads[x]))
    && (forall x :: x in w.hooks.next ==> x in w.hooks.pprev)
  }

  /** The pointers say what the lists are. */
  ghost predicate Linked(w: Wiring, s: Cache, out: set<nat>) {
    AllRings(w.rings, w.lruFirst, s.lru) && AllRings(w.rings, w.freeFirst, s.free) && AllChains(w.hooks, s.chains)
      && Clean(w, s, out)
  }

  lemma ListsApart(s: Cache, out: set<nat>, hash: (nat, int) -> nat)
    requires Inv(s, out, hash)
    ensures Separate(s.lru) && Separate(s.free) && Separate(s.chains) && Apart(s.lru, s.free)
  {
    forall k, m, x | x in At(s.lru, k) && x in At(s.lru, m) ensures k == m {
      assert OnLru(s, out, k, x) && OnLru(s, out, m, x);
    }
    forall k, m, x | x in At(s.free, k) && x in At(s.free, m) ensures k == m {
      assert OnFree(s, out, k, x) && OnFree(s, out, m, x);
    }
    forall k, m, x | x in At(s.chains, k) && x in At(s.chains, m) ensures k == m {
      assert OnChain(s, out, hash, k, x) && OnChain(s, out, hash, m, x);
    }
    forall k, m, x | x in At(s.lru, k) ensures x !in At(s.free, m) {
      assert OnLru(s, out, k, x) && (x in At(s.free, m) <==> OnFree(s, out, m, x));
    }
  }

  // ---- One list out of many

  /** The first of the list, when x leaves it: what came after x, if that was the first. */
  function FirstLeft(first: map<nat, nat>, k: nat, x: nat, n: nat): map<nat, nat> {
    if k in first && first[k] == x then (if n == x then first - {k} else first[k := n]) else first
  }

  lemma LeftRing(w: Wires, first: map<nat, nat>, k: nat, s: seq<nat>, x: nat)
    requires RingAt(w, first, k, s) && x in s
    ensures x in w.next && x in w.prev && Same(w, Unlinked(w, x), Nodes(s))
    ensures RingAt(Unlinked(w, x), FirstLeft(first, k, x, w.next[x]), k, Remove(s, x))
  {
    hide Ring, Unlinked, Same, Remove;
    UnlinkRing(w, s, x);
    FirstMoves(w, s, x);
    assert |s| > 1 && s[0] == x ==> w.next[x] != x by { assert Distinct(s) by { RingDistinct(w, s); } RemoveIs(s, x); }
  }

  lemma RingsLeft(w: Wires, first: map<nat, nat>, q: Queues, k: nat, x: nat)
    requires AllRings(w, first, q) && Separate(q) && x in At(q, k)
    ensures x in w.next && x in w.prev && Same(w, Unlinked(w, x), Nodes(At(q, k)))
    ensures AllRings(Unlinked(w, x), FirstLeft(first, k, x, w.next[x]), Dropped(q, k, x))
  {
    var s := At(q, k);
    assert RingAt(w, first, k, s);
    LeftRing(w, first, k, s, x);
    var w', first', q' := Unlinked(w, x), FirstLeft(first, k, x, w.next[x]), Dropped(q, k, x);
    hide Ring, Unlinked, Same, Remove;
    forall m ensures RingAt(w', first', m, At(q', m)) {
      if m != k {
        assert RingAt(w, first, m, At(q, m));
        Elsewhere(w, w', Nodes(s), At(q, m));
      }
    }
  }

  lemma RingsKept(w: Wires, w': Wires, at: set<nat>, first: map<nat, nat>, q: Queues)
    requires AllRings(w, first, q) && Same(w, w', at) && forall k, x :: x in At(q, k) ==> x !in at
    ensures AllRings(w', first, q)
  {
    hide Ring, Same;
    forall k ensures RingAt(w', first, k, At(q, k)) {
      assert RingAt(w, first, k, At(q, k));
      Elsewhere(w, w', at, At(q, k));
    }
  }

  /** Wired in before the first of the list, or alone. */
  ghost function Last(w: Wires, first: map<nat, nat>, k: nat, x: nat): Wires
    requires k in first ==> HasLast(w, first[k])
  {
    if k in first then LinkedAfter(w, w.prev[first[k]], x) else Wires(w.next[x := x], w.prev[x := x])
  }

  function FirstOf(first: map<nat, nat>, k: nat, x: nat): map<nat, nat> {
    if k in first then first else first[k := x]
  }

  lemma LastRing(w: Wires, first: map<nat, nat>, k: nat, s: seq<nat>, x: nat)
    requires RingAt(w, first, k, s) && x !in s
    ensures k in first ==> HasLast(w, first[k])
    ensures RingAt(Last(w, first, k, x), FirstOf(first, k, x), k, s + [x])
    ensures Same(w, Last(w, first, k, x), Nodes(s) + {x})
  {
    hide Ring, Same, LinkedAfter;
    if s == [] {
      LinkAlone(w, x);
      assert s + [x] == [x] && Nodes(s) + {x} == {x};
    } else {
      LastBeforeFirst(w, s);
      LinkLastRing(w, s, x);
    }
  }

  lemma RingsJoined(w: Wires, first: map<nat, nat>, q: Queues, k: nat, x: nat)
    requires AllRings(w, first, q) && Separate(q) && forall m :: x !in At(q, m)
    ensures k in first ==> HasLast(w, first[k])
    ensures Same(w, Last(w, first, k, x), Nodes(At(q, k)) + {x})
    ensures AllRings(Last(w, first, k, x), FirstOf(first, k, x), q[k := At(q, k) + [x]])
  {
    var s := At(q, k);
    assert RingAt(w, first, k, s) && x !in At(q, k);
    LastRing(w, first, k, s, x);
    var w', first', q' := Last(w, first, k, x), FirstOf(first, k, x), q[k := s + [x]];
    hide Ring, Last, Same;
    forall m ensures RingAt(w', first', m, At(q', m)) {
      if m != k {
        assert RingAt(w, first, m, At(q, m)) && x !in At(q, m);
        Elsewhere(w, w', Nodes(s) + {x}, At(q, m));
      }
    }
  }

  lemma ChainsLeft(h: Hooks, q: Queues, b: nat, x: nat)
    requires AllChains(h, q) && Separate(q) && x in At(q, b)
    ensures x in h.pprev && AllChains(Pulled(h, x), Dropped(q, b, x))
    ensures SameHooks(h, Pulled(h, x), Members(At(q, b)), b)
  {
    var s := At(q, b);
    assert Chain(h, b, s);
    var a, c := Cut(s, x);
    PullChain(h, b, a, x, c);
    hide Chain, Pulled, SameHooks, Remove;
    var h', q' := Pulled(h, x), Dropped(q, b, x);
    forall m ensures Chain(h', m, At(q', m)) {
      if m != b {
        assert Chain(h, m, At(q, m));
        OtherChain(h, h', Members(s), b, m, At(q, m));
      }
    }
  }

  lemma ChainsJoined(h: Hooks, q: Queues, b: nat, x: nat)
    requires AllChains(h, q) && Separate(q) && forall m :: x !in At(q, m)
    ensures AllChains(Pushed(h, b, x), q[b := [x] + At(q, b)])
    ensures SameHooks(h, Pushed(h, b, x), Members(At(q, b)) + {x}, b)
  {
    var s := At(q, b);
    assert Chain(h, b, s) && x !in At(q, b);
    PushChain(h, b, s, x);
    hide Chain, Pushed, SameHooks;
    var h', q' := Pushed(h, b, x), q[b := [x] + s];
    forall m ensures Chain(h', m, At(q', m)) {
      if m != b {
        assert Chain(h, m, At(q, m)) && x !in At(q, m);
        OtherChain(h, h', Members(s) + {x}, b, m, At(q, m));
      }
    }
  }

  // ---- remove_from_queues

  function HooksLeft(h: Hooks, x: nat): Hooks {
    if x in h.pprev then Pulled(h, x) else h
  }

  function WiringLeft(w: Wiring, h: Head, x: nat): Wiring
    requires x in w.rings.next && x in w.rings.prev
  {
    var n := w.rings.next[x];
    if h.dev == B_FREE then w.(rings := Unlinked(w.rings, x), freeFirst := FirstLeft(w.freeFirst, h.size, x, n))
    else w.(rings := Unlinked(w.rings, x), lruFirst := FirstLeft(w.lruFirst, h.list, x, n),
      hooks := HooksLeft(w.hooks, x))
  }

  /** Leaving the hash chain. */
  lemma HooksLeftIs(w: Wiring, s: Cache, out: set<nat>, hash: (nat, int) -> nat, x: nat)
    requires Inv(s, out, hash) && Linked(w, s, out) && Placed(s, out, x)
    ensures var h := s.heads[x];
      AllChains(HooksLeft(w.hooks, x), if Hashable(h) then Dropped(s.chains, hash(h.dev, h.block), x) else s.chains)
    ensures HooksLeft(w.hooks, x).pprev.Keys == w.hooks.pprev.Keys - {x}
    ensures HooksLeft(w.hooks, x).next.Keys <= w.hooks.next.Keys - {x}
  {
    hide Chain, Pulled, LruOk, FreeOk, OnceEach, PagesOk, AllRings;
    var h := s.heads[x];
    if Hashable(h) {
      var b := hash(h.dev, h.block);
      assert OnChain(s, out, hash, b, x);
      ListsApart(s, out, hash);
      ChainsLeft(w.hooks, s.chains, b, x);
      assert Chain(w.hooks, b, At(s.chains, b));
      var a, c := Cut(At(s.chains, b), x);
      PullKeys(w.hooks, b, a, x, c);
    }
  }

  lemma OnItsRing(s: Cache, out: set<nat>, hash: (nat, int) -> nat, x: nat)
    requires Inv(s, out, hash) && Placed(s, out, x)
    ensures s.heads[x].dev == B_FREE ==> x in At(s.free, s.heads[x].size)
    ensures s.heads[x].dev != B_FREE ==> x in At(s.lru, s.heads[x].list)
  {
    if s.heads[x].dev == B_FREE {
      assert OnFree(s, out, s.heads[x].size, x);
    } else {
      assert OnLru(s, out, s.heads[x].list, x);
    }
  }

  lemma RingsRemoved(w: Wiring, s: Cache, out: set<nat>, hash: (nat, int) -> nat, x: nat)
    requires Inv(s, out, hash) && Linked(w, s, out) && Placed(s, out, x)
    ensures x in w.rings.next && x in w.rings.prev
    ensures var w', s' := WiringLeft(w, s.heads[x], x), Removed(s, hash, x);
      AllRings(w'.rings, w'.lruFirst, s'.lru) && AllRings(w'.rings, w'.freeFirst, s'.free)
    ensures var w' := WiringLeft(w, s.heads[x], x);
      w'.rings.next.Keys == w.rings.next.Keys - {x} && w'.rings.prev.Keys == w.rings.prev.Keys - {x}
  {
    hide Ring, Unlinked, Same, LruOk, FreeOk, ChainsOk, OnceEach, PagesOk, Clean, AllChains;
    OnItsRing(s, out, hash, x);
    ListsApart(s, out, hash);
    var h := s.heads[x];
    if h.dev == B_FREE {
      RingsLeft(w.rings, w.freeFirst, s.free, h.size, x);
      RingsKept(w.rings, Unlinked(w.rings, x), Nodes(At(s.free, h.size)), w.lruFirst, s.lru);
      assert RingAt(w.rings, w.freeFirst, h.size, At(s.free, h.size));
      UnlinkKeys(w.rings, At(s.free, h.size), x);
    } else {
      RingsLeft(w.rings, w.lruFirst, s.lru, h.list, x);
      RingsKept(w.rings, Unlinked(w.rings, x), Nodes(At(s.lru, h.list)), w.freeFirst, s.free);
      assert RingAt(w.rings, w.lruFirst, h.list, At(s.lru, h.list));
      UnlinkKeys(w.rings, At(s.lru, h.list), x);
    }
  }

  lemma CleanLeft(w: Wiring, w': Wiring, s: Cache, s': Cache, out: set<nat>, x: nat)
    requires Clean(w, s, out) && s'.heads == s.heads
    requires w'.rings.next.Keys == w.rings.next.Keys - {x} && w'.rings.prev.Keys == w.rings.prev.Keys - {x}
    requires w'.hooks.pprev.Keys == w.hooks.pprev.Keys - {x} && w'.hooks.next.Keys <= w.hooks.next.Keys - {x}
    ensures Clean(w', s', out + {x})
  {
    forall y | y in w'.rings.next || y in w'.rings.prev ensures Placed(s', out + {x}, y) {
      assert y in w.rings.next || y in w.rings.prev;
      assert Placed(s, out, y);
    }
    forall y | y in w'.hooks.pprev ensures Placed(s', out + {x}, y) && Hashable(s'.heads[y]) {
      assert y in w.hooks.pprev;
      assert Placed(s, out, y);
    }
    forall y | y in w'.hooks.next ensures y in w'.hooks.pprev { assert y in w.hooks.next; }
  }

  /** The pointers after remove_from_queues say what the lists are then. */
  lemma RemovedLinked(w: Wiring, s: Cache, out: set<nat>, hash: (nat, int) -> nat, x: nat)
    requires Inv(s, out, hash) && Linked(w, s, out) && Placed(s, out, x)
    ensures x in w.rings.next && x in w.rings.prev
    ensures Linked(WiringLeft(w, s.heads[x], x), Removed(s, hash, x), out + {x})
  {
    hide AllRings, AllChains, Inv, Unlinked, HooksLeft, Clean, Dropped, FirstLeft;
    RingsRemoved(w, s, out, hash, x);
    HooksLeftIs(w, s, out, hash, x);
    var w' := WiringLeft(w, s.heads[x], x);
    if s.heads[x].dev == B_FREE {
      assert x !in w.hooks.pprev && x !in w.hooks.next by { NotHooked(w, s, out, x); }
    }
    CleanLeft(w, w', s, Removed(s, hash, x), out, x);
  }

  lemma NotHooked(w: Wiring, s: Cache, out: set<nat>, x: nat)
    requires Clean(w, s, out) && (Placed(s, out, x) ==> !Hashable(s.heads[x]))
    ensures x !in w.hooks.pprev && x !in w.hooks.next
  {
  }

  // ---- insert_into_queues

  function HooksJoined(h: Hooks, b: nat, hashed: bool, x: nat): Hooks {
    var h1 := Hooks(h.first, h.next - {x}, h.pprev - {x});
    if hashed then Pushed(h1, b, x) else h1
  }

  ghost predicate Ready(w: Wiring, h: Head) {
    if h.dev == B_FREE then h.size in w.freeFirst ==> HasLast(w.rings, w.freeFirst[h.size])
    else h.list in w.lruFirst ==> HasLast(w.rings, w.lruFirst[h.list])
  }

  ghost predicate HasLast(w: Wires, y: nat) {
    y in w.prev && w.prev[y] in w.next && w.next[w.prev[y]] == y
  }

  ghost function WiringJoined(w: Wiring, hash: (nat, int) -> nat, h: Head, x: nat): Wiring
    requires Ready(w, h)
  {
    if h.dev == B_FREE
      then w.(rings := Last(w.rings, w.freeFirst, h.size, x), freeFirst := FirstOf(w.freeFirst, h.size, x))
    else
      w.(rings := Last(w.rings, w.lruFirst, h.list, x), lruFirst := FirstOf(w.lruFirst, h.list, x),
         hooks := HooksJoined(w.hooks, hash(h.dev, h.block), h.dev != NODEV, x))
  }

  lemma OnNoList(s: Cache, out: set<nat>, hash: (nat, int) -> nat, x: nat)
    requires Inv(s, out, hash) && x in out
    ensures forall k :: x !in At(s.lru, k) && x !in At(s.free, k) && x !in At(s.chains, k)
  {
    forall k ensures x !in At(s.lru, k) && x !in At(s.free, k) && x !in At(s.chains, k) {
      assert !OnLru(s, out, k, x) && !OnFree(s, out, k, x) && !OnChain(s, out, hash, k, x);
    }
  }

  lemma LastKeys(w: Wires, first: map<nat, nat>, k: nat, s: seq<nat>, x: nat)
    requires RingAt(w, first, k, s)
    ensures k in first ==> HasLast(w, first[k])
    ensures Last(w, first, k, x).next.Keys == w.next.Keys + {x} && Last(w, first, k, x).prev.Keys == w.prev.Keys + {x}
  {
    if s != [] {
      LastBeforeFirst(w, s);
      LinkKeys(w, s, s[|s| - 1], x);
    }
  }

  lemma RingsInserted(w: Wiring, s: Cache, out: set<nat>, hash: (nat, int) -> nat, x: nat)
    requires Inv(s, out, hash) && Linked(w, s, out) && x in out
    ensures Ready(w, s.heads[x])
    ensures var w', s' := WiringJoined(w, hash, s.heads[x], x), Inserted(s, hash, x);
      AllRings(w'.rings, w'.lruFirst, s'.lru) && AllRings(w'.rings, w'.freeFirst, s'.free)
    ensures var w' := WiringJoined(w, hash, s.heads[x], x);
      w'.rings.next.Keys == w.rings.next.Keys + {x} && w'.rings.prev.Keys == w.rings.prev.Keys + {x}
  {
    hide Ring, Last, Same, LruOk, FreeOk, ChainsOk, OnceEach, PagesOk, Clean, AllChains, HooksJoined;
    OnNoList(s, out, hash, x);
    ListsApart(s, out, hash);
    var h := s.heads[x];
    if h.dev == B_FREE {
      RingsJoined(w.rings, w.freeFirst, s.free, h.size, x);
      assert RingAt(w.rings, w.freeFirst, h.size, At(s.free, h.size));
      LastKeys(w.rings, w.freeFirst, h.size, At(s.free, h.size), x);
      RingsKept(w.rings, Last(w.rings, w.freeFirst, h.size, x), Nodes(At(s.free, h.size)) + {x}, w.lruFirst, s.lru);
    } else {
      RingsJoined(w.rings, w.lruFirst, s.lru, h.list, x);
      assert RingAt(w.rings, w.lruFirst, h.list, At(s.lru, h.list));
      LastKeys(w.rings, w.lruFirst, h.list, At(s.lru, h.list), x);
      RingsKept(w.rings, Last(w.rings, w.lruFirst, h.list, x), Nodes(At(s.lru, h.list)) + {x}, w.freeFirst, s.free);
    }
  }

  lemma HooksInserted(w: Wiring, s: Cache, out: set<nat>, hash: (nat, int) -> nat, x: nat)
    requires Inv(s, out, hash) && Linked(w, s, out) && x in out && s.heads[x].dev != B_FREE
    ensures var h := s.heads[x]; var hooks := HooksJoined(w.hooks, hash(h.dev, h.block), h.dev != NODEV, x);
      && AllChains(hooks, Inserted(s, hash, x).chains)
      && (forall y :: y in hooks.pprev ==> y in w.hooks.pprev || (y == x && Hashable(h)))
      && (forall y :: y in hooks.next ==> y in hooks.pprev)
  {
    hide LruOk, FreeOk, OnceEach, PagesOk, AllRings;
    var h, b := s.heads[x], hash(s.heads[x].dev, s.heads[x].block);
    assert x !in w.hooks.pprev && x !in w.hooks.next;
    assert w.hooks.next - {x} == w.hooks.next && w.hooks.pprev - {x} == w.hooks.pprev;
    assert Hooks(w.hooks.first, w.hooks.next - {x}, w.hooks.pprev - {x}) == w.hooks;
    if h.dev != NODEV {
      OnNoList(s, out, hash, x);
      ListsApart(s, out, hash);
      ChainsJoined(w.hooks, s.chains, b, x);
      assert Chain(w.hooks, b, At(s.chains, b));
      FirstHooked(w.hooks, b, At(s.chains, b));
    }
  }

  lemma FirstHooked(h: Hooks, b: nat, s: seq<nat>)
    requires Chain(h, b, s)
    ensures b in h.first ==> h.first[b] in h.pprev
  {
    if s != [] { assert Hooked(h, b, s, 0); }
  }

  lemma CleanJoined(w: Wiring, w': Wiring, s: Cache, s': Cache, out: set<nat>, x: nat)
    requires Clean(w, s, out) && s'.heads == s.heads && x in s.heads
    requires w'.rings.next.Keys == w.rings.next.Keys + {x} && w'.rings.prev.Keys == w.rings.prev.Keys + {x}
    requires forall y :: y in w'.hooks.pprev ==> y in w.hooks.pprev || (y == x && Hashable(s.heads[x]))
    requires forall y :: y in w'.hooks.next ==> y in w'.hooks.pprev
    ensures Clean(w', s', out - {x})
  {
    forall y | y in w'.rings.next || y in w'.rings.prev ensures Placed(s', out - {x}, y) {
      assert y in w.rings.next || y in w.rings.prev || y == x;
      assert Placed(s, out, y) || y == x;
    }
    forall y | y in w'.hooks.pprev ensures Placed(s', out - {x}, y) && Hashable(s'.heads[y]) {
      assert Placed(s, out, y) || y == x;
    }
  }

  /** The pointers after insert_into_queues say what the lists are then. */
  lemma InsertedLinked(w: Wiring, s: Cache, out: set<nat>, hash: (nat, int) -> nat, x: nat)
    requires Inv(s, out, hash) && Linked(w, s, out) && x in out
    ensures Ready(w, s.heads[x]) && Linked(WiringJoined(w, hash, s.heads[x], x), Inserted(s, hash, x), out - {x})
  {
    hide AllRings, AllChains, Last, HooksJoined, LruOk, FreeOk, ChainsOk, OnceEach, PagesOk, Ready, Clean, FirstOf;
    hide Bumped;
    RingsInserted(w, s, out, hash, x);
    var w' := WiringJoined(w, hash, s.heads[x], x);
    if s.heads[x].dev != B_FREE {
      HooksInserted(w, s, out, hash, x);
    } else {
      assert forall y :: y in w.hooks.next ==> y in w.hooks.pprev by { HooksClean(w, s, out); }
    }
    CleanJoined(w, w', s, Inserted(s, hash, x), out, x);
  }

  lemma HooksClean(w: Wiring, s: Cache, out: set<nat>)
    requires Clean(w, s, out)
    ensures forall y :: y in w.hooks.next ==> y in w.hooks.pprev
  {
  }

  // ---- put_last_lru

  /** The first becomes the last when the pointer to the first moves on. */
  lemma FirstBecomesLast(w: Wires, first: map<nat, nat>, k: nat, s: seq<nat>)
    requires RingAt(w, first, k, s) && s != []
    ensures s[0] in w.next && RingAt(w, first[k := w.next[s[0]]], k, Remove(s, s[0]) + [s[0]])
  {
    var x := s[0];
    FirstMoves(w, s, x);
    assert s == [x] + s[1..];
    Rotate(w, [x], s[1..]);
  }

  ghost function WiringRecent(w: Wiring, k: nat, x: nat): Wiring
    requires x in w.rings.next && x in w.rings.prev
    requires k in w.lruFirst && w.lruFirst[k] != x ==> HasLast(Unlinked(w.rings, x), w.lruFirst[k])
  {
    if k in w.lruFirst && w.lruFirst[k] == x then w.(lruFirst := w.lruFirst[k := w.rings.next[x]])
    else w.(rings := Last(Unlinked(w.rings, x), w.lruFirst, k, x), lruFirst := FirstOf(w.lruFirst, k, x))
  }

  lemma MovedOut(w: Wires, first: map<nat, nat>, q: Queues, k: nat, x: nat)
    requires AllRings(w, first, q) && Separate(q) && x in At(q, k) && At(q, k)[0] != x
    ensures x in w.next && x in w.prev && k in first && first[k] != x && Same(w, Unlinked(w, x), Nodes(At(q, k)))
    ensures Unlinked(w, x).next.Keys + {x} == w.next.Keys && Unlinked(w, x).prev.Keys + {x} == w.prev.Keys
    ensures AllRings(Unlinked(w, x), first, Dropped(q, k, x)) && RingAt(Unlinked(w, x), first, k, Remove(At(q, k), x))
    ensures Separate(Dropped(q, k, x)) && Nodes(Remove(At(q, k), x)) + {x} == Nodes(At(q, k))
    ensures forall m :: x !in At(Dropped(q, k, x), m)
  {
    hide Ring, Unlinked, Same, Remove, Separate, AllRings;
    var s := At(q, k);
    assert RingAt(w, first, k, s) by { OneOfThem(w, first, q, k); }
    RingsLeft(w, first, q, k, x);
    UnlinkKeys(w, s, x);
    RingDistinct(w, s);
    RemoveIs(s, x);
    DroppedApart(q, k, x);
    OneOfThem(Unlinked(w, x), first, Dropped(q, k, x), k);
  }

  lemma RingsMoved(w: Wires, first: map<nat, nat>, q: Queues, k: nat, x: nat)
    requires AllRings(w, first, q) && Separate(q) && x in At(q, k) && At(q, k)[0] != x
    ensures x in w.next && x in w.prev && k in first && first[k] != x && HasLast(Unlinked(w, x), first[k])
    ensures var w2 := Last(Unlinked(w, x), first, k, x);
      && AllRings(w2, first, q[k := Remove(At(q, k), x) + [x]]) && Same(w, w2, Nodes(At(q, k)))
      && w2.next.Keys == w.next.Keys && w2.prev.Keys == w.prev.Keys
  {
    hide Ring, Unlinked, Same, LinkedAfter, Remove, Separate, AllRings, Dropped, Nodes;
    MovedOut(w, first, q, k, x);
    DropThenAdd(q, k, x);
    var w1, q1 := Unlinked(w, x), Dropped(q, k, x);
    LastKeys(w1, first, k, At(q1, k), x);
    RingsJoined(w1, first, q1, k, x);
    SameTwice(w, w1, Nodes(At(q, k)), Last(w1, first, k, x), Nodes(At(q1, k)) + {x});
    assert Nodes(At(q, k)) + (Nodes(At(q1, k)) + {x}) == Nodes(At(q, k));
  }

  lemma DropThenAdd(q: Queues, k: nat, x: nat)
    ensures At(Dropped(q, k, x), k) == Remove(At(q, k), x)
    ensures Dropped(q, k, x)[k := At(Dropped(q, k, x), k) + [x]] == q[k := Remove(At(q, k), x) + [x]]
  {
    hide Remove;
  }

  lemma OneOfThem(w: Wires, first: map<nat, nat>, q: Queues, k: nat)
    requires AllRings(w, first, q)
    ensures RingAt(w, first, k, At(q, k))
  {
  }

  lemma DroppedApart(q: Queues, k: nat, x: nat)
    requires Separate(q) && Distinct(At(q, k)) && x in At(q, k)
    ensures Separate(Dropped(q, k, x)) && forall m :: x !in At(Dropped(q, k, x), m)
  {
    hide Remove, Distinct;
    RemoveIs(At(q, k), x);
    var d := Dropped(q, k, x);
    forall m ensures x !in At(d, m) { assert x in At(q, m) ==> m == k; }
    forall a, b, y | y in At(d, a) && y in At(d, b) ensures a == b { assert y in At(q, a) && y in At(q, b); }
  }

  lemma SameTwice(w: Wires, w1: Wires, a: set<nat>, w2: Wires, b: set<nat>)
    requires Same(w, w1, a) && Same(w1, w2, b)
    ensures Same(w, w2, a + b)
  {
  }

  /** The pointers after put_last_lru say what the lists are then. */
  lemma RecentLinked(w: Wiring, s: Cache, hash: (nat, int) -> nat, x: nat)
    requires Inv(s, {}, hash) && Linked(w, s, {}) && x in s.heads && s.heads[x].dev != B_FREE
    ensures var l := s.heads[x].list;
      && x in w.rings.next && x in w.rings.prev && l in w.lruFirst
      && (w.lruFirst[l] != x ==> HasLast(Unlinked(w.rings, x), w.lruFirst[l]))
      && Linked(WiringRecent(w, l, x), Recent(s, x), {})
  {
    hide Ring, Last, Same, Unlinked, LruOk, FreeOk, ChainsOk, OnceEach, PagesOk, AllChains, Remove;
    var l := s.heads[x].list;
    OnItsRing(s, {}, hash, x);
    ListsApart(s, {}, hash);
    RingsLeft(w.rings, w.lruFirst, s.lru, l, x);
    assert RingAt(w.rings, w.lruFirst, l, At(s.lru, l));
    var s' := Recent(s, x);
    if w.lruFirst[l] == x {
      FirstBecomesLast(w.rings, w.lruFirst, l, At(s.lru, l));
      forall m ensures RingAt(w.rings, w.lruFirst[l := w.rings.next[x]], m, At(s'.lru, m)) {
        if m != l { assert RingAt(w.rings, w.lruFirst, m, At(s.lru, m)); }
      }
    } else {
      RingsMoved(w.rings, w.lruFirst, s.lru, l, x);
      RingsKept(w.rings, Last(Unlinked(w.rings, x), w.lruFirst, l, x), Nodes(At(s.lru, l)), w.freeFirst, s.free);
    }
  }

  // ---- Changes in the heads alone, and leaving the hash chain for good

  lemma TouchedLinked(w: Wiring, s: Cache, s': Cache, out: set<nat>, out': set<nat>)
    requires Linked(w, s, out) && s'.lru == s.lru && s'.free == s.free && s'.chains == s.chains
    requires forall x :: Placed(s, out, x) ==> Placed(s', out', x) && (Hashable(s.heads[x]) ==> Hashable(s'.heads[x]))
    ensures Linked(w, s', out')
  {
    hide AllRings, AllChains;
  }

  lemma ForgottenLinked(w: Wiring, s: Cache, hash: (nat, int) -> nat, x: nat)
    requires Inv(s, {}, hash) && Linked(w, s, {}) && x in s.heads
    ensures Linked(w.(hooks := HooksLeft(w.hooks, x)), Forgotten(s, hash, x), {})
  {
    hide AllRings, AllChains, HooksLeft, Inv, Dropped;
    assert Placed(s, {}, x);
    HooksLeftIs(w, s, {}, hash, x);
    var w', s' := w.(hooks := HooksLeft(w.hooks, x)), Forgotten(s, hash, x);
    forall y | y in w'.rings.next || y in w'.rings.prev ensures Placed(s', {}, y) { assert Placed(s, {}, y); }
    forall y | y in w'.hooks.pprev ensures Placed(s', {}, y) && Hashable(s'.heads[y]) {
      assert y in w.hooks.pprev && y != x && Placed(s, {}, y);
    }
    forall y | y in w'.hooks.next ensures y in w'.hooks.pprev { assert y in w.hooks.next; }
  }

  // ---- The splice of grow_buffers

  /** The ring with the first i new buffers in it: after the one that was first. */
  ghost function Splicing(free: seq<nat>, ids: seq<nat>, i: nat): seq<nat>
    requires i <= |ids|
  {
    if free == [] then ids[..i] else [free[0]] + ids[..i] + free[1..]
  }

  /** The one after which the next new buffer is wired in. */
  ghost function InsertPoint(free: seq<nat>, ids: seq<nat>, i: nat): nat
    requires i <= |ids| && (i > 0 || free != [])
  {
    if i > 0 then ids[i - 1] else free[0]
  }

  lemma SpliceStep(w: Wires, free: seq<nat>, ids: seq<nat>, i: nat)
    requires i < |ids| && (i > 0 || free != []) && Ring(w, Splicing(free, ids, i)) && ids[i] !in Splicing(free, ids, i)
    ensures var y := InsertPoint(free, ids, i);
      && y in w.next && Ring(LinkedAfter(w, y, ids[i]), Splicing(free, ids, i + 1))
      && Same(w, LinkedAfter(w, y, ids[i]), Nodes(Splicing(free, ids, i)) + {ids[i]})
      && LinkedAfter(w, y, ids[i]).next.Keys == w.next.Keys + {ids[i]}
        && LinkedAfter(w, y, ids[i]).prev.Keys == w.prev.Keys + {ids[i]}
  {
    hide Ring, LinkedAfter, Same;
    var s, y, x := Splicing(free, ids, i), InsertPoint(free, ids, i), ids[i];
    var a := if i == 0 then [] else if free == [] then ids[..i - 1] else [free[0]] + ids[..i - 1];
    var b := if free == [] then [] else free[1..];
    if i > 0 { assert ids[..i] == ids[..i - 1] + [ids[i - 1]]; }
    assert s == a + [y] + b;
    LinkAfterRing(w, a, y, b, x);
    assert ids[..i + 1] == ids[..i] + [x];
    assert a + [y, x] + b == Splicing(free, ids, i + 1);
    LinkKeys(w, s, y, x);
  }

  lemma SpliceDone(w: Wires, free: seq<nat>, ids: seq<nat>)
    requires Ring(w, Splicing(free, ids, |ids|))
    ensures Ring(w, Spliced(ids, free))
  {
    hide Ring;
    assert ids[..|ids|] == ids;
    if free != [] {
      assert [free[0]] + ids + free[1..] == [free[0]] + (ids + free[1..]);
      Rotate(w, [free[0]], ids + free[1..]);
    }
  }

  // ---- What the pointers say about one list

  /** A node that comes after itself is alone on its list. */
  lemma Alone(w: Wires, first: map<nat, nat>, k: nat, s: seq<nat>, x: nat)
    requires RingAt(w, first, k, s) && x in s
    ensures x in w.next && x in w.prev
    ensures w.next[x] == x ==> w.prev[x] == x && k in first && first[k] == x
    ensures w.prev[x] == x ==> w.next[x] == x
  {
    var i := IndexOf(s, x);
    assert Wired(w, s[i], Pred(s, i), Succ(s, i));
    assert |s| > 1 ==> Succ(s, i) != s[i] && Pred(s, i) != s[i];
  }

  lemma FirstIs(w: Wires, first: map<nat, nat>, q: Queues, k: nat)
    requires AllRings(w, first, q)
    ensures (k in first <==> At(q, k) != []) && (k in first ==> first[k] == At(q, k)[0])
  {
    assert RingAt(w, first, k, At(q, k));
  }

  lemma ChainWalk(h: Hooks, q: Queues, b: nat, i: nat)
    requires AllChains(h, q) && i < |At(q, b)|
    ensures var s := At(q, b); (s[i] in h.next <==> i + 1 < |s|) && (s[i] in h.next ==> h.next[s[i]] == s[i + 1])
  {
    assert Chain(h, b, At(q, b)) && Hooked(h, b, At(q, b), i);
  }

  lemma ChainFirst(h: Hooks, q: Queues, b: nat)
    requires AllChains(h, q)
    ensures (b in h.first <==> At(q, b) != []) && (b in h.first ==> h.first[b] == At(q, b)[0])
  {
    assert Chain(h, b, At(q, b));
  }

  /** A buffer on no list has no pointers: nothing is found corrupted. */
  lemma NoPointers(w: Wiring, s: Cache, out: set<nat>, x: nat)
    requires Linked(w, s, out) && x in out
    ensures x !in w.rings.next && x !in w.rings.prev
  {
    hide AllRings, AllChains;
  }

  lemma ItsOwnRing(w: Wiring, s: Cache, out: set<nat>, hash: (nat, int) -> nat, x: nat)
    requires Inv(s, out, hash) && Linked(w, s, out) && Placed(s, out, x)
    ensures x in w.rings.next && x in w.rings.prev && (w.rings.prev[x] == x ==> w.rings.next[x] == x)
    ensures s.heads[x].dev == B_FREE && w.rings.next[x] == x ==>
      var z := s.heads[x].size; w.rings.prev[x] == x && z in w.freeFirst && w.freeFirst[z] == x
  {
    OnItsRing(s, out, hash, x);
    var h := s.heads[x];
    if h.dev == B_FREE {
      assert RingAt(w.rings, w.freeFirst, h.size, At(s.free, h.size));
      Alone(w.rings, w.freeFirst, h.size, At(s.free, h.size), x);
    } else {
      assert RingAt(w.rings, w.lruFirst, h.list, At(s.lru, h.list));
      Alone(w.rings, w.lruFirst, h.list, At(s.lru, h.list), x);
    }
  }

  lemma UnlinkedGone(w: Wires, x: nat)
    requires x in w.next && x in w.prev
    ensures x !in Unlinked(w, x).next && x !in Unlinked(w, x).prev
  {
  }

  lemma TheRings(w: Wiring, s: Cache, out: set<nat>)
    requires Linked(w, s, out)
    ensures AllRings(w.rings, w.freeFirst, s.free)
  {
    hide AllRings;
  }

  lemma TheChains(w: Wiring, s: Cache, out: set<nat>)
    requires Linked(w, s, out)
    ensures AllChains(w.hooks, s.chains)
  {
    hide AllChains;
  }

  // ---- Progress of the splice

  /** The first i new buffers are in the ring, and nothing else has changed. */
  ghost predicate SplicedIn(w0: Wires, w: Wires, free: seq<nat>, ids: seq<nat>, i: nat) {
    && i <= |ids| && Distinct(ids) && (forall x :: x in ids ==> x !in free)
    && Ring(w, Splicing(free, ids, i)) && Same(w0, w, Nodes(free) + Nodes(ids))
    && (forall x :: x in w.next ==> x in w0.next || x in ids) && (forall x :: x in w.prev ==> x in w0.prev || x in ids)
  }

  lemma SpliceStart(w: Wiring, s: Cache, hash: (nat, int) -> nat, size: nat, page: nat, ids: seq<nat>)
    requires Inv(s, {}, hash) && Linked(w, s, {}) && NewIds(s, page, ids)
    ensures SplicedIn(w.rings, w.rings, At(s.free, size), ids, 0)
  {
    var free := At(s.free, size);
    assert RingAt(w.rings, w.freeFirst, size, free);
    forall x | x in ids ensures x !in free { assert x in free <==> OnFree(s, {}, size, x); }
    assert free != [] ==> Splicing(free, ids, 0) == free;
  }

  lemma SplicedMore(w0: Wires, w: Wires, free: seq<nat>, ids: seq<nat>, i: nat)
    requires SplicedIn(w0, w, free, ids, i) && i < |ids|
    ensures i > 0 || free != [] ==>
      var y := InsertPoint(free, ids, i);
      y in w.next && w.next[y] != ids[i] && y != ids[i] && SplicedIn(w0, LinkedAfter(w, y, ids[i]), free, ids, i + 1)
    ensures i == 0 && free == [] ==>
      SplicedIn(w0, Wires(w.next[ids[i] := ids[i]], w.prev[ids[i] := ids[i]]), free, ids, i + 1)
  {
    if i > 0 || free != [] {
      assert forall y :: y in Splicing(free, ids, i) ==> y in free || y in ids;
      NotYet(free, ids, i);
      hide SplicedIn, Ring;
      SplicedOne(w0, w, free, ids, i);
    } else {
      hide SplicedIn;
      SplicedFirst(w0, w, ids);
    }
  }

  lemma SplicedFirst(w0: Wires, w: Wires, ids: seq<nat>)
    requires SplicedIn(w0, w, [], ids, 0) && ids != []
    ensures SplicedIn(w0, Wires(w.next[ids[0] := ids[0]], w.prev[ids[0] := ids[0]]), [], ids, 1)
  {
    var x := ids[0];
    LinkAlone(w, x);
    assert Splicing([], ids, 1) == [x];
    SameTwice(w0, w, Nodes([]) + Nodes(ids), Wires(w.next[x := x], w.prev[x := x]), {x});
    assert Nodes([]) + Nodes(ids) + {x} == Nodes([]) + Nodes(ids);
  }

  lemma NotYet(free: seq<nat>, ids: seq<nat>, i: nat)
    requires i < |ids| && Distinct(ids) && forall x :: x in ids ==> x !in free
    ensures ids[i] !in Splicing(free, ids, i)
  {
    assert ids[i] in ids && ids[i] !in ids[..i];
  }

  lemma SplicedOne(w0: Wires, w: Wires, free: seq<nat>, ids: seq<nat>, i: nat)
    requires SplicedIn(w0, w, free, ids, i) && i < |ids| && (i > 0 || free != []) && ids[i] !in Splicing(free, ids, i)
    ensures var y := InsertPoint(free, ids, i);
      y in w.next && w.next[y] != ids[i] && y != ids[i] && SplicedIn(w0, LinkedAfter(w, y, ids[i]), free, ids, i + 1)
  {
    hide Ring, LinkedAfter, Same, Distinct;
    var x, s, y := ids[i], Splicing(free, ids, i), InsertPoint(free, ids, i);
    assert y in s;
    SpliceStep(w, free, ids, i);
    NextInRing(w, s, y);
    var w' := LinkedAfter(w, y, x);
    SameTwice(w0, w, Nodes(free) + Nodes(ids), w', Nodes(s) + {x});
    assert x in ids && forall z :: z in s ==> z in free || z in ids;
    assert Nodes(free) + Nodes(ids) + (Nodes(s) + {x}) == Nodes(free) + Nodes(ids);
  }

  lemma NextInRing(w: Wires, s: seq<nat>, y: nat)
    requires Ring(w, s) && y in s
    ensures y in w.next && w.next[y] in s
  {
    var i := IndexOf(s, y);
    assert Wired(w, s[i], Pred(s, i), Succ(s, i));
  }

  lemma GrownRings(w: Wiring, s: Cache, hash: (nat, int) -> nat, size: nat, page: nat, ids: seq<nat>, rings: Wires)
    requires Inv(s, {}, hash) && Linked(w, s, {}) && NewIds(s, page, ids)
    requires SplicedIn(w.rings, rings, At(s.free, size), ids, |ids|)
    ensures AllRings(rings, w.freeFirst[size := ids[0]], Grown(s, size, page, ids).free)
    ensures AllRings(rings, w.lruFirst, s.lru)
  {
    hide Ring, Same, LruOk, FreeOk, ChainsOk, OnceEach, PagesOk, AllChains, Clean, Splicing, Distinct;
    var free, s' := At(s.free, size), Grown(s, size, page, ids);
    SpliceDone(rings, free, ids);
    GrownElsewhere(s, hash, size, page, ids);
    RingsKept(w.rings, rings, Nodes(free) + Nodes(ids), w.lruFirst, s.lru);
    forall k ensures RingAt(rings, w.freeFirst[size := ids[0]], k, At(s'.free, k)) {
      if k != size {
        assert RingAt(w.rings, w.freeFirst, k, At(s.free, k));
        Elsewhere(w.rings, rings, Nodes(free) + Nodes(ids), At(s.free, k));
      }
    }
  }

  /** The pointers after grow_buffers say what the lists are then. */
  lemma GrownLinked(w: Wiring, s: Cache, hash: (nat, int) -> nat, size: nat, page: nat, ids: seq<nat>, rings: Wires)
    requires Inv(s, {}, hash) && Linked(w, s, {}) && NewIds(s, page, ids)
    requires SplicedIn(w.rings, rings, At(s.free, size), ids, |ids|)
    ensures Linked(w.(rings := rings, freeFirst := w.freeFirst[size := ids[0]]), Grown(s, size, page, ids), {})
  {
    hide AllRings, AllChains, Inv, Ring, Same, Splicing, Spliced, Distinct;
    GrownRings(w, s, hash, size, page, ids, rings);
  }

  lemma GrownElsewhere(s: Cache, hash: (nat, int) -> nat, size: nat, page: nat, ids: seq<nat>)
    requires Inv(s, {}, hash) && NewIds(s, page, ids)
    ensures forall k, x :: x in At(s.lru, k) ==> x !in Nodes(At(s.free, size)) + Nodes(ids)
    ensures forall k, x :: k != size && x in At(s.free, k) ==> x !in Nodes(At(s.free, size)) + Nodes(ids)
  {
    ListsApart(s, {}, hash);
    forall k, x | x in At(s.lru, k) ensures x !in Nodes(At(s.free, size)) + Nodes(ids) { assert OnLru(s, {}, k, x); }
    forall k, x | k != size && x in At(s.free, k)
      ensures x !in Nodes(At(s.free, size)) + Nodes(ids)
    {
      assert OnFree(s, {}, k, x);
    }
  }
}
