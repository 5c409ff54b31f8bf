/** The operations of the buffer cache, on the pointers in the buffer heads. */
module Buffer {
  import opened Lists
  import opened Rings
  import opened Chains
  import opened BufferState
  import opened BufferLinks

  const PAGE_SIZE := 4096

  function Disposal(h: Head): nat {
    if h.dirty then BUF_DIRTY else if h.locked then BUF_LOCKED else BUF_CLEAN
  }

  /** refile_buffer */
  function Refiled(s: Cache, hash: (nat, int) -> nat, x: nat): Cache
    requires x in s.heads
  {
    var h := s.heads[x];
    if h.dev != B_FREE && Disposal(h) != h.list then Filed(s, hash, x, Disposal(h)) else s
  }

  lemma RefiledInv(s: Cache, hash: (nat, int) -> nat, x: nat)
    requires Inv(s, {}, hash) && x in s.heads
    ensures Inv(Refiled(s, hash, x), {}, hash)
    ensures Refiled(s, hash, x).heads == if s.heads[x].dev == B_FREE then s.heads
      else s.heads[x := s.heads[x].(list := Disposal(s.heads[x]))]
  {
    hide Inv, Filed;
    var h := s.heads[x];
    if h.dev != B_FREE {
      if Disposal(h) != h.list {
        FiledInv(s, hash, x, Disposal(h));
      } else {
        assert s.heads[x := h.(list := Disposal(h))] == s.heads;
      }
    }
  }

  // ---- Looking a block up

  lemma InChain(s: Cache, hash: (nat, int) -> nat, b: nat, x: nat)
    requires Inv(s, {}, hash) && x in At(s.chains, b)
    ensures x in s.heads && Hashable(s.heads[x])
  {
    assert OnChain(s, {}, hash, b, x);
  }

  lemma WouldBeThere(s: Cache, hash: (nat, int) -> nat, dev: nat, block: int, size: nat, x: nat)
    requires Inv(s, {}, hash) && Caches(s, {}, dev, block, size, x)
    ensures x in At(s.chains, hash(dev, block))
  {
    assert OnChain(s, {}, hash, hash(dev, block), x);
  }

  // ---- A new buffer for a block

  /** The first free buffer of the size is taken for a block that is not cached. */
  function Taken(s: Cache, hash: (nat, int) -> nat, dev: nat, block: int, x: nat): Cache
    requires x in s.heads
  {
    var s1 := Removed(s, hash, x);
    var h := s.heads[x].(dev := dev, block := block, count := 1, list := BUF_CLEAN, dirty := false, locked := false,
      keep := false, uptodate := false);
    Inserted(s1.(heads := s1.heads[x := h]), hash, x)
  }

  lemma TakenInv(s: Cache, hash: (nat, int) -> nat, dev: nat, block: int, size: nat, x: nat)
    requires Inv(s, {}, hash) && x in At(s.free, size) && dev != B_FREE && dev != NODEV
    requires !Cached(s, dev, block, size)
    ensures x in s.heads && Inv(Taken(s, hash, dev, block, x), {}, hash)
    ensures Caches(Taken(s, hash, dev, block, x), {}, dev, block, size, x)
    ensures forall y :: y in s.heads && y != x ==>
      y in Taken(s, hash, dev, block, x).heads && Taken(s, hash, dev, block, x).heads[y] == s.heads[y]
    ensures Taken(s, hash, dev, block, x).heads[x].count == 1
  {
    assert OnFree(s, {}, size, x) && Placed(s, {}, x);
    hide LruOk, FreeOk, ChainsOk, OnceEach, PagesOk, CountsOk, Removed, Inserted;
    var s1 := Removed(s, hash, x);
    var h := s.heads[x].(dev := dev, block := block, count := 1, list := BUF_CLEAN, dirty := false, locked := false,
      keep := false, uptodate := false);
    RemovedInv(s, {}, hash, x);
    assert {} + {x} == {x} && {x} - {x} == {};
    var s2 := s1.(heads := s1.heads[x := h]);
    forall y
      ensures !Caches(s2, {x}, dev, block, size, y)
    {
      assert Caches(s2, {x}, dev, block, size, y) ==> Caches(s, {}, dev, block, size, y);
    }
    ChangedInv(s1, {x}, hash, x, h);
    InsertedInv(s2, {x}, hash, x);
  }

  lemma TakenFresh(s: Cache, hash: (nat, int) -> nat, dev: nat, block: int, size: nat, x: nat)
    requires Inv(s, {}, hash) && x in At(s.free, size) && !Cached(s, dev, block, size)
    ensures x in s.heads && Placed(s, {}, x) && s.heads[x].size == size
    ensures var h := s.heads[x].(dev := dev, block := block, count := 1, list := BUF_CLEAN, dirty := false,
      locked := false, keep := false, uptodate := false);
      var s1 := Removed(s, hash, x); s1.heads == s.heads && Fresh(s1.(heads := s1.heads[x := h]), {x}, x)
  {
    assert OnFree(s, {}, size, x);
    var h := s.heads[x].(dev := dev, block := block, count := 1, list := BUF_CLEAN, dirty := false, locked := false,
      keep := false, uptodate := false);
    var s1 := Removed(s, hash, x);
    var s2 := s1.(heads := s1.heads[x := h]);
    forall y
      ensures !Caches(s2, {x}, dev, block, size, y)
    {
      assert Caches(s2, {x}, dev, block, size, y) ==> Caches(s, {}, dev, block, size, y);
    }
  }

  lemma OnlyOneLeft(s: Cache, hash: (nat, int) -> nat, x: nat, list: nat)
    requires Inv(s, {}, hash) && x in s.heads
    ensures var s1 := Removed(s, hash, x);
      s1.heads == s.heads && Fresh(s1.(heads := s1.heads[x := s1.heads[x].(list := list)]), {x}, x)
    ensures Placed(s, {}, x)
  {
    OnlyOne(s, hash, x, list);
  }

  /** A buffer that is found gets another user, and becomes the most recent if it is clean and
      up to date. */
  function Shared(s: Cache, x: nat): Cache
    requires x in s.heads
  {
    var h := s.heads[x];
    var s1 := s.(heads := s.heads[x := h.(count := h.count + 1)]);
    if !h.dirty && h.uptodate then Recent(s1, x) else s1
  }

  lemma SharedInv(s: Cache, hash: (nat, int) -> nat, x: nat)
    requires Inv(s, {}, hash) && x in s.heads && s.heads[x].dev != B_FREE
    ensures Inv(Shared(s, x), {}, hash)
    ensures Shared(s, x).heads == s.heads[x := s.heads[x].(count := s.heads[x].count + 1)]
  {
    var h := s.heads[x];
    assert CountsOk(s);
    TouchedInv(s, {}, hash, x, h.(count := h.count + 1));
    hide Inv;
    if !h.dirty && h.uptodate {
      RecentInv(s.(heads := s.heads[x := h.(count := h.count + 1)]), hash, x);
    }
  }

  /** What getblk has done to the cache as it found it after it last slept. */
  ghost predicate Got(s: Cache, hash: (nat, int) -> nat, dev: nat, block: int, size: nat, x: nat, s': Cache) {
    && x in s.heads && Caches(s', {}, dev, block, size, x)
    && if Caches(s, {}, dev, block, size, x) then s' == Shared(s, x)
       else
         && !Cached(s, dev, block, size) && At(s.free, size) != [] && x == At(s.free, size)[0]
         && s' == Taken(s, hash, dev, block, x)
  }

  /** What a caller of getblk gets. A buffer that was cached keeps its bits and has one more user; it
      becomes the last of its list if it is clean and up to date, and no list changes otherwise. A
      block that was not cached gets the first free buffer of its size, as the last of the clean
      ones, with this user only and with no bit set; in particular it is not up to date. */
  ghost predicate Served(s: Cache, dev: nat, block: int, size: nat, x: nat, s': Cache) {
    && x in s.heads && s'.heads.Keys == s.heads.Keys
    && (forall y :: y in s.heads && y != x ==> s'.heads[y] == s.heads[y])
    && if Cached(s, dev, block, size) then ServedFound(s, dev, block, size, x, s')
       else ServedNew(s, dev, block, size, x, s')
  }

  ghost predicate ServedFound(s: Cache, dev: nat, block: int, size: nat, x: nat, s': Cache) {
    && Caches(s, {}, dev, block, size, x) && x in s'.heads
    && var h := s.heads[x];
       && s'.heads[x] == h.(count := h.count + 1) && s'.free == s.free && s'.chains == s.chains
       && if h.uptodate && !h.dirty then LastOf(At(s.lru, h.list), x, At(s'.lru, h.list)) else s'.lru == s.lru
  }

  ghost predicate ServedNew(s: Cache, dev: nat, block: int, size: nat, x: nat, s': Cache) {
    && x in s.heads && x in s'.heads && At(s.free, size) == [x] + At(s'.free, size)
    && At(s'.lru, BUF_CLEAN) == At(s.lru, BUF_CLEAN) + [x]
    && s'.heads[x] == Head(dev, block, size, 1, BUF_CLEAN, false, false, false, false, s.heads[x].page)
  }

  /** x, from wherever it was, is now the last; the others keep their order. */
  ghost predicate LastOf(s: seq<nat>, x: nat, s': seq<nat>) {
    x in s && s' == Remove(s, x) + [x]
  }

  lemma SharedServed(s: Cache, hash: (nat, int) -> nat, dev: nat, block: int, size: nat, x: nat)
    requires Inv(s, {}, hash) && Caches(s, {}, dev, block, size, x)
    ensures Served(s, dev, block, size, x, Shared(s, x))
  {
    assert OnLru(s, {}, s.heads[x].list, x);
    hide FreeOk, ChainsOk, OnceEach, PagesOk, CountsOk, Remove;
  }

  lemma TakenServed(s: Cache, hash: (nat, int) -> nat, dev: nat, block: int, size: nat, x: nat)
    requires Inv(s, {}, hash) && At(s.free, size) != [] && At(s.free, size)[0] == x
    requires dev != B_FREE && dev != NODEV && !Cached(s, dev, block, size)
    ensures x in s.heads && Served(s, dev, block, size, x, Taken(s, hash, dev, block, x))
  {
    assert x in At(s.free, size) && OnFree(s, {}, size, x);
    assert At(s.free, size) == [x] + At(s.free, size)[1..];
    hide LruOk, FreeOk, ChainsOk, OnceEach, PagesOk, CountsOk;
  }

  lemma NotCached(s: Cache, x: nat)
    requires x in s.heads && s.heads[x].dev == NODEV
    ensures forall dev, block, size :: !Caches(s, {}, dev, block, size, x)
  {
  }

  lemma SameDisposal(h: Head, h': Head)
    requires h'.locked == h.locked && h'.dirty == h.dirty
    ensures Disposal(h) == Disposal(h')
  {
  }

  lemma CountOf(s: Cache, hash: (nat, int) -> nat, x: nat)
    requires Inv(s, {}, hash) && x in s.heads
    ensures s.heads[x].count >= 0 && (s.heads[x].dev == B_FREE ==> s.heads[x].count == 0)
  {
    assert CountsOk(s);
    assert s.heads[x].dev == B_FREE ==> OnFree(s, {}, s.heads[x].size, x);
  }

  ghost predicate Cached(s: Cache, dev: nat, block: int, size: nat) {
    exists x :: Caches(s, {}, dev, block, size, x)
  }

  /** The block is not cached and there is no free buffer for it: getblk has to wait. */
  ghost predicate Starved(s: Cache, dev: nat, block: int, size: nat) {
    At(s.free, size) == [] && !Cached(s, dev, block, size)
  }

  /** The cache and its pointers as others leave them. */
  datatype World = World(cache: Cache, wiring: Wiring)

  ghost predicate GoodWorld(world: World, hash: (nat, int) -> nat) {
    Ok(world.cache, hash) && Linked(world.wiring, world.cache, {})
  }

  /** The cache as it is after k waits. */
  ghost function Then(s: Cache, worlds: seq<World>, k: nat): Cache
    requires k <= |worlds|
  {
    if k == 0 then s else worlds[k - 1].cache
  }

  function Less(count: int): (r: int)
    ensures count >= 0 ==> r >= 0
  {
    if count == 0 then 0xffff_ffff else count - 1
  }

  class Buffers {
    var heads: Heads
    var rings: Wires
    var lruList: map<nat, nat>
    var freeList: map<nat, nat>
    var hooks: Hooks
    var nrType: map<nat, int>
    var pages: Queues
    const hash: (nat, int) -> nat

    /** The lists that the pointers make up. */
    ghost var lru: Queues
    ghost var free: Queues
    ghost var chains: Queues

    ghost function State(): Cache
      reads this
    {
      Cache(heads, lru, free, chains, nrType, pages)
    }

    ghost function Pointers(): Wiring
      reads this
    {
      Wiring(rings, lruList, freeList, hooks)
    }

    /** All is in order, except that the buffers in `out` are on no list. */
    ghost predicate Without(out: set<nat>)
      reads this
    {
      Inv(State(), out, hash) && Linked(Pointers(), State(), out)
    }

    ghost predicate Valid()
      reads this
    {
      Without({})
    }

    constructor (hash: (nat, int) -> nat)
      ensures Valid() && heads == map[]
    {
      this.hash := hash;
      heads, lru, free, chains, nrType, pages := map[], map[], map[], map[], map[], map[];
      rings, lruList, freeList, hooks := Wires(map[], map[]), map[], map[], Hooks(map[], map[], map[]);
    }

    /** remove_from_hash_queue */
    method RemoveFromHashQueue(x: nat, ghost out: set<nat>)
      requires Without(out) && Placed(State(), out, x)
      modifies this`chains, this`hooks
      ensures chains == if Hashable(heads[x]) then Dropped(old(chains), hash(heads[x].dev, heads[x].block), x)
        else old(chains)
      ensures hooks == HooksLeft(old(hooks), x)
    {
      hide Inv, Linked;
      ghost var h := heads[x];
      if x in hooks.pprev {
        var place, after := hooks.pprev[x], Look(hooks.next, x);
        if after.Some? {
          hooks := hooks.(pprev := hooks.pprev[after.head := place], next := hooks.next - {x});
        }
        assert hooks.next == old(hooks).next - {x};
        match place {
          case Top(b) => hooks := hooks.(first := Store(hooks.first, b, after));
          case InNode(y) => hooks := hooks.(next := Store(hooks.next, y, after));
        }
        hooks := hooks.(pprev := hooks.pprev - {x});
      }
      chains := if Hashable(h) then Dropped(chains, hash(h.dev, h.block), x) else chains;
    }

    /** The neighbours of x are wired to each other. */
    method Bypass(x: nat)
      requires x in rings.next && x in rings.prev
      modifies this`rings
      ensures var w := old(rings); rings == Wires(w.next[w.prev[x] := w.next[x]], w.prev[w.next[x] := w.prev[x]])
    {
      var p, n := rings.prev[x], rings.next[x];
      rings := rings.(next := rings.next[p := n]);
      rings := rings.(prev := rings.prev[n := p]);
    }

    /** remove_from_lru_list */
    method RemoveFromLruList(x: nat)
      requires x in heads && x in rings.next && x in rings.prev && (rings.prev[x] == x ==> rings.next[x] == x)
      modifies this`rings, this`lruList
      ensures rings == Unlinked(old(rings), x)
      ensures lruList == FirstLeft(old(lruList), heads[x].list, x, old(rings).next[x])
    {
      var l := heads[x].list;
      Bypass(x);
      if Look(lruList, l) == Some(x) {
        lruList := lruList[l := rings.next[x]];
      }
      if Look(lruList, l) == Some(x) {
        lruList := lruList - {l};
      }
      rings := Wires(rings.next - {x}, rings.prev - {x});
    }

    /** remove_from_free_list */
    method RemoveFromFreeList(x: nat)
      requires x in heads && x in rings.next && x in rings.prev
      requires rings.next[x] == x ==> rings.prev[x] == x && Look(freeList, heads[x].size) == Some(x)
      modifies this`rings, this`freeList
      ensures rings == Unlinked(old(rings), x)
      ensures freeList == FirstLeft(old(freeList), heads[x].size, x, old(rings).next[x])
    {
      var z := heads[x].size;
      if rings.next[x] == x {
        freeList := freeList - {z};
      } else {
        var n := rings.next[x];
        Bypass(x);
        if Look(freeList, z) == Some(x) {
          freeList := freeList[z := n];
        }
      }
      rings := Wires(rings.next - {x}, rings.prev - {x});
    }

    /** remove_from_queues: x is then on no list, and all the others are where they were. */
    method RemoveFromQueues(x: nat, ghost out: set<nat>)
      requires Without(out) && Placed(State(), out, x)
      modifies this`chains, this`free, this`lru, this`nrType, this`rings, this`lruList, this`freeList
      modifies this`hooks
      ensures Without(out + {x}) && State() == Removed(old(State()), hash, x)
    {
      hide Inv, Linked, Unlinked, HooksLeft, FirstLeft, Dropped, Bumped;
      RemovedInv(State(), out, hash, x);
      RemovedLinked(Pointers(), State(), out, hash, x);
      ItsOwnRing(Pointers(), State(), out, hash, x);
      var h := heads[x];
      if h.dev == B_FREE {
        RemoveFromFreeList(x);
        free := Dropped(free, h.size, x);
        assert State() == Removed(old(State()), hash, x) && Pointers() == WiringLeft(old(Pointers()), h, x);
        return;
      }
      RemoveUsed(x, out);
      assert State() == Removed(old(State()), hash, x) && Pointers() == WiringLeft(old(Pointers()), h, x);
    }

    /** The part of remove_from_queues for a buffer in use. */
    method RemoveUsed(x: nat, ghost out: set<nat>)
      requires Without(out) && Placed(State(), out, x)
      requires x in rings.next && x in rings.prev && (rings.prev[x] == x ==> rings.next[x] == x)
      modifies this`chains, this`lru, this`nrType, this`rings, this`lruList, this`hooks
      ensures var h := heads[x];
        && rings == Unlinked(old(rings), x) && lruList == FirstLeft(old(lruList), h.list, x, old(rings).next[x])
        && hooks == HooksLeft(old(hooks), x)
        && lru == Dropped(old(lru), h.list, x) && nrType == Bumped(old(nrType), h.list, -1)
        && chains == if Hashable(h) then Dropped(old(chains), hash(h.dev, h.block), x) else old(chains)
    {
      hide Inv, Linked, Unlinked, HooksLeft, FirstLeft, Dropped, Bumped;
      var h := heads[x];
      RemoveFromHashQueue(x, out);
      nrType := Bumped(nrType, h.list, -1);
      RemoveFromLruList(x);
      lru := Dropped(lru, h.list, x);
    }

    /** Wires x in before the first of a list, and makes it the first if there is none. */
    method PutLast(first: map<nat, nat>, k: nat, x: nat) returns (first': map<nat, nat>)
      requires x !in rings.next && x !in rings.prev && (k in first ==> HasLast(rings, first[k]))
      modifies this`rings
      ensures rings == Last(old(rings), first, k, x) && first' == FirstOf(first, k, x)
    {
      first' := first;
      if k !in first {
        first' := first[k := x];
        rings := rings.(prev := rings.prev[x := x]);
      }
      var head := first'[k];
      rings := Wires(rings.next[x := head], rings.prev[x := rings.prev[head]]);
      rings := rings.(next := rings.next[rings.prev[head] := x]);
      rings := rings.(prev := rings.prev[head := x]);
    }

    /** Puts x in front of its hash chain. */
    method PutHashed(x: nat, b: nat)
      modifies this`hooks
      ensures hooks == Pushed(Hooks(old(hooks).first, old(hooks).next - {x}, old(hooks).pprev - {x}), b, x)
    {
      hooks := hooks.(next := hooks.next - {x}, pprev := hooks.pprev - {x});
      if b in hooks.first {
        var first := hooks.first[b];
        hooks := hooks.(next := hooks.next[x := first]);
        hooks := hooks.(pprev := hooks.pprev[first := InNode(x)]);
      }
      hooks := hooks.(first := hooks.first[b := x]);
      hooks := hooks.(pprev := hooks.pprev[x := Top(b)]);
    }

    /** insert_into_queues: x, which was on no list, is where it belongs. */
    method InsertIntoQueues(x: nat, ghost out: set<nat>)
      requires Without(out) && x in out && x in heads && Fresh(State(), out, x)
      requires heads[x].dev == B_FREE ==> !Busy(heads[x])
      modifies this`chains, this`free, this`lru, this`nrType, this`rings, this`lruList, this`freeList
      modifies this`hooks
      ensures Without(out - {x}) && State() == Inserted(old(State()), hash, x)
    {
      hide Inv, Linked, Last, Fresh, Busy, FirstOf, HooksJoined, Bumped, HasLast;
      InsertedInv(State(), out, hash, x);
      InsertedLinked(Pointers(), State(), out, hash, x);
      NoPointers(Pointers(), State(), out, x);
      var h := heads[x];
      if h.dev == B_FREE {
        freeList := PutLast(freeList, h.size, x);
        free := free[h.size := At(free, h.size) + [x]];
        assert State() == Inserted(old(State()), hash, x) && Pointers() == WiringJoined(old(Pointers()), hash, h, x);
        return;
      }
      InsertUsed(x, h);
      assert State() == Inserted(old(State()), hash, x) && Pointers() == WiringJoined(old(Pointers()), hash, h, x);
    }

    /** The part of insert_into_queues for a buffer in use. */
    method InsertUsed(x: nat, h: Head)
      requires x !in rings.next && x !in rings.prev && (h.list in lruList ==> HasLast(rings, lruList[h.list]))
      modifies this`chains, this`lru, this`nrType, this`rings, this`lruList, this`hooks
      ensures rings == Last(old(rings), old(lruList), h.list, x) && lruList == FirstOf(old(lruList), h.list, x)
      ensures hooks == HooksJoined(old(hooks), hash(h.dev, h.block), h.dev != NODEV, x)
      ensures lru == old(lru)[h.list := At(old(lru), h.list) + [x]] && nrType == Bumped(old(nrType), h.list, 1)
      ensures var b := hash(h.dev, h.block);
        chains == if h.dev != NODEV then old(chains)[b := [x] + At(old(chains), b)] else old(chains)
    {
      hide Last, FirstOf, HasLast, Bumped;
      lruList := PutLast(lruList, h.list, x);
      lru := lru[h.list := At(lru, h.list) + [x]];
      nrType := Bumped(nrType, h.list, 1);
      if h.dev != NODEV {
        PutHashed(x, hash(h.dev, h.block));
        ghost var b := hash(h.dev, h.block);
        chains := chains[b := [x] + At(chains, b)];
      } else {
        hooks := hooks.(next := hooks.next - {x}, pprev := hooks.pprev - {x});
      }
    }

    /** put_last_lru */
    method PutLastLru(x: nat)
      requires Valid() && x in heads && heads[x].dev != B_FREE
      modifies this`lru, this`rings, this`lruList
      ensures Valid() && State() == Recent(old(State()), x)
    {
      hide Inv, Linked, Last, Unlinked, HasLast, FirstOf, Remove;
      RecentInv(State(), hash, x);
      RecentLinked(Pointers(), State(), hash, x);
      ItsOwnRing(Pointers(), State(), {}, hash, x);
      var l := heads[x].list;
      if lruList[l] == x {
        lruList := lruList[l := rings.next[x]];
      } else {
        MoveToEnd(x);
      }
      lru := lru[l := Remove(At(lru, l), x) + [x]];
      assert State() == Recent(old(State()), x) && Pointers() == WiringRecent(old(Pointers()), l, x);
    }

    /** The part of put_last_lru for a buffer that is not the first. */
    method MoveToEnd(x: nat)
      requires x in heads && x in rings.next && x in rings.prev && (rings.prev[x] == x ==> rings.next[x] == x)
      requires heads[x].list in lruList && lruList[heads[x].list] != x
      requires HasLast(Unlinked(rings, x), lruList[heads[x].list])
      modifies this`rings, this`lruList
      ensures rings == Last(Unlinked(old(rings), x), old(lruList), heads[x].list, x)
      ensures lruList == FirstOf(old(lruList), heads[x].list, x)
    {
      hide Last, Unlinked, HasLast;
      RemoveFromLruList(x);
      UnlinkedGone(old(rings), x);
      lruList := PutLast(lruList, heads[x].list, x);
    }

    /** find_buffer: searching one hash chain is as good as searching the whole cache. */
    method FindBuffer(dev: nat, block: int, size: nat) returns (r: Option)
      requires Valid() && dev != B_FREE && dev != NODEV
      ensures r.Some? ==> Caches(State(), {}, dev, block, size, r.head)
      ensures r.None? ==> !Cached(State(), dev, block, size)
    {
      hide Inv, Linked;
      ghost var chain := At(chains, hash(dev, block));
      assert AllChains(hooks, chains) by { TheChains(Pointers(), State(), {}); }
      ChainFirst(hooks, chains, hash(dev, block));
      ghost var i := 0;
      var p := Look(hooks.first, hash(dev, block));
      while p.Some?
        invariant 0 <= i <= |chain| && p == (if i < |chain| then Some(chain[i]) else None)
        invariant forall j :: 0 <= j < i ==> !Caches(State(), {}, dev, block, size, chain[j])
        decreases |chain| - i
      {
        var x := p.head;
        InChain(State(), hash, hash(dev, block), x);
        ChainWalk(hooks, chains, hash(dev, block), i);
        p := Look(hooks.next, x);
        var h := heads[x];
        if h.block == block && h.size == size && h.dev == dev {
          return Some(x);
        }
        i := i + 1;
      }
      forall x ensures !Caches(State(), {}, dev, block, size, x) {
        if Caches(State(), {}, dev, block, size, x) {
          WouldBeThere(State(), hash, dev, block, size, x);
        }
      }
      r := None;
    }

    /** Other processes have run: the cache is as they left it. */
    method Sleep(world: World)
      requires GoodWorld(world, hash)
      modifies this
      ensures Valid() && State() == world.cache
    {
      hide Inv, Linked;
      heads, nrType, pages := world.cache.heads, world.cache.nrType, world.cache.pages;
      rings, lruList, freeList, hooks := world.wiring.rings, world.wiring.lruFirst, world.wiring.freeFirst,
        world.wiring.hooks;
      lru, free, chains := world.cache.lru, world.cache.free, world.cache.chains;
      assert State() == world.cache && Pointers() == world.wiring;
    }

    /** getblk. Each time it has to wait for a free buffer, the cache changes to the next of
        `worlds`; it gives up only when there are no more of them. */
    method Getblk(dev: nat, block: int, size: nat, worlds: seq<World>) returns (r: Option, ghost k: nat)
      requires Valid() && dev != B_FREE && dev != NODEV && forall i :: 0 <= i < |worlds| ==> GoodWorld(worlds[i], hash)
      modifies this
      ensures Valid() && k <= |worlds|
      ensures r.Some? ==> Got(Then(old(State()), worlds, k), hash, dev, block, size, r.head, State())
      ensures r.Some? ==> Served(Then(old(State()), worlds, k), dev, block, size, r.head, State())
      ensures r.None? ==> k == |worlds| && Starved(Then(old(State()), worlds, k), dev, block, size)
      ensures forall i :: 0 <= i < k ==> Starved(Then(old(State()), worlds, i), dev, block, size)
    {
      hide Inv, Linked, Removed, Inserted, Taken, Shared, Served;
      k := 0;
      var n := 0;
      while true
        invariant n == k <= |worlds| && Valid() && State() == Then(old(State()), worlds, k)
        invariant forall i :: 0 <= i < k ==> Starved(Then(old(State()), worlds, i), dev, block, size)
        decreases |worlds| - k
      {
        ghost var s := State();
        var found := FindBuffer(dev, block, size);
        if found.Some? {
          SharedServed(s, hash, dev, block, size, found.head);
          Share(found.head);
          return found, k;
        }
        assert AllRings(rings, freeList, free) by { TheRings(Pointers(), State(), {}); }
        FirstIs(rings, freeList, free, size);
        if size in freeList {
          var x := freeList[size];
          TakenServed(s, hash, dev, block, size, x);
          Take(dev, block, size, x);
          return Some(x), k;
        }
        assert Starved(s, dev, block, size) && s == Then(old(State()), worlds, k);
        if n == |worlds| {
          return None, k;
        }
        Sleep(worlds[n]);
        k := k + 1;
        n := n + 1;
      }
    }

    /** The part of getblk for a buffer that is cached. */
    method Share(x: nat)
      requires Valid() && x in heads && heads[x].dev != B_FREE
      modifies this
      ensures Valid() && State() == Shared(old(State()), x)
      ensures heads == old(heads)[x := old(heads)[x].(count := old(heads)[x].count + 1)]
    {
      hide Inv, Linked;
      SharedInv(State(), hash, x);
      var h := heads[x];
      CountOf(State(), hash, x);
      Touch(x, h.(count := h.count + 1));
      if !h.dirty {
        if h.uptodate {
          PutLastLru(x);
        }
      }
    }

    /** A change in a buffer head that moves it nowhere. */
    method Touch(x: nat, h: Head)
      requires Valid() && x in heads && SamePlace(heads[x], h) && h.count >= 0 && h.dev != B_FREE
      modifies this`heads
      ensures Valid() && heads == old(heads)[x := h]
    {
      hide Inv, Linked;
      TouchedInv(State(), {}, hash, x, h);
      TouchedLinked(Pointers(), State(), State().(heads := heads[x := h]), {}, {});
      heads := heads[x := h];
    }

    /** A change in the head of a buffer that is on no list. */
    method Change(x: nat, h: Head, ghost out: set<nat>)
      requires Without(out) && x in out && x in heads && h.page == heads[x].page && h.count >= 0 && h.list < NR_LIST
      modifies this`heads
      ensures Without(out) && heads == old(heads)[x := h]
    {
      hide Inv, Linked;
      ChangedInv(State(), out, hash, x, h);
      TouchedLinked(Pointers(), State(), State().(heads := heads[x := h]), out, out);
      heads := heads[x := h];
    }

    /** The part of getblk that takes a free buffer. */
    method Take(dev: nat, block: int, size: nat, x: nat)
      requires Valid() && x in At(free, size) && dev != B_FREE && dev != NODEV && !Cached(State(), dev, block, size)
      modifies this
      ensures Valid() && x in old(heads) && State() == Taken(old(State()), hash, dev, block, x)
      ensures Caches(State(), {}, dev, block, size, x)
    {
      hide Inv, Linked, Removed, Inserted, Fresh, Cached, Caches;
      TakenInv(State(), hash, dev, block, size, x);
      TakenFresh(State(), hash, dev, block, size, x);
      assert {} + {x} == {x} && {x} - {x} == {};
      RemoveFromQueues(x, {});
      Change(x, heads[x].(dev := dev, block := block, count := 1, list := BUF_CLEAN, dirty := false, locked := false,
        keep := false, uptodate := false), {x});
      InsertIntoQueues(x, {x});
    }

    /** refile_buffer */
    method RefileBuffer(x: nat)
      requires Valid() && x in heads
      modifies this
      ensures Valid() && State() == Refiled(old(State()), hash, x)
      ensures heads == if old(heads)[x].dev == B_FREE then old(heads)
        else old(heads)[x := old(heads)[x].(list := Disposal(old(heads)[x]))]
      ensures heads[x].dev != B_FREE ==>
        && (heads[x].list == BUF_DIRTY <==> heads[x].dirty)
        && (heads[x].list == BUF_LOCKED <==> heads[x].locked && !heads[x].dirty)
        && (heads[x].list == BUF_CLEAN <==> !heads[x].locked && !heads[x].dirty)
    {
      hide Inv, Linked, Removed, Inserted, Fresh;
      RefiledInv(State(), hash, x);
      CountOf(State(), hash, x);
      var h := heads[x];
      if h.dev == B_FREE {
        return;
      }
      var dispose := if h.dirty then BUF_DIRTY else if h.locked then BUF_LOCKED else BUF_CLEAN;
      if dispose != h.list {
        OnlyOneLeft(State(), hash, x, dispose);
        assert {} + {x} == {x} && {x} - {x} == {};
        RemoveFromQueues(x, {});
        Change(x, heads[x].(list := dispose), {x});
        InsertIntoQueues(x, {x});
      }
    }

    /** The state bits change: by marking the buffer, or when input or output is done. */
    method SetState(x: nat, dirty: bool, locked: bool, keep: bool, uptodate: bool)
      requires Valid() && x in heads && heads[x].dev != B_FREE
      modifies this`heads
      ensures Valid()
      ensures heads
        == old(heads)[x := old(heads)[x].(dirty := dirty, locked := locked, keep := keep, uptodate := uptodate)]
    {
      hide Inv, Linked;
      CountOf(State(), hash, x);
      Touch(x, heads[x].(dirty := dirty, locked := locked, keep := keep, uptodate := uptodate));
    }

    /** __brelse */
    method Brelse(x: nat)
      requires Valid() && x in heads
      modifies this
      ensures Valid()
      ensures var h := old(heads)[x];
        heads == if h.dev == B_FREE then old(heads)
          else old(heads)[x := h.(list := Disposal(h), count := if h.count > 0 then h.count - 1 else 0)]
    {
      hide Inv, Linked, Refiled;
      RefileBuffer(x);
      CountOf(State(), hash, x);
      if heads[x].count != 0 {
        Uncount(x);
      }
    }

    /** mark_buffer_clean */
    method MarkClean(x: nat)
      requires Valid() && x in heads && heads[x].dev != B_FREE
      modifies this
      ensures Valid() && x in heads && heads == old(heads)[x := old(heads)[x].(dirty := false, list := heads[x].list)]
    {
      hide Inv, Linked, Refiled, Disposal;
      var h := heads[x];
      SetState(x, false, h.locked, h.keep, h.uptodate);
      if h.dirty && heads[x].list == BUF_DIRTY {
        RefileBuffer(x);
      }
    }

    /** One user less: the count is unsigned and wraps below zero. */
    method Uncount(x: nat)
      requires Valid() && x in heads && heads[x].dev != B_FREE
      modifies this`heads
      ensures Valid() && heads == old(heads)[x := old(heads)[x].(count := Less(old(heads)[x].count))]
    {
      hide Inv, Linked;
      CountOf(State(), hash, x);
      Touch(x, heads[x].(count := Less(heads[x].count)));
    }

    /** The buffer leaves its hash chain and its device. */
    method Forget(x: nat)
      requires Valid() && x in heads && heads[x].dev != B_FREE
      modifies this`heads, this`chains, this`hooks
      ensures Valid() && heads == old(heads)[x := old(heads)[x].(dev := NODEV)]
    {
      hide Inv, Linked, HooksLeft, Dropped;
      ForgottenInv(State(), hash, x);
      ForgottenLinked(Pointers(), State(), hash, x);
      RemoveFromHashQueue(x, {});
      heads := heads[x := heads[x].(dev := NODEV)];
      assert State() == Forgotten(old(State()), hash, x);
    }

    /** __bforget: the block is no longer cached, whoever else uses the buffer. */
    method Bforget(x: nat)
      requires Valid() && x in heads && heads[x].dev != B_FREE
      modifies this
      ensures Valid()
      ensures var h := old(heads)[x].(dirty := false, keep := false, dev := NODEV, count := Less(old(heads)[x].count));
        heads == old(heads)[x := h.(list := Disposal(h))]
      ensures forall dev, block, size :: !Caches(State(), {}, dev, block, size, x)
    {
      hide Inv, Linked, Refiled, Disposal, Caches;
      Cleanse(x);
      ghost var h0, h1 := old(heads)[x], heads[x];
      SameDisposal(h0.(dirty := false, keep := false, dev := NODEV, count := Less(h0.count)), h1);
      RefileBuffer(x);
      assert heads == old(heads)[x := heads[x]];
      Uncount(x);
      NotCached(State(), x);
    }

    /** The buffer is clean, unprotected and of no device. */
    method Cleanse(x: nat)
      requires Valid() && x in heads && heads[x].dev != B_FREE
      modifies this
      ensures Valid() && x in heads
      ensures heads
        == old(heads)[x := old(heads)[x].(dirty := false, keep := false, dev := NODEV, list := heads[x].list)]
    {
      hide Inv, Linked;
      MarkClean(x);
      ghost var h := heads[x];
      SetState(x, false, heads[x].locked, false, heads[x].uptodate);
      assert heads == old(heads)[x := h.(keep := false)];
      Forget(x);
    }

    /** grow_buffers, given a page and its buffer heads if there is memory for them. */
    method GrowBuffers(size: nat, page: Option, ids: seq<nat>) returns (ok: bool)
      requires Valid() && (page.Some? ==> NewIds(State(), page.head, ids))
      modifies this
      ensures Valid() && (ok <==> size % 512 == 0 && size <= PAGE_SIZE && page.Some?)
      ensures State() == if ok then Grown(old(State()), size, page.head, ids) else old(State())
    {
      if size % 512 != 0 || size > PAGE_SIZE || page.None? {
        return false;
      }
      hide Inv, Linked, SplicedIn, Spliced;
      assert ids != [];
      GrownInv(State(), hash, size, page.head, ids);
      Splice(size, page.head, ids);
      GrownLinked(old(Pointers()), old(State()), hash, size, page.head, ids, rings);
      freeList := freeList[size := ids[0]];
      heads := heads + NewHeads(ids, size, page.head);
      free := free[size := Spliced(ids, At(free, size))];
      pages := pages[page.head := ids];
      assert State() == Grown(old(State()), size, page.head, ids);
      ok := true;
    }

    /** The loop of grow_buffers that wires the new buffers in, each after the one before. */
    method Splice(size: nat, page: nat, ids: seq<nat>)
      requires Valid() && NewIds(State(), page, ids)
      modifies this`rings
      ensures SplicedIn(old(rings), rings, At(free, size), ids, |ids|)
    {
      hide Inv, Linked, NewIds, AllRings, SplicedIn;
      ghost var list, w0 := At(free, size), rings;
      SpliceStart(Pointers(), State(), hash, size, page, ids);
      assert AllRings(rings, freeList, free) by { TheRings(Pointers(), State(), {}); }
      FirstIs(rings, freeList, free, size);
      var point := Look(freeList, size);
      var i := 0;
      while i < |ids|
        invariant 0 <= i <= |ids| && SplicedIn(w0, rings, list, ids, i)
        invariant point == if i > 0 || list != [] then Some(InsertPoint(list, ids, i)) else None
      {
        var x := ids[i];
        SplicedMore(w0, rings, list, ids, i);
        if point.Some? {
          var y := point.head;
          rings := rings.(next := rings.next[x := rings.next[y]]);
          rings := rings.(prev := rings.prev[x := y]);
          rings := rings.(prev := rings.prev[rings.next[y] := x]);
          rings := rings.(next := rings.next[y := x]);
        } else {
          rings := Wires(rings.next[x := x], rings.prev[x := x]);
        }
        point := Some(x);
        i := i + 1;
      }
    }

    /** try_to_free_buffers: all buffers of a page, or none if one of them is in use. */
    method TryToFreeBuffers(page: nat) returns (ok: bool)
      requires Valid()
      modifies this
      ensures Valid()
      ensures ok <==> forall x :: x in old(heads) && old(heads)[x].page == page ==> !Busy(old(heads)[x])
      ensures ok <==> forall x :: x in old(heads) && old(heads)[x].page == page ==>
        (var h := old(heads)[x]; h.count == 0 && !h.dirty && !h.locked && !h.keep)
      ensures !ok ==> State() == old(State())
      ensures ok ==> forall x :: x in heads <==> x in old(heads) && old(heads)[x].page != page
      ensures ok ==> forall x :: x in heads ==> heads[x] == old(heads)[x]
    {
      hide LruOk, FreeOk, ChainsOk, OnceEach, CountsOk, Linked;
      var ids := At(pages, page);
      forall x ensures x in ids <==> x in heads && heads[x].page == page {}
      assert Distinct(ids);
      var idle := AllIdle(ids);
      if !idle {
        return false;
      }
      ghost var out := RemoveAll(ids);
      GiveBack(page, ids, out);
      ok := true;
    }

    /** The page and its buffers, which are on no list any more. */
    method GiveBack(page: nat, ids: seq<nat>, ghost out: set<nat>)
      requires Without(out) && ids == At(pages, page) && forall x :: x in out <==> x in ids
      modifies this`heads, this`pages
      ensures Valid() && heads == old(heads) - out
    {
      hide Inv, Linked;
      ReturnedInv(State(), hash, page, out);
      TouchedLinked(Pointers(), State(), Returned(State(), page, out), out, {});
      assert (set x | x in ids) == out;
      heads := heads - (set x | x in ids);
      pages := pages - {page};
      assert State() == Returned(old(State()), page, out) && Pointers() == old(Pointers());
    }

    method AllIdle(ids: seq<nat>) returns (idle: bool)
      requires forall x :: x in ids ==> x in heads
      ensures idle <==> forall x :: x in ids ==> !Busy(heads[x])
    {
      var i := 0;
      while i < |ids|
        invariant 0 <= i <= |ids| && forall j :: 0 <= j < i ==> !Busy(heads[ids[j]])
      {
        if Busy(heads[ids[i]]) {
          return false;
        }
        i := i + 1;
      }
      idle := true;
    }

    method RemoveAll(ids: seq<nat>) returns (ghost out: set<nat>)
      requires Valid() && Distinct(ids) && forall x :: x in ids ==> x in heads
      modifies this`chains, this`free, this`lru, this`nrType, this`rings, this`lruList, this`freeList
      modifies this`hooks
      ensures Without(out) && forall x :: x in out <==> x in ids
    {
      hide Inv, Linked, Removed;
      out := {};
      var i := 0;
      while i < |ids|
        invariant 0 <= i <= |ids| && Without(out)
        invariant forall x :: x in out <==> exists j :: 0 <= j < i && ids[j] == x
      {
        RemoveFromQueues(ids[i], out);
        out := out + {ids[i]};
        i := i + 1;
      }
    }
  }
}
