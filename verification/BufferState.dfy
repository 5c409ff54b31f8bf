/** The buffer cache: every buffer head is on exactly one list, the hash chains find exactly
    what is cached, and no block is cached twice. */
module BufferState {
  import opened Lists

  const B_FREE: nat := 0xffff
  const NODEV: nat := 0
  const BUF_CLEAN: nat := 0
  const BUF_LOCKED: nat := 1
  const BUF_DIRTY: nat := 2
  const NR_LIST: nat := 3

  /** A struct buffer_head. `page` is the page its data is on. */
  datatype Head = Head(dev: nat, block: int, size: nat, count: int, list: nat, dirty: bool, locked: bool, keep: bool,
    uptodate: bool, page: nat)

  type Heads = map<nat, Head>
  type Queues = map<nat, seq<nat>>

  /** The list heads are named by list number, by size and by hash value. */
  datatype Cache = Cache(heads: Heads, lru: Queues, free: Queues, chains: Queues, nrType: map<nat, int>, pages: Queues)

  function At(q: Queues, k: nat): seq<nat> {
    if k in q then q[k] else []
  }

  function Count(n: map<nat, int>, k: nat): int {
    if k in n then n[k] else 0
  }

  predicate Hashable(h: Head) {
    h.dev != B_FREE && h.dev != NODEV
  }

  predicate Busy(h: Head) {
    h.count != 0 || h.dirty || h.locked || h.keep
  }

  /** x is a buffer head that is where it belongs. */
  ghost predicate Placed(s: Cache, out: set<nat>, x: nat) {
    x in s.heads && x !in out
  }

  ghost predicate OnLru(s: Cache, out: set<nat>, l: nat, x: nat) {
    Placed(s, out, x) && s.heads[x].dev != B_FREE && s.heads[x].list == l
  }

  ghost predicate OnFree(s: Cache, out: set<nat>, z: nat, x: nat) {
    Placed(s, out, x) && s.heads[x].dev == B_FREE && s.heads[x].size == z
  }

  ghost predicate OnChain(s: Cache, out: set<nat>, hash: (nat, int) -> nat, b: nat, x: nat) {
    Placed(s, out, x) && Hashable(s.heads[x]) && hash(s.heads[x].dev, s.heads[x].block) == b
  }

  /** The buffer of a block. */
  ghost predicate Caches(s: Cache, out: set<nat>, dev: nat, block: int, size: nat, x: nat) {
    Placed(s, out, x) && Hashable(s.heads[x]) && s.heads[x].dev == dev && s.heads[x].block == block
      && s.heads[x].size == size
  }

  ghost predicate LruOk(s: Cache, out: set<nat>) {
    && (forall l, x :: x in At(s.lru, l) <==> OnLru(s, out, l, x))
    && (forall l :: Distinct(At(s.lru, l)) && Count(s.nrType, l) == |At(s.lru, l)|)
  }

  ghost predicate FreeOk(s: Cache, out: set<nat>) {
    && (forall z, x :: x in At(s.free, z) <==> OnFree(s, out, z, x))
    && (forall z :: Distinct(At(s.free, z)))
    && (forall z, x :: OnFree(s, out, z, x) ==> !Busy(s.heads[x]))
  }

  ghost predicate ChainsOk(s: Cache, out: set<nat>, hash: (nat, int) -> nat) {
    && (forall b, x :: x in At(s.chains, b) <==> OnChain(s, out, hash, b, x))
    && (forall b :: Distinct(At(s.chains, b)))
  }

  ghost predicate OnceEach(s: Cache, out: set<nat>) {
    forall dev, block, size, x, y :: Caches(s, out, dev, block, size, x) && Caches(s, out, dev, block, size, y) ==>
      x == y
  }

  ghost predicate PagesOk(s: Cache) {
    && (forall p, x :: x in At(s.pages, p) <==> x in s.heads && s.heads[x].page == p)
    && (forall p :: Distinct(At(s.pages, p)))
  }

  ghost predicate CountsOk(s: Cache) {
    forall x :: x in s.heads ==> s.heads[x].count >= 0 && s.heads[x].list < NR_LIST
  }

  /** Everything is in order, except that those in `out` are on no list. */
  ghost predicate Inv(s: Cache, out: set<nat>, hash: (nat, int) -> nat) {
    out <= s.heads.Keys && LruOk(s, out) && FreeOk(s, out) && ChainsOk(s, out, hash) && OnceEach(s, out) && PagesOk(s)
      && CountsOk(s)
  }

  ghost predicate Ok(s: Cache, hash: (nat, int) -> nat) {
    Inv(s, {}, hash)
  }

  // ---- Taking a buffer out of its lists

  function Dropped(q: Queues, k: nat, x: nat): Queues {
    q[k := Remove(At(q, k), x)]
  }

  function Bumped(n: map<nat, int>, k: nat, d: int): map<nat, int> {
    n[k := Count(n, k) + d]
  }

  /** remove_from_queues */
  function Removed(s: Cache, hash: (nat, int) -> nat, x: nat): Cache
    requires x in s.heads
  {
    var h := s.heads[x];
    if h.dev == B_FREE then s.(free := Dropped(s.free, h.size, x))
    else
      s.(nrType := Bumped(s.nrType, h.list, -1), chains := if Hashable(h)
        then Dropped(s.chains, hash(h.dev, h.block), x) else s.chains,
         lru := Dropped(s.lru, h.list, x))
  }

  lemma RemovedLru(s: Cache, out: set<nat>, hash: (nat, int) -> nat, x: nat)
    requires LruOk(s, out) && Placed(s, out, x)
    ensures LruOk(Removed(s, hash, x), out + {x})
  {
    var s', h := Removed(s, hash, x), s.heads[x];
    forall l ensures Distinct(At(s'.lru, l)) && Count(s'.nrType, l) == |At(s'.lru, l)| {
      assert Distinct(At(s.lru, l)) && Count(s.nrType, l) == |At(s.lru, l)|;
      assert x in At(s.lru, l) <==> OnLru(s, out, l, x);
      RemoveIs(At(s.lru, l), x);
    }
    forall l, y ensures y in At(s'.lru, l) <==> OnLru(s', out + {x}, l, y) {
      assert Distinct(At(s.lru, l)) && (y in At(s.lru, l) <==> OnLru(s, out, l, y));
      RemoveIs(At(s.lru, l), x);
    }
  }

  lemma RemovedFree(s: Cache, out: set<nat>, hash: (nat, int) -> nat, x: nat)
    requires FreeOk(s, out) && Placed(s, out, x)
    ensures FreeOk(Removed(s, hash, x), out + {x})
  {
    var s', h := Removed(s, hash, x), s.heads[x];
    forall z ensures Distinct(At(s'.free, z)) {
      assert Distinct(At(s.free, z));
      RemoveIs(At(s.free, z), x);
    }
    forall z, y ensures y in At(s'.free, z) <==> OnFree(s', out + {x}, z, y) {
      assert Distinct(At(s.free, z)) && (y in At(s.free, z) <==> OnFree(s, out, z, y));
      RemoveIs(At(s.free, z), x);
    }
    forall z, y | OnFree(s', out + {x}, z, y) ensures !Busy(s'.heads[y]) { assert OnFree(s, out, z, y); }
  }

  lemma RemovedChains(s: Cache, out: set<nat>, hash: (nat, int) -> nat, x: nat)
    requires ChainsOk(s, out, hash) && Placed(s, out, x)
    ensures ChainsOk(Removed(s, hash, x), out + {x}, hash)
  {
    var s', h := Removed(s, hash, x), s.heads[x];
    forall b ensures Distinct(At(s'.chains, b)) {
      assert Distinct(At(s.chains, b));
      RemoveIs(At(s.chains, b), x);
    }
    forall b, y ensures y in At(s'.chains, b) <==> OnChain(s', out + {x}, hash, b, y) {
      assert Distinct(At(s.chains, b)) && (y in At(s.chains, b) <==> OnChain(s, out, hash, b, y));
      RemoveIs(At(s.chains, b), x);
    }
  }

  lemma RemovedOnce(s: Cache, out: set<nat>, hash: (nat, int) -> nat, x: nat)
    requires OnceEach(s, out) && x in s.heads
    ensures OnceEach(Removed(s, hash, x), out + {x})
  {
    var s' := Removed(s, hash, x);
    forall dev, block, size, y, z | Caches(s', out + {x}, dev, block, size, y)
      && Caches(s', out + {x}, dev, block, size, z)
      ensures y == z
    {
      assert Caches(s, out, dev, block, size, y) && Caches(s, out, dev, block, size, z);
    }
  }

  /** The buffer is on no list any more. */
  lemma RemovedInv(s: Cache, out: set<nat>, hash: (nat, int) -> nat, x: nat)
    requires Inv(s, out, hash) && Placed(s, out, x)
    ensures Inv(Removed(s, hash, x), out + {x}, hash) && Removed(s, hash, x).heads == s.heads
  {
    hide LruOk, FreeOk, ChainsOk, OnceEach;
    RemovedLru(s, out, hash, x);
    RemovedFree(s, out, hash, x);
    RemovedChains(s, out, hash, x);
    RemovedOnce(s, out, hash, x);
  }

  // ---- Changing a buffer that is on no list

  lemma ChangedInv(s: Cache, out: set<nat>, hash: (nat, int) -> nat, x: nat, h: Head)
    requires Inv(s, out, hash) && x in out && h.page == s.heads[x].page && h.count >= 0 && h.list < NR_LIST
    ensures Inv(s.(heads := s.heads[x := h]), out, hash)
  {
    var s' := s.(heads := s.heads[x := h]);
    assert LruOk(s', out) by {
      forall l, y
        ensures y in At(s'.lru, l) <==> OnLru(s', out, l, y)
      {
        assert y in At(s.lru, l) <==> OnLru(s, out, l, y);
      }
    }
    assert FreeOk(s', out) by {
      forall z, y
        ensures y in At(s'.free, z) <==> OnFree(s', out, z, y)
      {
        assert y in At(s.free, z) <==> OnFree(s, out, z, y);
      }
      forall z, y | OnFree(s', out, z, y) ensures !Busy(s'.heads[y]) { assert OnFree(s, out, z, y); }
    }
    assert ChainsOk(s', out, hash) by {
      forall b, y
        ensures y in At(s'.chains, b) <==> OnChain(s', out, hash, b, y)
      {
        assert y in At(s.chains, b) <==> OnChain(s, out, hash, b, y);
      }
    }
    assert OnceEach(s', out) by {
      forall dev, block, size, y, z | Caches(s', out, dev, block, size, y) && Caches(s', out, dev, block, size, z)
        ensures y == z
      {
        assert Caches(s, out, dev, block, size, y) && Caches(s, out, dev, block, size, z);
      }
    }
  }

  // ---- Putting a buffer into its lists

  /** insert_into_queues: at the end of its list and the front of its hash chain. */
  function Inserted(s: Cache, hash: (nat, int) -> nat, x: nat): Cache
    requires x in s.heads
  {
    var h := s.heads[x];
    if h.dev == B_FREE then s.(free := s.free[h.size := At(s.free, h.size) + [x]])
    else
      s.(nrType := Bumped(s.nrType, h.list, 1), lru := s.lru[h.list := At(s.lru, h.list) + [x]],
         chains := if Hashable(h) then (var b := hash(h.dev, h.block); s.chains[b := [x] + At(s.chains, b)])
           else s.chains)
  }

  lemma InsertedLru(s: Cache, out: set<nat>, hash: (nat, int) -> nat, x: nat)
    requires LruOk(s, out) && x in out && x in s.heads
    ensures LruOk(Inserted(s, hash, x), out - {x})
  {
    var s', h := Inserted(s, hash, x), s.heads[x];
    forall l ensures Distinct(At(s'.lru, l)) && Count(s'.nrType, l) == |At(s'.lru, l)| {
      assert Distinct(At(s.lru, l)) && Count(s.nrType, l) == |At(s.lru, l)|
        && (x in At(s.lru, l) <==> OnLru(s, out, l, x));
      JoinDistinct(At(s.lru, l), [x]);
    }
    forall l, y ensures y in At(s'.lru, l) <==> OnLru(s', out - {x}, l, y) {
      assert y in At(s.lru, l) <==> OnLru(s, out, l, y);
    }
  }

  lemma InsertedFree(s: Cache, out: set<nat>, hash: (nat, int) -> nat, x: nat)
    requires FreeOk(s, out) && x in out && x in s.heads && (s.heads[x].dev == B_FREE ==> !Busy(s.heads[x]))
    ensures FreeOk(Inserted(s, hash, x), out - {x})
  {
    var s', h := Inserted(s, hash, x), s.heads[x];
    forall z ensures Distinct(At(s'.free, z)) {
      assert Distinct(At(s.free, z)) && (x in At(s.free, z) <==> OnFree(s, out, z, x));
      JoinDistinct(At(s.free, z), [x]);
    }
    forall z, y ensures y in At(s'.free, z) <==> OnFree(s', out - {x}, z, y) {
      assert y in At(s.free, z) <==> OnFree(s, out, z, y);
    }
    forall z, y | OnFree(s', out - {x}, z, y) ensures !Busy(s'.heads[y]) { assert y == x || OnFree(s, out, z, y); }
  }

  lemma InsertedChains(s: Cache, out: set<nat>, hash: (nat, int) -> nat, x: nat)
    requires ChainsOk(s, out, hash) && x in out && x in s.heads
    ensures ChainsOk(Inserted(s, hash, x), out - {x}, hash)
  {
    var s', h := Inserted(s, hash, x), s.heads[x];
    forall b ensures Distinct(At(s'.chains, b)) {
      assert Distinct(At(s.chains, b)) && (x in At(s.chains, b) <==> OnChain(s, out, hash, b, x));
      JoinDistinct([x], At(s.chains, b));
    }
    forall b, y ensures y in At(s'.chains, b) <==> OnChain(s', out - {x}, hash, b, y) {
      assert y in At(s.chains, b) <==> OnChain(s, out, hash, b, y);
    }
  }

  /** No other buffer has the block that x is to have. */
  ghost predicate Fresh(s: Cache, out: set<nat>, x: nat)
    requires x in s.heads
  {
    var h := s.heads[x];
    forall y :: !Caches(s, out, h.dev, h.block, h.size, y)
  }

  lemma InsertedOnce(s: Cache, out: set<nat>, hash: (nat, int) -> nat, x: nat)
    requires OnceEach(s, out) && x in s.heads && Fresh(s, out, x)
    ensures OnceEach(Inserted(s, hash, x), out - {x})
  {
    var s' := Inserted(s, hash, x);
    forall dev, block, size, y, z | Caches(s', out - {x}, dev, block, size, y)
      && Caches(s', out - {x}, dev, block, size, z)
      ensures y == z
    {
      assert y == x || Caches(s, out, dev, block, size, y);
      assert z == x || Caches(s, out, dev, block, size, z);
    }
  }

  lemma InsertedInv(s: Cache, out: set<nat>, hash: (nat, int) -> nat, x: nat)
    requires Inv(s, out, hash) && x in out && Fresh(s, out, x) && (s.heads[x].dev == B_FREE ==> !Busy(s.heads[x]))
    ensures Inv(Inserted(s, hash, x), out - {x}, hash) && Inserted(s, hash, x).heads == s.heads
  {
    hide LruOk, FreeOk, ChainsOk, OnceEach, Fresh;
    InsertedLru(s, out, hash, x);
    InsertedFree(s, out, hash, x);
    InsertedChains(s, out, hash, x);
    InsertedOnce(s, out, hash, x);
  }

  // ---- Changes that move nothing

  /** The same place on all lists. */
  ghost predicate SamePlace(h: Head, h': Head) {
    h'.dev == h.dev && h'.block == h.block && h'.size == h.size && h'.list == h.list && h'.page == h.page
  }

  lemma TouchedInv(s: Cache, out: set<nat>, hash: (nat, int) -> nat, x: nat, h: Head)
    requires Inv(s, out, hash) && x in s.heads && SamePlace(s.heads[x], h) && h.count >= 0 && h.dev != B_FREE
    ensures Inv(s.(heads := s.heads[x := h]), out, hash)
  {
    var s' := s.(heads := s.heads[x := h]);
    assert LruOk(s', out) by {
      forall l, y
        ensures y in At(s'.lru, l) <==> OnLru(s', out, l, y)
      {
        assert y in At(s.lru, l) <==> OnLru(s, out, l, y);
      }
    }
    assert FreeOk(s', out) by {
      forall z, y
        ensures y in At(s'.free, z) <==> OnFree(s', out, z, y)
      {
        assert y in At(s.free, z) <==> OnFree(s, out, z, y);
      }
      forall z, y | OnFree(s', out, z, y) ensures !Busy(s'.heads[y]) { assert OnFree(s, out, z, y); }
    }
    assert ChainsOk(s', out, hash) by {
      forall b, y
        ensures y in At(s'.chains, b) <==> OnChain(s', out, hash, b, y)
      {
        assert y in At(s.chains, b) <==> OnChain(s, out, hash, b, y);
      }
    }
    assert OnceEach(s', out) by {
      forall dev, block, size, y, z | Caches(s', out, dev, block, size, y) && Caches(s', out, dev, block, size, z)
        ensures y == z
      {
        assert Caches(s, out, dev, block, size, y) && Caches(s, out, dev, block, size, z);
      }
    }
  }

  /** put_last_lru: the buffer becomes the most recently used of its list. */
  function Recent(s: Cache, x: nat): Cache
    requires x in s.heads
  {
    var l := s.heads[x].list;
    s.(lru := s.lru[l := Remove(At(s.lru, l), x) + [x]])
  }

  lemma RecentInv(s: Cache, hash: (nat, int) -> nat, x: nat)
    requires Inv(s, {}, hash) && x in s.heads && s.heads[x].dev != B_FREE
    ensures Inv(Recent(s, x), {}, hash)
  {
    var s', l := Recent(s, x), s.heads[x].list;
    assert Distinct(At(s.lru, l)) && (x in At(s.lru, l) <==> OnLru(s, {}, l, x));
    RemoveIs(At(s.lru, l), x);
    JoinDistinct(Remove(At(s.lru, l), x), [x]);
    assert LruOk(s', {}) by {
      forall k, y
        ensures y in At(s'.lru, k) <==> OnLru(s', {}, k, y)
      {
        assert y in At(s.lru, k) <==> OnLru(s, {}, k, y);
      }
      forall k
        ensures Distinct(At(s'.lru, k)) && Count(s'.nrType, k) == |At(s'.lru, k)|
      {
        assert Distinct(At(s.lru, k)) && Count(s.nrType, k) == |At(s.lru, k)|;
      }
    }
    SameHeads(s, s', {}, hash);
  }

  /** What does not depend on the lists of used buffers. */
  lemma SameHeads(s: Cache, s': Cache, out: set<nat>, hash: (nat, int) -> nat)
    requires Inv(s, out, hash) && s'.heads == s.heads && s'.free == s.free && s'.chains == s.chains
    requires s'.pages == s.pages
    ensures FreeOk(s', out) && ChainsOk(s', out, hash) && OnceEach(s', out) && PagesOk(s') && CountsOk(s')
  {
    assert FreeOk(s', out) by {
      forall z, y
        ensures y in At(s'.free, z) <==> OnFree(s', out, z, y)
      {
        assert y in At(s.free, z) <==> OnFree(s, out, z, y);
      }
      forall z, y | OnFree(s', out, z, y) ensures !Busy(s'.heads[y]) { assert OnFree(s, out, z, y); }
    }
    assert ChainsOk(s', out, hash) by {
      forall b, y
        ensures y in At(s'.chains, b) <==> OnChain(s', out, hash, b, y)
      {
        assert y in At(s.chains, b) <==> OnChain(s, out, hash, b, y);
      }
    }
    assert OnceEach(s', out) by {
      forall dev, block, size, y, z | Caches(s', out, dev, block, size, y) && Caches(s', out, dev, block, size, z)
        ensures y == z
      {
        assert Caches(s, out, dev, block, size, y) && Caches(s, out, dev, block, size, z);
      }
    }
  }

  // ---- Moving a buffer to another list

  /** file_buffer */
  function Filed(s: Cache, hash: (nat, int) -> nat, x: nat, list: nat): Cache
    requires x in s.heads
  {
    var s1 := Removed(s, hash, x);
    var s2 := s1.(heads := s1.heads[x := s1.heads[x].(list := list)]);
    Inserted(s2, hash, x)
  }

  lemma OnlyOne(s: Cache, hash: (nat, int) -> nat, x: nat, list: nat)
    requires OnceEach(s, {}) && x in s.heads
    ensures var s1 := Removed(s, hash, x); Fresh(s1.(heads := s1.heads[x := s1.heads[x].(list := list)]), {x}, x)
  {
    var s1 := Removed(s, hash, x);
    var (s2, h) := (s1.(heads := s1.heads[x := s1.heads[x].(list := list)]), s.heads[x]);
    forall y ensures !Caches(s2, {x}, h.dev, h.block, h.size, y) {
      if Caches(s2, {x}, h.dev, h.block, h.size, y) {
        assert Caches(s, {}, h.dev, h.block, h.size, y) && Caches(s, {}, h.dev, h.block, h.size, x);
      }
    }
  }

  lemma FiledInv(s: Cache, hash: (nat, int) -> nat, x: nat, list: nat)
    requires Inv(s, {}, hash) && x in s.heads && s.heads[x].dev != B_FREE && list < NR_LIST
    ensures Inv(Filed(s, hash, x, list), {}, hash)
    ensures Filed(s, hash, x, list).heads == s.heads[x := s.heads[x].(list := list)]
  {
    hide LruOk, FreeOk, ChainsOk, OnceEach, PagesOk, Removed, Inserted;
    assert Placed(s, {}, x) && {} + {x} == {x} && {x} - {x} == {};
    RemovedInv(s, {}, hash, x);
    var s1 := Removed(s, hash, x);
    assert s1.heads[x].count >= 0 && s1.heads[x].list < NR_LIST;
    ChangedInv(s1, {x}, hash, x, s1.heads[x].(list := list));
    OnlyOne(s, hash, x, list);
    InsertedInv(s1.(heads := s1.heads[x := s1.heads[x].(list := list)]), {x}, hash, x);
  }

  // ---- Forgetting a block

  /** The buffer leaves its hash chain and has no device any more. */
  function Forgotten(s: Cache, hash: (nat, int) -> nat, x: nat): Cache
    requires x in s.heads
  {
    var h := s.heads[x];
    s.(heads := s.heads[x := h.(dev := NODEV)], chains := if Hashable(h)
      then Dropped(s.chains, hash(h.dev, h.block), x) else s.chains)
  }

  lemma ForgottenInv(s: Cache, hash: (nat, int) -> nat, x: nat)
    requires Inv(s, {}, hash) && x in s.heads && s.heads[x].dev != B_FREE
    ensures Inv(Forgotten(s, hash, x), {}, hash)
  {
    var s' := Forgotten(s, hash, x);
    assert LruOk(s', {}) by {
      forall l, y
        ensures y in At(s'.lru, l) <==> OnLru(s', {}, l, y)
      {
        assert y in At(s.lru, l) <==> OnLru(s, {}, l, y);
      }
      forall l
        ensures Distinct(At(s'.lru, l)) && Count(s'.nrType, l) == |At(s'.lru, l)|
      {
        assert Distinct(At(s.lru, l)) && Count(s.nrType, l) == |At(s.lru, l)|;
      }
    }
    assert FreeOk(s', {}) by {
      forall z, y
        ensures y in At(s'.free, z) <==> OnFree(s', {}, z, y)
      {
        assert y in At(s.free, z) <==> OnFree(s, {}, z, y);
      }
      forall z ensures Distinct(At(s'.free, z)) { assert Distinct(At(s.free, z)); }
      forall z, y | OnFree(s', {}, z, y) ensures !Busy(s'.heads[y]) { assert OnFree(s, {}, z, y); }
    }
    ForgottenChains(s, hash, x);
    assert OnceEach(s', {}) by {
      forall dev, block, size, y, z | Caches(s', {}, dev, block, size, y) && Caches(s', {}, dev, block, size, z)
        ensures y == z
      {
        assert Caches(s, {}, dev, block, size, y) && Caches(s, {}, dev, block, size, z);
      }
    }
  }

  lemma ForgottenChains(s: Cache, hash: (nat, int) -> nat, x: nat)
    requires ChainsOk(s, {}, hash) && x in s.heads
    ensures ChainsOk(Forgotten(s, hash, x), {}, hash)
  {
    var s' := Forgotten(s, hash, x);
    forall b ensures Distinct(At(s'.chains, b)) {
      assert Distinct(At(s.chains, b));
      RemoveIs(At(s.chains, b), x);
    }
    forall b, y ensures y in At(s'.chains, b) <==> OnChain(s', {}, hash, b, y) {
      assert Distinct(At(s.chains, b)) && (y in At(s.chains, b) <==> OnChain(s, {}, hash, b, y));
      RemoveIs(At(s.chains, b), x);
    }
  }

  // ---- Making buffers, and giving them back

  function FreeHead(size: nat, page: nat): Head {
    Head(B_FREE, 0, size, 0, BUF_CLEAN, false, false, false, false, page)
  }

  function NewHeads(ids: seq<nat>, size: nat, page: nat): Heads {
    map x | x in ids :: FreeHead(size, page)
  }

  /** Where grow_buffers puts the new ones: after the first of the list, which then becomes the
      last. */
  function Spliced(ids: seq<nat>, free: seq<nat>): seq<nat> {
    if free == [] then ids else ids + free[1..] + [free[0]]
  }

  function Grown(s: Cache, size: nat, page: nat, ids: seq<nat>): Cache {
    s.(heads := s.heads + NewHeads(ids, size, page), free := s.free[size := Spliced(ids, At(s.free, size))],
      pages := s.pages[page := ids])
  }

  lemma SplicedIs(ids: seq<nat>, free: seq<nat>)
    requires Distinct(ids) && Distinct(free) && forall x :: x in ids ==> x !in free
    ensures Distinct(Spliced(ids, free)) && forall x :: x in Spliced(ids, free) <==> x in ids || x in free
  {
    if free != [] {
      assert free == [free[0]] + free[1..];
      assert free[0] !in free[1..] && Distinct(free[1..]);
      JoinDistinct(ids, free[1..]);
      JoinDistinct(ids + free[1..], [free[0]]);
    }
  }

  ghost predicate NewIds(s: Cache, page: nat, ids: seq<nat>) {
    ids != [] && Distinct(ids) && (forall x :: x in ids ==> x !in s.heads) && At(s.pages, page) == []
  }

  lemma GrownFree(s: Cache, hash: (nat, int) -> nat, size: nat, page: nat, ids: seq<nat>)
    requires Inv(s, {}, hash) && NewIds(s, page, ids)
    ensures FreeOk(Grown(s, size, page, ids), {})
  {
    var s' := Grown(s, size, page, ids);
    forall x | x in At(s.free, size) ensures x in s.heads { assert OnFree(s, {}, size, x); }
    assert Distinct(At(s.free, size));
    SplicedIs(ids, At(s.free, size));
    forall z, y
      ensures y in At(s'.free, z) <==> OnFree(s', {}, z, y)
    {
      assert y in At(s.free, z) <==> OnFree(s, {}, z, y);
    }
    forall z ensures Distinct(At(s'.free, z)) { assert Distinct(At(s.free, z)); }
    forall z, y | OnFree(s', {}, z, y) ensures !Busy(s'.heads[y]) { assert y in ids || OnFree(s, {}, z, y); }
  }

  lemma GrownPages(s: Cache, hash: (nat, int) -> nat, size: nat, page: nat, ids: seq<nat>)
    requires Inv(s, {}, hash) && NewIds(s, page, ids)
    ensures PagesOk(Grown(s, size, page, ids))
  {
    var s' := Grown(s, size, page, ids);
    forall p, x ensures x in At(s'.pages, p) <==> x in s'.heads && s'.heads[x].page == p {
      assert x in At(s.pages, p) <==> x in s.heads && s.heads[x].page == p;
    }
    forall p ensures Distinct(At(s'.pages, p)) { assert Distinct(At(s.pages, p)); }
  }

  lemma GrownInv(s: Cache, hash: (nat, int) -> nat, size: nat, page: nat, ids: seq<nat>)
    requires Inv(s, {}, hash) && NewIds(s, page, ids)
    ensures Inv(Grown(s, size, page, ids), {}, hash)
  {
    var s' := Grown(s, size, page, ids);
    GrownFree(s, hash, size, page, ids);
    GrownPages(s, hash, size, page, ids);
    assert LruOk(s', {}) by {
      forall l, y
        ensures y in At(s'.lru, l) <==> OnLru(s', {}, l, y)
      {
        assert y in At(s.lru, l) <==> OnLru(s, {}, l, y);
      }
      forall l
        ensures Distinct(At(s'.lru, l)) && Count(s'.nrType, l) == |At(s'.lru, l)|
      {
        assert Distinct(At(s.lru, l)) && Count(s.nrType, l) == |At(s.lru, l)|;
      }
    }
    assert ChainsOk(s', {}, hash) by {
      forall b, y
        ensures y in At(s'.chains, b) <==> OnChain(s', {}, hash, b, y)
      {
        assert y in At(s.chains, b) <==> OnChain(s, {}, hash, b, y);
      }
      forall b ensures Distinct(At(s'.chains, b)) { assert Distinct(At(s.chains, b)); }
    }
    assert OnceEach(s', {}) by {
      forall dev, block, size', y, z | Caches(s', {}, dev, block, size', y) && Caches(s', {}, dev, block, size', z)
        ensures y == z
      {
        assert Caches(s, {}, dev, block, size', y) && Caches(s, {}, dev, block, size', z);
      }
    }
  }

  /** The page and its buffers, which are on no list any more, are given back. */
  function Returned(s: Cache, page: nat, ids: set<nat>): Cache {
    s.(heads := s.heads - ids, pages := s.pages - {page})
  }

  lemma ReturnedInv(s: Cache, hash: (nat, int) -> nat, page: nat, ids: set<nat>)
    requires Inv(s, ids, hash) && forall x :: x in ids <==> x in At(s.pages, page)
    ensures Inv(Returned(s, page, ids), {}, hash)
  {
    var s' := Returned(s, page, ids);
    assert LruOk(s', {}) by {
      forall l, y
        ensures y in At(s'.lru, l) <==> OnLru(s', {}, l, y)
      {
        assert y in At(s.lru, l) <==> OnLru(s, ids, l, y);
      }
      forall l
        ensures Distinct(At(s'.lru, l)) && Count(s'.nrType, l) == |At(s'.lru, l)|
      {
        assert Distinct(At(s.lru, l)) && Count(s.nrType, l) == |At(s.lru, l)|;
      }
    }
    assert FreeOk(s', {}) by {
      forall z, y
        ensures y in At(s'.free, z) <==> OnFree(s', {}, z, y)
      {
        assert y in At(s.free, z) <==> OnFree(s, ids, z, y);
      }
      forall z ensures Distinct(At(s'.free, z)) { assert Distinct(At(s.free, z)); }
      forall z, y | OnFree(s', {}, z, y) ensures !Busy(s'.heads[y]) { assert OnFree(s, ids, z, y); }
    }
    assert ChainsOk(s', {}, hash) by {
      forall b, y
        ensures y in At(s'.chains, b) <==> OnChain(s', {}, hash, b, y)
      {
        assert y in At(s.chains, b) <==> OnChain(s, ids, hash, b, y);
      }
      forall b ensures Distinct(At(s'.chains, b)) { assert Distinct(At(s.chains, b)); }
    }
    assert OnceEach(s', {}) by {
      forall dev, block, size, y, z | Caches(s', {}, dev, block, size, y) && Caches(s', {}, dev, block, size, z)
        ensures y == z
      {
        assert Caches(s, ids, dev, block, size, y) && Caches(s, ids, dev, block, size, z);
      }
    }
    assert PagesOk(s') by {
      forall p, x ensures x in At(s'.pages, p) <==> x in s'.heads && s'.heads[x].page == p {
        assert x in At(s.pages, p) <==> x in s.heads && s.heads[x].page == p;
        assert x in At(s.pages, page) <==> x in s.heads && s.heads[x].page == page;
      }
      forall p ensures Distinct(At(s'.pages, p)) { assert Distinct(At(s.pages, p)); }
    }
  }
}
