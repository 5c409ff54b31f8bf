/** The five timer vectors of the kernel: one slot per tick for the next 256 ticks, and four
    coarser vectors whose slots are cascaded down as their time comes. */
module TimerWheel {
  import opened Lists
  import opened Bits
  import opened TimerSpec

  const TVR_SIZE: nat := 256
  const TVN_SIZE: nat := 64

  /** A slot: vector lv (0 is tv1), index i. */
  datatype Slot = Slot(lv: nat, i: nat)

  /** The number of ticks a slot of vector lv stands for. */
  function Span(lv: nat): (s: nat)
    ensures s > 0
  {
    if lv == 0 then 1 else if lv == 1 then 256 else if lv == 2 then 16384 else if lv == 3 then 1048576 else 67108864
  }

  function Slots(lv: nat): nat {
    if lv == 0 then TVR_SIZE else TVN_SIZE
  }

  // ---- Where internal_add_timer puts a timer

  function SlotFor(expires: nat, timerJiffies: nat, rootIndex: nat): Slot {
    var idx := (expires + WORD - timerJiffies % WORD) % WORD;
    if idx < 256 then Slot(0, expires % 256)
    else if idx < 16384 then Slot(1, expires / 256 % 64)
    else if idx < 1048576 then Slot(2, expires / 16384 % 64)
    else if idx < 67108864 then Slot(3, expires / 1048576 % 64)
    else if idx >= HALF then Slot(0, rootIndex)
    else Slot(4, expires / 67108864 % 64)
  }

  /** Vector lv is next cascaded at tick next * Span(lv): either the first such tick from now
      on, or the first after now. */
  ghost predicate NextOk(now: nat, lv: nat, next: nat) {
    next == now / Span(lv) + 1 || (next == now / Span(lv) && now % Span(lv) == 0)
  }

  ghost predicate AllNextOk(now: nat, next: seq<nat>) {
    |next| == 5 && forall lv :: 1 <= lv < 5 ==> NextOk(now, lv, next[lv])
  }

  /** Slot s is the right place for a timer with deadline d: its next turn comes when d,
      rounded down to the span of the slot, does. */
  ghost predicate Spot(s: Slot, d: nat, expires: nat, now: nat, next: seq<nat>)
    requires |next| == 5
  {
    && d >= now && s.lv < 5
    && if s.lv == 0 then d < now + 256 && s.i == d % 256
       else
         && next[s.lv] <= d / Span(s.lv) < next[s.lv] + 64 && s.i == d / Span(s.lv) % 64
         && expires == d % WORD && d < now + HALF
  }

  lemma RootSlice(d: nat)
    ensures d % WORD % 256 == d % 256
  {
    assert d == 256 * (16777216 * (d / WORD)) + d % WORD;
  }

  lemma SliceOf(r: nat, s: nat, c: nat)
    requires s > 0
    ensures (64 * c * s + r) / s % 64 == r / s % 64
  {
    SliceParts(r, s, c, r / s, r % s);
  }

  lemma SliceParts(r: nat, s: nat, c: nat, y: nat, t: nat)
    requires t < s && r == y * s + t
    ensures (64 * c * s + r) / s % 64 == y % 64
  {
    Distribute(64 * c, y, s);
    DivModUnique(64 * c * s + r, s, 64 * c + y, t);
  }

  /** Reducing a deadline to 32 bits does not change its slot number. */
  lemma WordSlice(d: nat, lv: nat)
    requires 1 <= lv < 5
    ensures d % WORD / Span(lv) % 64 == d / Span(lv) % 64
  {
    var k, r := d / WORD, d % WORD;
    assert d == k * WORD + r;
    SliceOf(r, Span(lv), if lv == 1 then 262144 * k else if lv == 2 then 4096 * k else if lv == 3 then 64 * k else k);
  }

  lemma NearIsRight(now: nat, d: nat, expires: nat, next: seq<nat>)
    requires |next| == 5 && now <= d < now + 256 && expires % 256 == d % 256
    ensures Spot(Slot(0, expires % 256), d, expires, now, next)
  {
  }

  lemma FarIsRight(now: nat, d: nat, expires: nat, next: seq<nat>, lv: nat)
    requires AllNextOk(now, next) && 1 <= lv < 5 && now + Span(lv) <= d < now + 64 * Span(lv) && d < now + HALF
    requires expires == d % WORD
    ensures Spot(Slot(lv, expires / Span(lv) % 64), d, expires, now, next)
  {
    hide Span, NextOk;
    FarEnough(now, d, next, lv);
    WordSlice(d, lv);
  }

  /** internal_add_timer puts every timer in the right place. */
  lemma SlotIsRight(now: nat, expires: nat, next: seq<nat>)
    requires expires < WORD && AllNextOk(now, next)
    ensures Spot(SlotFor(expires, now % WORD, now % 256), Deadline(now, expires), expires, now, next)
  {
    hide NextOk, Spot, Span;
    assert Span(1) == 256 && Span(2) == 16384 && Span(3) == 1048576 && Span(4) == 67108864 by { Spans(); }
    var d := Deadline(now, expires);
    var ahead := (expires + WORD - now % WORD) % WORD;
    SameWord(now);
    if ahead >= HALF {
      RootSlice(now);
      assert Spot(Slot(0, now % 256), now, expires, now, next) by { PastIsRight(now, expires, next); }
    } else {
      ExpiresBack(now, expires);
      if ahead < 256 {
        RootSlice(d);
        NearIsRight(now, d, expires, next);
      } else {
        var lv := if ahead < 16384 then 1 else if ahead < 1048576 then 2 else if ahead < 67108864 then 3 else 4;
        FarIsRight(now, d, expires, next, lv);
      }
    }
  }

  lemma SameWord(now: nat)
    ensures now % WORD % WORD == now % WORD
  {
  }

  lemma ExpiresBack(now: nat, expires: nat)
    requires expires < WORD
    ensures (now + (expires + WORD - now % WORD) % WORD) % WORD == expires
  {
    assert now == WORD * (now / WORD) + now % WORD;
  }

  lemma Spans()
    ensures Span(1) == 256 && Span(2) == 16384 && Span(3) == 1048576 && Span(4) == 67108864
  {
  }

  lemma PastIsRight(now: nat, expires: nat, next: seq<nat>)
    requires |next| == 5
    ensures Spot(Slot(0, now % 256), now, expires, now, next)
  {
  }

  lemma FarEnough(now: nat, d: nat, next: seq<nat>, lv: nat)
    requires AllNextOk(now, next) && 1 <= lv < 5 && now + Span(lv) <= d < now + 64 * Span(lv)
    ensures next[lv] <= d / Span(lv) < next[lv] + 64
  {
    assert NextOk(now, lv, next[lv]);
  }

  /** When its slot comes up, a timer is due within one span, and so belongs further down. */
  lemma DueSoon(s: Slot, d: nat, expires: nat, now: nat, next: seq<nat>)
    requires |next| == 5 && 1 <= s.lv < 5 && Spot(s, d, expires, now, next) && s.i == next[s.lv] % 64
    requires now == next[s.lv] * Span(s.lv)
    ensures now <= d < now + Span(s.lv) && Deadline(now, expires) == d
    ensures SlotFor(expires, now % WORD, now % 256).lv < s.lv
  {
    hide Span;
    SameTurn(next[s.lv], d / Span(s.lv));
    WithinSpan(next[s.lv], d, Span(s.lv));
    assert (expires + WORD - now % WORD) % WORD == d - now by { BackAgain(now, d); }
    SoonerSlot(expires, now, d - now, s.lv);
  }

  lemma SameTurn(n: nat, q: nat)
    requires n <= q < n + 64 && q % 64 == n % 64
    ensures q == n
  {
  }

  lemma WithinSpan(n: nat, d: nat, span: nat)
    requires span > 0 && d / span == n
    ensures n * span <= d < n * span + span
  {
  }

  lemma SoonerSlot(expires: nat, now: nat, ahead: nat, lv: nat)
    requires (expires + WORD - now % WORD) % WORD == ahead && 1 <= lv < 5 && ahead < Span(lv)
    ensures SlotFor(expires, now % WORD, now % 256).lv < lv
  {
    SameWord(now);
  }

  lemma BackAgain(now: nat, d: nat)
    requires now <= d < now + HALF
    ensures (d % WORD + WORD - now % WORD) % WORD == d - now
  {
  }

  // ---- The lists of timers

  type Vec = seq<seq<seq<nat>>>

  ghost predicate Shaped(vec: Vec) {
    |vec| == 5 && forall lv :: 0 <= lv < 5 ==> |vec[lv]| == Slots(lv)
  }

  ghost predicate InRange(s: Slot) {
    s.lv < 5 && s.i < Slots(s.lv)
  }

  function At(vec: Vec, s: Slot): seq<nat>
    requires Shaped(vec) && InRange(s)
  {
    vec[s.lv][s.i]
  }

  function Put(vec: Vec, s: Slot, list: seq<nat>): (r: Vec)
    requires Shaped(vec) && InRange(s)
    ensures Shaped(r) && At(r, s) == list && forall t :: InRange(t) && t != s ==> At(r, t) == At(vec, t)
  {
    vec[s.lv := vec[s.lv][s.i := list]]
  }

  lemma PutPut(vec: Vec, s: Slot, l1: seq<nat>, l2: seq<nat>)
    requires Shaped(vec) && InRange(s)
    ensures Put(Put(vec, s, l1), s, l2) == Put(vec, s, l2)
  {
    var row: seq<seq<nat>> := vec[s.lv];
    assert row[s.i := l1][s.i := l2] == row[s.i := l2];
  }

  lemma PutSame(vec: Vec, s: Slot)
    requires Shaped(vec) && InRange(s)
    ensures Put(vec, s, At(vec, s)) == vec
  {
    assert vec[s.lv][s.i := vec[s.lv][s.i]] == vec[s.lv];
  }

  lemma PutSwap(vec: Vec, s: Slot, l1: seq<nat>, t: Slot, l2: seq<nat>)
    requires Shaped(vec) && InRange(s) && InRange(t) && s != t
    ensures Put(Put(vec, s, l1), t, l2) == Put(Put(vec, t, l2), s, l1)
  {
    if s.lv == t.lv {
      var row: seq<seq<nat>> := vec[s.lv];
      assert row[s.i := l1][t.i := l2] == row[t.i := l2][s.i := l1];
    }
  }

  /** The list in slot s holds, once each, the timers whose links say so. */
  ghost predicate ListOk(list: seq<nat>, place: map<nat, Slot>, s: Slot) {
    Distinct(list) && forall id :: id in list <==> id in place && place[id] == s
  }

  ghost predicate Linked(vec: Vec, place: map<nat, Slot>) {
    && Shaped(vec) && (forall id :: id in place ==> InRange(place[id]))
    && forall s :: InRange(s) ==> ListOk(At(vec, s), place, s)
  }

  /** insert_timer */
  lemma InsertKeeps(vec: Vec, place: map<nat, Slot>, id: nat, s: Slot)
    requires Linked(vec, place) && InRange(s) && id !in place
    ensures Linked(Put(vec, s, [id] + At(vec, s)), place[id := s])
  {
    var vec', place' := Put(vec, s, [id] + At(vec, s)), place[id := s];
    forall t | InRange(t) ensures ListOk(At(vec', t), place', t) {
      assert ListOk(At(vec, t), place, t);
      if t == s { JoinDistinct([id], At(vec, s)); }
    }
  }

  /** detach_timer */
  lemma DetachKeeps(vec: Vec, place: map<nat, Slot>, id: nat)
    requires Linked(vec, place) && id in place
    ensures Linked(Put(vec, place[id], Remove(At(vec, place[id]), id)), place - {id})
  {
    var s := place[id];
    var vec', place' := Put(vec, s, Remove(At(vec, s), id)), place - {id};
    forall t | InRange(t) ensures ListOk(At(vec', t), place', t) {
      assert ListOk(At(vec, t), place, t);
      if t == s { RemoveIs(At(vec, s), id); }
    }
  }

  /** Moving the first timer of slot s, its list seen as [id] + rest, to another slot. */
  lemma MoveKeeps(vec: Vec, place: map<nat, Slot>, s: Slot, id: nat, rest: seq<nat>, t: Slot)
    requires Shaped(vec) && InRange(s) && InRange(t) && s != t && Linked(Put(vec, s, [id] + rest), place)
    ensures Linked(Put(Put(vec, t, [id] + At(vec, t)), s, rest), place[id := t])
  {
    var v0 := Put(vec, s, [id] + rest);
    assert At(v0, s) == [id] + rest && ListOk(At(v0, s), place, s);
    assert id in At(v0, s);
    DetachKeeps(v0, place, id);
    assert Remove([id] + rest, id) == rest;
    PutPut(vec, s, [id] + rest, rest);
    InsertKeeps(Put(vec, s, rest), place - {id}, id, t);
    assert (place - {id})[id := t] == place[id := t];
    PutSwap(vec, s, rest, t, [id] + At(vec, t));
  }

  ghost predicate Placed(place: map<nat, Slot>, expires: map<nat, nat>, pending: map<nat, nat>, now: nat,
                         next: seq<nat>) {
    && |next| == 5 && place.Keys == pending.Keys
    && forall id :: id in place ==>
      id in expires && expires[id] < WORD && Spot(place[id], pending[id], expires[id], now, next)
  }

  lemma PlacedSet(place: map<nat, Slot>, expires: map<nat, nat>, pending: map<nat, nat>, now: nat, next: seq<nat>,
                  id: nat, s: Slot, d: nat, e: nat)
    requires Placed(place, expires, pending, now, next) && e < WORD && Spot(s, d, e, now, next)
    ensures Placed(place[id := s], expires[id := e], pending[id := d], now, next)
  {
  }

  lemma PlacedDrop(place: map<nat, Slot>, expires: map<nat, nat>, pending: map<nat, nat>, now: nat, next: seq<nat>,
                   id: nat)
    requires Placed(place, expires, pending, now, next)
    ensures Placed(place - {id}, expires, pending - {id}, now, next)
  {
  }

  /** A cascaded slot is empty, so the rest of its vector waits for a later turn. */
  lemma PlacedCascaded(place: map<nat, Slot>, expires: map<nat, nat>, pending: map<nat, nat>, now: nat,
                       next: seq<nat>, lv: nat)
    requires Placed(place, expires, pending, now, next) && 1 <= lv < 5
    requires forall id :: id in place ==> place[id] != Slot(lv, next[lv] % 64)
    ensures Placed(place, expires, pending, now, next[lv := next[lv] + 1])
  {
    var next' := next[lv := next[lv] + 1];
    forall id | id in place ensures Spot(place[id], pending[id], expires[id], now, next') {
      hide Span;
      if place[id].lv == lv {
        var q := pending[id] / Span(lv);
        assert q != next[lv];
      }
    }
  }

  lemma PlacedTicked(place: map<nat, Slot>, expires: map<nat, nat>, pending: map<nat, nat>, now: nat, next: seq<nat>)
    requires Placed(place, expires, pending, now, next) && forall id :: id in pending ==> pending[id] > now
    ensures Placed(place, expires, pending, now + 1, next)
  {
    hide Span;
  }

  // ---- Turns

  /** The state at the start of a tick: every vector's next turn is the first from now on. */
  ghost predicate AtHead(now: nat, next: seq<nat>) {
    |next| == 5 && forall lv :: 1 <= lv < 5 ==>
      next[lv] == if now % Span(lv) == 0 then now / Span(lv) else now / Span(lv) + 1
  }

  /** The state within a tick, once the vectors whose turn it is have been cascaded. */
  ghost predicate AtWork(now: nat, next: seq<nat>) {
    |next| == 5 && forall lv :: 1 <= lv < 5 ==> next[lv] == now / Span(lv) + 1
  }

  lemma TurnsTicked(now: nat, next: seq<nat>)
    requires AtWork(now, next)
    ensures AtHead(now + 1, next) && AllNextOk(now + 1, next)
  {
    forall lv | 1 <= lv < 5
      ensures next[lv] == if (now + 1) % Span(lv) == 0 then (now + 1) / Span(lv) else (now + 1) / Span(lv) + 1
    {
      TickOver(now, Span(lv));
    }
  }

  lemma TickOver(now: nat, s: nat)
    requires s > 0
    ensures if (now + 1) % s == 0 then (now + 1) / s == now / s + 1 else (now + 1) / s == now / s
  {
    var q, r := now / s, now % s;
    if r + 1 < s {
      DivModUnique(now + 1, s, q, r + 1);
    } else {
      Distribute(q, 1, s);
      DivModUnique(now + 1, s, q + 1, 0);
    }
  }

  /** Vectors 1 to n - 1 have had their turn at this tick, vector n is due. */
  ghost predicate Turn(now: nat, next: seq<nat>, n: nat) {
    && |next| == 5 && 1 <= n < 5 && now % Span(n) == 0
    && (forall lv :: 1 <= lv < n ==> next[lv] == now / Span(lv) + 1)
    && (forall lv :: n <= lv < 5 ==> next[lv] == if now % Span(lv) == 0 then now / Span(lv) else now / Span(lv) + 1)
  }

  lemma TurnsStart(now: nat, next: seq<nat>)
    requires AtHead(now, next)
    ensures AllNextOk(now, next)
    ensures now % 256 == 0 ==> Turn(now, next, 1)
    ensures now % 256 != 0 ==> AtWork(now, next)
  {
    assert Span(1) == 256;
    hide Span;
    if now % 256 != 0 {
      forall lv | 1 <= lv < 5 ensures now % Span(lv) != 0 { NoCoarserTurn(now, 1, lv); }
    }
  }

  lemma SpanUp(now: nat, n: nat)
    requires 1 <= n < 4
    ensures now % Span(n + 1) == 0 <==> now % Span(n) == 0 && now / Span(n) % 64 == 0
  {
    assert Span(n + 1) == Span(n) * 64;
    DivTwice(now, Span(n), 64);
    var t := now / Span(n) % 64;
    if t > 0 { MulMonotone(1, t, Span(n)); }
  }

  /** A tick that is not a turn of one vector is not a turn of any coarser one. */
  lemma {:induction false} NoCoarserTurn(now: nat, n: nat, lv: nat)
    requires 1 <= n <= lv < 5 && now % Span(n) != 0
    ensures now % Span(lv) != 0
    decreases lv
  {
    if n < lv {
      NoCoarserTurn(now, n, lv - 1);
      SpanUp(now, lv - 1);
    }
  }

  /** After a vector's turn, the next one is due exactly when the index has wrapped to one. */
  lemma TurnTaken(now: nat, next: seq<nat>, n: nat)
    requires Turn(now, next, n)
    ensures next[n] * Span(n) == now && AllNextOk(now, next) && AllNextOk(now, next[n := next[n] + 1])
    ensures (next[n] + 1) % 64 == 1 && n < 4 ==> Turn(now, next[n := next[n] + 1], n + 1)
    ensures (next[n] + 1) % 64 != 1 || n == 4 ==> AtWork(now, next[n := next[n] + 1])
  {
    hide Span;
    if n < 4 {
      SpanUp(now, n);
      if (next[n] + 1) % 64 != 1 {
        forall lv | n < lv < 5 ensures now % Span(lv) != 0 { NoCoarserTurn(now, n + 1, lv); }
      }
    }
  }
}
