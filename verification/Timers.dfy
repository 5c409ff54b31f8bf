/** The timer functions of kernel/sched.c over the pointers of the wheel: add, modify, delete,
    cascade, and the loop that runs expired timers. */
module Timers {
  import opened Lists
  import opened Chains
  import opened TimerSpec
  import opened TimerWheel
  import opened TimerLinks
  import opened TimerCalls

  class Wheel {
    /** The pointers in tv1 to tv5 and in the timers, the indices, timer_jiffies, and each timer's
        expiry time. */
    var hooks: Hooks
    var index: seq<nat>
    var timerJiffies: nat
    var expires: map<nat, nat>

    /** The lists that the pointers make up, and the slot of each timer. */
    ghost var vec: Vec
    ghost var place: map<nat, Slot>
    ghost var now: nat
    ghost var next: seq<nat>
    ghost var pending: map<nat, nat>

    ghost predicate Valid()
      reads this
    {
      && Linked(vec, place) && Placed(place, expires, pending, now, next) && AllNextOk(now, next)
      && timerJiffies == now % WORD && Indexed() && Pointed()
    }

    ghost predicate Pointed()
      reads this
    {
      Shaped(vec) && Threaded(hooks, vec) && Held(hooks, place)
    }

    ghost predicate Indexed()
      reads this
    {
      |index| == 5 && |next| == 5 && index[0] == now % 256 && forall lv :: 1 <= lv < 5 ==> index[lv] == next[lv] % 64
    }

    ghost function View(): Bag
      reads this
    {
      Bag(now, pending)
    }

    constructor ()
      ensures Valid() && AtHead(now, next) && View() == Bag(0, map[])
    {
      vec := [seq(256, _ => []), seq(64, _ => []), seq(64, _ => []), seq(64, _ => []), seq(64, _ => [])];
      index := [0, 0, 0, 0, 0];
      timerJiffies, place, expires, hooks := 0, map[], map[], Hooks(map[], map[], map[]);
      now, next, pending := 0, [0, 0, 0, 0, 0], map[];
    }

    /** insert_timer */
    method InsertTimer(id: nat, s: Slot)
      requires Shaped(vec) && InRange(s)
      modifies this`vec, this`place, this`hooks
      ensures vec == Put(old(vec), s, [id] + At(old(vec), s)) && place == old(place)[id := s]
      ensures hooks == Pushed(old(hooks), Key(s), id)
    {
      var first := Look(hooks.first, Key(s));
      hooks := hooks.(next := Store(hooks.next, id, first));
      if first.Some? {
        hooks := hooks.(pprev := hooks.pprev[first.head := InNode(id)]);
      }
      hooks := hooks.(first := hooks.first[Key(s) := id]);
      hooks := hooks.(pprev := hooks.pprev[id := Top(Key(s))]);
      vec, place := Put(vec, s, [id] + At(vec, s)), place[id := s];
    }

    method InternalAddTimer(id: nat)
      requires Shaped(vec) && id in expires && expires[id] < WORD
      requires |index| == 5 && index[0] < 256
      modifies this`vec, this`place, this`hooks
      ensures InRange(SlotFor(expires[id], timerJiffies, index[0]))
      ensures vec
        == Put(old(vec), SlotFor(expires[id], timerJiffies, index[0]),
          [id] + At(old(vec), SlotFor(expires[id], timerJiffies, index[0])))
      ensures place == old(place)[id := SlotFor(expires[id], timerJiffies, index[0])]
      ensures hooks == Pushed(old(hooks), Key(SlotFor(expires[id], timerJiffies, index[0])), id)
      ensures AllNextOk(now, next) && timerJiffies == now % WORD && index[0] == now % 256 ==>
        Spot(place[id], Deadline(now, expires[id]), expires[id], now, next)
    {
      hide Put, Pushed, Shaped, Spot, AllNextOk, Deadline;
      if AllNextOk(now, next) { SlotIsRight(now, expires[id], next); }
      var e := expires[id];
      var idx := (e + WORD - timerJiffies % WORD) % WORD;
      var s: Slot;
      if idx < 256 {
        s := Slot(0, e % 256);
      } else if idx < 16384 {
        s := Slot(1, e / 256 % 64);
      } else if idx < 1048576 {
        s := Slot(2, e / 16384 % 64);
      } else if idx < 67108864 {
        s := Slot(3, e / 1048576 % 64);
      } else if idx >= HALF {
        s := Slot(0, index[0]);
      } else {
        s := Slot(4, e / 67108864 % 64);
      }
      InsertTimer(id, s);
    }

    /** add_timer of a timer that is not pending. */
    method AddTimer(id: nat, e: nat)
      requires Valid() && id !in place && e < WORD
      modifies this`vec, this`place, this`hooks, this`expires, this`pending
      ensures Valid() && Enabled(old(View()), Added(id, e)) && View() == Next(old(View()), Added(id, e))
    {
      hide Linked, Spot, Put, NextOk, SlotFor, Deadline, Threaded, Held, Pushed;
      expires := expires[id := e];
      LinkedShape(vec, place);
      assert index[0] < 256;
      InternalAddTimer(id);
      InsertKeeps(old(vec), old(place), id, place[id]);
      PushTimer(old(hooks), old(vec), old(place), place[id], id);
      PlacedSet(old(place), old(expires), pending, now, next, id, place[id], Deadline(now, e), e);
      pending := pending[id := Deadline(now, e)];
    }

    /** detach_timer, and clearing the timer's pointers; says whether it was pending. */
    method DetachTimer(id: nat) returns (was: bool)
      requires Valid()
      modifies this`vec, this`place, this`hooks, this`pending
      ensures Valid() && was == (id in old(pending)) && pending == old(pending) - {id} && id !in place
      ensures expires == old(expires)
    {
      hide Linked, Placed, Put, AllNextOk, At, Threaded, Pulled;
      assert place.Keys == pending.Keys by { SameKeys(place, expires, pending, now, next); }
      was := id in hooks.pprev;
      if was {
        ghost var s := place[id];
        LinkedShape(vec, place);
        DetachKeeps(vec, place, id);
        PullTimer(hooks, vec, place, id);
        Unhook(id);
        vec := Put(vec, s, Remove(At(vec, s), id));
        place := place - {id};
        PlacedDrop(old(place), expires, pending, now, next, id);
        pending := pending - {id};
      } else {
        assert id !in pending && pending - {id} == pending;
      }
    }

    method Unhook(id: nat)
      requires id in hooks.pprev
      modifies this`hooks
      ensures hooks == Pulled(old(hooks), id)
    {
      var prev, after := hooks.pprev[id], Look(hooks.next, id);
      hooks := hooks.(next := hooks.next - {id});
      match prev {
        case Top(b) => hooks := hooks.(first := Store(hooks.first, b, after));
        case InNode(y) => hooks := hooks.(next := Store(hooks.next, y, after));
      }
      if after.Some? {
        hooks := hooks.(pprev := hooks.pprev[after.head := prev]);
      }
      hooks := hooks.(pprev := hooks.pprev - {id});
    }

    method ModTimer(id: nat, e: nat)
      requires Valid() && e < WORD
      modifies this`vec, this`place, this`hooks, this`expires, this`pending
      ensures Valid() && View() == Next(old(View()), Modified(id, e))
    {
      hide Linked, Spot, Put, NextOk, Deadline, Threaded, Held;
      var was := DetachTimer(id);
      AddTimer(id, e);
      assert (old(pending) - {id})[id := Deadline(now, e)] == old(pending)[id := Deadline(now, e)];
    }

    method DelTimer(id: nat) returns (ret: bool)
      requires Valid()
      modifies this`vec, this`place, this`hooks, this`pending
      ensures Valid() && View() == Next(old(View()), Deleted(id)) && ret == (id in old(pending))
    {
      ret := DetachTimer(id);
    }

    /** Moves every timer of the slot whose turn it is to a finer vector. */
    method CascadeTimers(n: nat)
      requires Valid() && 1 <= n < 5 && now == next[n] * Span(n) && AllNextOk(now, next[n := next[n] + 1])
      modifies this`vec, this`place, this`hooks, this`index, this`next
      ensures Valid() && next == old(next)[n := old(next)[n] + 1] && index[n] == (old(index)[n] + 1) % 64
      ensures forall lv :: 0 <= lv < 5 && lv != n ==> index[lv] == old(index)[lv]
    {
      hide Placed, Put, Linked, AllNextOk, NextOk, Span, SlotFor, Threaded, Held, Cascading, Pushed;
      var s := Slot(n, index[n]);
      LinkedShape(vec, place);
      ghost var list := At(vec, s);
      assert list[0..] == list;
      PutSame(vec, s);
      WrapTurn(next[n]);
      CascadeBegins(hooks, vec, s);
      hide Shaped;
      var timer := Look(hooks.first, Key(s));
      ghost var k := 0;
      while timer.Some?
        invariant 0 <= k <= |list| && Shaped(vec) && At(vec, s) == list && index == old(index) && next == old(next)
        invariant Linked(Put(vec, s, list[k..]), place) && Placed(place, expires, pending, now, next)
        invariant Cascading(hooks, vec, s, list[k..]) && Held(hooks, place)
        invariant timer == if k < |list| then Some(list[k]) else None
        decreases |list| - k
      {
        var tmp := timer.head;
        timer := Look(hooks.next, tmp);
        assert list[k..] == [tmp] + list[k + 1..];
        k := k + 1;
        CascadeOne(vec, place, expires, pending, now, next, s, tmp, list[k..]);
        CascadeMoves(hooks, vec, place, s, tmp, list[k..], SlotFor(expires[tmp], now % WORD, now % 256));
        InternalAddTimer(tmp);
      }
      assert list[k..] == [];
      LinkedEmpty(vec, place, s, list[k..]);
      CascadeEnds(hooks, vec, s);
      assert Held(hooks.(first := hooks.first - {Key(s)}), place) by { HeldStill(hooks, Key(s), place); }
      hooks := hooks.(first := hooks.first - {Key(s)});
      vec := Put(vec, s, []);
      PlacedCascaded(place, expires, pending, now, next, n);
      index := index[n := (index[n] + 1) % 64];
      next := next[n := next[n] + 1];
    }

    /** The vectors whose turn it is at this tick, finest first. */
    method CascadeAll()
      requires Valid() && AtHead(now, next)
      modifies this`vec, this`place, this`hooks, this`index, this`next
      ensures Valid() && AtWork(now, next)
    {
      hide Linked, Placed, NextOk, Span, Threaded, Held;
      TurnsStart(now, next);
      if index[0] == 0 {
        var n := 1;
        var more := true;
        while more
          invariant Valid() && if more then Turn(now, next, n) else AtWork(now, next)
          decreases more, 5 - n
        {
          TurnTaken(now, next, n);
          CascadeTimers(n);
          more := index[n] == 1 && n + 1 < 5;
          if more {
            n := n + 1;
          }
        }
      }
    }

    /** The effect of one call a timer function makes. */
    method DoOp(op: Op, ghost ids: set<nat>) returns (ghost run: seq<Event>)
      requires Valid() && op.id in ids
      modifies this`vec, this`place, this`hooks, this`expires, this`pending
      ensures Valid() && Runs(old(View()), run) && View() == After(old(View()), run) && FiredIds(run) == []
      ensures Only(ids, run) && NoTick(run)
      ensures run == Call(old(View()), op)
    {
      hide Linked, Placed, NextOk, AllNextOk, Deadline, Threaded, Runs;
      SameKeys(place, expires, pending, now, next);
      NoEvents(View());
      match op {
        case AddOp(id, e) =>
          if id in hooks.pprev || e >= WORD {
            run := [];
          } else {
            AddTimer(id, e);
            run := [Added(id, e)];
            OneEvent(old(View()), run[0]);
          }
        case ModOp(id, e) =>
          if e >= WORD {
            run := [];
          } else {
            ModTimer(id, e);
            run := [Modified(id, e)];
            OneEvent(old(View()), run[0]);
          }
        case DelOp(id) =>
          var was := DelTimer(id);
          run := [Deleted(id)];
          OneEvent(old(View()), run[0]);
      }
    }

    method DoOps(ops: seq<Op>, ghost ids: set<nat>) returns (ghost run: seq<Event>)
      requires Valid() && forall j :: 0 <= j < |ops| ==> ops[j].id in ids
      modifies this`vec, this`place, this`hooks, this`expires, this`pending
      ensures Valid() && Runs(old(View()), run) && View() == After(old(View()), run) && FiredIds(run) == []
      ensures Only(ids, run) && NoTick(run)
      ensures run == Calls(old(View()), ops)
    {
      hide Valid, Runs, After, About, Call;
      run := [];
      NoEvents(View());
      var i := 0;
      while i < |ops|
        invariant 0 <= i <= |ops| && Valid() && Runs(old(View()), run) && View() == After(old(View()), run)
        invariant FiredIds(run) == []
        invariant Only(ids, run) && NoTick(run) && run == Calls(old(View()), ops[..i])
        invariant next == old(next) && now == old(now) && index == old(index) && timerJiffies == old(timerJiffies)
      {
        ghost var more;
        CallsMore(old(View()), ops[..i], ops[i]);
        assert ops[..i + 1] == ops[..i] + [ops[i]];
        more := DoOp(ops[i], ids);
        RunsJoin(old(View()), run, more);
        FiredJoin(run, more);
        run := run + more;
        i := i + 1;
      }
      assert ops[..i] == ops;
    }

    /** Takes the first timer of the current slot off the wheel. */
    method TakeFirst() returns (id: nat)
      requires Valid() && |index| == 5 && Current(index) in hooks.first
      modifies this`vec, this`place, this`hooks, this`pending
      ensures Valid() && Enabled(old(View()), Fired(id)) && View() == Next(old(View()), Fired(id))
      ensures |pending| < |old(pending)|
    {
      hide Linked, Placed, AllNextOk, Threaded, Held;
      CurrentList(hooks, vec, index);
      id := hooks.first[Current(index)];
      FirstIsDue(vec, place, expires, pending, now, next, id);
      FewerPending(pending, id);
      var was := DetachTimer(id);
    }

    /** Runs the first timer of the current slot. Its function makes the first list of calls in
        `script`, if any. */
    method RunFirst(script: seq<seq<Op>>, ghost ids: set<nat>) returns (id: nat, rest: seq<seq<Op>>,
                    ghost run: seq<Event>)
      requires Valid() && |index| == 5 && Current(index) in hooks.first && Covers(ids, script)
      modifies this`vec, this`place, this`hooks, this`expires, this`pending
      ensures Valid() && Runs(old(View()), run) && View() == After(old(View()), run) && FiredIds(run) == [id]
      ensures Covers(ids, rest) && Only(ids, run) && NoTick(run)
      ensures rest == Later(script, 1) && Obeys(old(View()), run, script)
      ensures script != [] ==> |rest| < |script|
      ensures script == [] ==> rest == [] && |pending| < |old(pending)|
    {
      hide *;
      id := TakeFirst();
      rest, run := script, [Fired(id)];
      OneEvent(old(View()), Fired(id));
      OneFired(id);
      JustFired(ids, id);
      OneCalled(old(View()), id, script);
      if script != [] {
        ghost var more;
        FirstCovered(ids, script);
        more := DoOps(script[0], ids);
        RunsJoin(old(View()), run, more);
        FiredJoin(run, more);
        OnlyJoin(ids, run, more);
        NoTickJoin(run, more);
        rest, run := script[1..], run + more;
      }
    }

    /** Calls the functions of the timers due now. The i-th call makes the i-th list of `script`;
        further calls make none. */
    method RunDue(script: seq<seq<Op>>, ghost ids: set<nat>) returns (fired: seq<nat>, rest: seq<seq<Op>>,
                  ghost run: seq<Event>)
      requires Valid() && AtWork(now, next) && Covers(ids, script)
      modifies this`vec, this`place, this`hooks, this`expires, this`pending
      ensures Valid() && Runs(old(View()), run) && View() == After(old(View()), run) && FiredIds(run) == fired
      ensures Covers(ids, rest) && Only(ids, run) && NoTick(run)
      ensures forall id :: id in pending ==> pending[id] > now
      ensures rest == Later(script, |fired|) && Obeys(old(View()), run, script)
    {
      hide Obeys, Later;
      NoneLater(View(), script);
      assert Obeys(View(), [], script) by { ObeysNothing(View(), script); }
      hide Runs, After, AllNextOk, AtWork, Put, Linked, Placed, Threaded, Held, Covers, About;
      fired, rest, run := [], script, [];
      NoEvents(View());
      while Current(index) in hooks.first
        invariant Valid() && Covers(ids, rest) && Only(ids, run) && NoTick(run)
        invariant Runs(old(View()), run) && View() == After(old(View()), run) && FiredIds(run) == fired
        invariant rest == Later(script, |fired|) && Obeys(old(View()), run, script)
        decreases |rest|, |pending|
      {
        ghost var more;
        var id;
        LaterAgain(script, |fired|, 1);
        id, rest, more := RunFirst(rest, ids);
        ObeysJoin(old(View()), run, more, script);
        RunsJoin(old(View()), run, more);
        FiredJoin(run, more);
        OnlyJoin(ids, run, more);
        NoTickJoin(run, more);
        fired, run := fired + [id], run + more;
      }
      CurrentList(hooks, vec, index);
      NoneDueLeft(vec, place, expires, pending, now, next);
    }

    method Advance()
      requires Valid() && AtWork(now, next) && forall id :: id in pending ==> pending[id] > now
      modifies this`now, this`timerJiffies, this`index
      ensures Valid() && AtHead(now, next) && View() == Next(old(View()), Ticked)
      ensures timerJiffies == (old(timerJiffies) + 1) % WORD
    {
      hide Linked, Placed, AllNextOk, Span, Threaded, Held;
      PlacedTicked(place, expires, pending, now, next);
      TurnsTicked(now, next);
      WrapTick(now);
      hide AtWork, AtHead;
      now := now + 1;
      timerJiffies := (timerJiffies + 1) % WORD;
      index := index[0 := (index[0] + 1) % 256];
      assert index[0] == now % 256;
    }

    /** One iteration of run_timer_list: cascade, run what is due, advance. */
    method RunTick(script: seq<seq<Op>>, ghost ids: set<nat>) returns (fired: seq<nat>, rest: seq<seq<Op>>,
                   ghost run: seq<Event>)
      requires Valid() && AtHead(now, next) && Covers(ids, script)
      modifies this
      ensures Valid() && AtHead(now, next) && now == old(now) + 1 && timerJiffies == (old(timerJiffies) + 1) % WORD
      ensures Runs(old(View()), run) && View() == After(old(View()), run) && FiredIds(run) == fired
      ensures Covers(ids, rest) && Only(ids, run) && Past(old(View()), run)
      ensures rest == Later(script, |fired|) && Obeys(old(View()), run, script)
    {
      hide Valid, Runs, After, AtHead, AtWork, Covers, Past, Obeys, Later;
      CascadeAll();
      fired, rest, run := RunDue(script, ids);
      RunsMore(old(View()), run, Ticked);
      FiredMore(run, Ticked);
      PastTick(old(View()), run);
      OnlyJoin(ids, run, [Ticked]);
      ObeysTick(View(), rest);
      ObeysJoin(old(View()), run, [Ticked], script);
      run := run + [Ticked];
      Advance();
    }

    /** Catches up with the clock: one iteration per tick up to and including `jiffies`. A timer
        that no timer function touches fires once, when its deadline comes. */
    method RunTimerList(jiffies: nat, script: seq<seq<Op>>, ghost ids: set<nat>)
      returns (fired: seq<nat>, ghost run: seq<Event>)
      requires Valid() && AtHead(now, next) && jiffies < WORD && timerJiffies < WORD && Covers(ids, script)
      modifies this
      ensures Valid() && AtHead(now, next)
      ensures Runs(old(View()), run) && View() == After(old(View()), run) && FiredIds(run) == fired
      ensures var lag := Behind(jiffies, old(timerJiffies));
        now == if lag < HALF then old(now) + lag + 1 else old(now)
      ensures forall id :: id in old(pending) && id !in ids ==> OnTime(old(View()), run, id)
      ensures Obeys(old(View()), run, script)
      ensures forall k: nat, j: nat, id ::
        SetsAgain(script, k, j, id) && CalledAt(fired, k, id) && id in old(pending) ==>
          FiresAgain(old(View()), run, id, script[k][j].expires)
    {
      hide Linked, AllNextOk, Threaded, Held, Placed, Runs, After, AtHead, Behind, Past, Covers, OnTime, Only, Obeys;
      hide FiresAgain, CalledAt, FiredIds;
      OnTimeNow(place, expires, pending, now, next);
      fired, run := CatchUp(jiffies, script, ids);
      AllOnTime(ids, old(View()), run);
      AllFireAgain(old(View()), run, script);
    }

    /** The loop of run_timer_list. */
    method CatchUp(jiffies: nat, script: seq<seq<Op>>, ghost ids: set<nat>)
      returns (fired: seq<nat>, ghost run: seq<Event>)
      requires Valid() && AtHead(now, next) && jiffies < WORD && timerJiffies < WORD && Covers(ids, script)
      modifies this
      ensures Valid() && AtHead(now, next)
      ensures Runs(old(View()), run) && View() == After(old(View()), run) && FiredIds(run) == fired
      ensures var lag := Behind(jiffies, old(timerJiffies));
        now == if lag < HALF then old(now) + lag + 1 else old(now)
      ensures Only(ids, run) && Past(old(View()), run)
      ensures Obeys(old(View()), run, script)
    {
      hide Valid, Runs, After, AtHead, Behind, Past, Covers, Only, Obeys, Later;
      NoneLater(View(), script);
      ObeysNothing(View(), script);
      fired, run := [], [];
      NoEvents(View());
      NothingYet(ids, View());
      var rest := script;
      ghost var lag := Behind(jiffies, timerJiffies);
      while Behind(jiffies, timerJiffies) < HALF
        invariant Valid() && AtHead(now, next) && timerJiffies < WORD && Covers(ids, rest)
        invariant Runs(old(View()), run) && View() == After(old(View()), run) && FiredIds(run) == fired
        invariant Only(ids, run) && Past(old(View()), run)
        invariant rest == Later(script, |fired|) && Obeys(old(View()), run, script)
        invariant lag >= HALF ==> now == old(now) && timerJiffies == old(timerJiffies)
        invariant lag < HALF ==> old(now) <= now <= old(now) + lag + 1
        invariant lag < HALF ==>
          Behind(jiffies, timerJiffies) == if now == old(now) + lag + 1 then WORD - 1 else lag - (now - old(now))
        decreases old(now) + lag + 1 - now
      {
        ghost var more;
        var f;
        CatchesUp(jiffies, timerJiffies);
        f, rest, more := RunTick(rest, ids);
        LaterAgain(script, |fired|, |f|);
        ObeysJoin(old(View()), run, more, script);
        RunsJoin(old(View()), run, more);
        FiredJoin(run, more);
        OnlyJoin(ids, run, more);
        PastJoin(old(View()), run, more);
        fired, run := fired + f, run + more;
      }
    }
  }

  /** The slot of tv1 whose turn it is. */
  function Current(index: seq<nat>): nat
    requires |index| == 5
  {
    Key(Slot(0, index[0]))
  }

  lemma CurrentList(hooks: Hooks, vec: Vec, index: seq<nat>)
    requires Shaped(vec) && Threaded(hooks, vec) && |index| == 5 && index[0] < 256
    ensures Current(index) in hooks.first <==> vec[0][index[0]] != []
    ensures Current(index) in hooks.first ==> hooks.first[Current(index)] == vec[0][index[0]][0]
  {
    hide Chain;
    assert InRange(Slot(0, index[0]));
    assert Chain(hooks, Key(Slot(0, index[0])), At(vec, Slot(0, index[0])));
    ChainHead(hooks, Current(index), vec[0][index[0]]);
  }

  lemma OnTimeNow(place: map<nat, Slot>, expires: map<nat, nat>, pending: map<nat, nat>, now: nat, next: seq<nat>)
    requires Placed(place, expires, pending, now, next)
    ensures NotLate(Bag(now, pending))
  {
    forall id | id in pending ensures pending[id] >= now {
      assert Spot(place[id], pending[id], expires[id], now, next);
    }
  }

  lemma HeldStill(h: Hooks, b: nat, place: map<nat, Slot>)
    requires Held(h, place)
    ensures Held(h.(first := h.first - {b}), place)
  {
  }

  lemma ChainHead(h: Hooks, b: nat, s: seq<nat>)
    requires Chain(h, b, s)
    ensures (b in h.first <==> s != []) && (b in h.first ==> h.first[b] == s[0])
  {
  }

  /** jiffies - timer_jiffies as an unsigned 32-bit number; below 2^31 means not ahead. */
  function Behind(jiffies: nat, timerJiffies: nat): nat
    requires timerJiffies < WORD
  {
    (jiffies + WORD - timerJiffies) % WORD
  }

  lemma CatchesUp(jiffies: nat, t: nat)
    requires jiffies < WORD && t < WORD
    ensures Behind(jiffies, (t + 1) % WORD) == if Behind(jiffies, t) == 0 then WORD - 1 else Behind(jiffies, t) - 1
  {
  }

  lemma FewerPending(pending: map<nat, nat>, id: nat)
    requires id in pending
    ensures |pending - {id}| < |pending|
  {
    var less := pending - {id};
    assert less.Keys == pending.Keys - {id};
    assert |less| == |less.Keys| && |pending| == |pending.Keys|;
  }

  /** The timers in the current slot of tv1 are exactly those due now. */
  lemma FirstIsDue(vec: Vec, place: map<nat, Slot>, expires: map<nat, nat>, pending: map<nat, nat>, now: nat,
                   next: seq<nat>, id: nat)
    requires Linked(vec, place) && Placed(place, expires, pending, now, next) && id in vec[0][now % 256]
    ensures id in pending && pending[id] == now
  {
    var s := Slot(0, now % 256);
    assert InRange(s) && ListOk(At(vec, s), place, s);
    assert Spot(place[id], pending[id], expires[id], now, next);
    SameResidue(now, pending[id]);
  }

  lemma SameResidue(a: nat, b: nat)
    requires a <= b < a + 256 && a % 256 == b % 256
    ensures a == b
  {
  }

  lemma NoneDueLeft(vec: Vec, place: map<nat, Slot>, expires: map<nat, nat>, pending: map<nat, nat>, now: nat,
                    next: seq<nat>)
    requires Linked(vec, place) && Placed(place, expires, pending, now, next) && AtWork(now, next)
    requires vec[0][now % 256] == []
    ensures forall id :: id in pending ==> pending[id] > now
  {
    var s := Slot(0, now % 256);
    assert InRange(s) && ListOk(At(vec, s), place, s);
    hide Span;
    forall id | id in pending ensures pending[id] > now {
      assert Spot(place[id], pending[id], expires[id], now, next);
    }
  }

  lemma LinkedShape(vec: Vec, place: map<nat, Slot>)
    requires Linked(vec, place)
    ensures Shaped(vec) && forall id :: id in place ==> InRange(place[id])
  {
  }

  lemma SameKeys(place: map<nat, Slot>, expires: map<nat, nat>, pending: map<nat, nat>, now: nat, next: seq<nat>)
    requires Placed(place, expires, pending, now, next)
    ensures place.Keys == pending.Keys
  {
  }

  lemma WrapTick(now: nat)
    ensures (now % WORD + 1) % WORD == (now + 1) % WORD && (now % 256 + 1) % 256 == (now + 1) % 256
  {
  }

  lemma WrapTurn(n: nat)
    ensures (n % 64 + 1) % 64 == (n + 1) % 64
  {
  }

  lemma LinkedEmpty(vec: Vec, place: map<nat, Slot>, s: Slot, rest: seq<nat>)
    requires Shaped(vec) && InRange(s) && rest == [] && Linked(Put(vec, s, rest), place)
    ensures forall id :: id in place ==> place[id] != s
  {
    assert ListOk(At(Put(vec, s, rest), s), place, s);
  }

  lemma InSlot(vec: Vec, place: map<nat, Slot>, s: Slot, id: nat, rest: seq<nat>)
    requires Shaped(vec) && InRange(s) && Linked(Put(vec, s, [id] + rest), place)
    ensures id in place && place[id] == s
  {
    var v0 := Put(vec, s, [id] + rest);
    assert ListOk(At(v0, s), place, s) && id in At(v0, s);
  }

  /** One step of a cascade: the timer goes further down, its deadline unchanged. */
  lemma CascadeOne(vec: Vec, place: map<nat, Slot>, expires: map<nat, nat>, pending: map<nat, nat>, now: nat,
                   next: seq<nat>,
                   s: Slot, id: nat, rest: seq<nat>)
    requires Shaped(vec) && InRange(s) && 1 <= s.lv && Linked(Put(vec, s, [id] + rest), place)
    requires Placed(place, expires, pending, now, next) && AllNextOk(now, next)
    requires now == next[s.lv] * Span(s.lv) && s.i == next[s.lv] % 64
    ensures id in expires && expires[id] < WORD && InRange(SlotFor(expires[id], now % WORD, now % 256))
    ensures var t := SlotFor(expires[id], now % WORD, now % 256);
      && t != s && Linked(Put(Put(vec, t, [id] + At(vec, t)), s, rest), place[id := t])
      && Placed(place[id := t], expires, pending, now, next)
  {
    hide NextOk, Span, Put, Deadline, Linked, Shaped;
    InSlot(vec, place, s, id, rest);
    DueSoon(s, pending[id], expires[id], now, next);
    SlotIsRight(now, expires[id], next);
    var t := SlotFor(expires[id], now % WORD, now % 256);
    MoveKeeps(vec, place, s, id, rest, t);
    PlacedSet(place, expires, pending, now, next, id, t, pending[id], expires[id]);
    assert pending[id := pending[id]] == pending && expires[id := expires[id]] == expires;
  }
}
