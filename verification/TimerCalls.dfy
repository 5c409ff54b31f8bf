/** The calls that timer functions make: what a run of the bag owes to them, and what becomes of a
    timer that is left alone, or that its own function sets again. */
module TimerCalls {
  import opened TimerSpec

  /** What a timer function may do to timers while it runs. */
  datatype Op = AddOp(id: nat, expires: nat) | ModOp(id: nat, expires: nat) | DelOp(id: nat)

  ghost function FiredIds(run: seq<Event>): seq<nat> {
    if run == [] then []
    else FiredIds(run[..|run| - 1]) + (if run[|run| - 1].Fired? then [run[|run| - 1].id] else [])
  }

  lemma FiredMore(run: seq<Event>, e: Event)
    ensures FiredIds(run + [e]) == FiredIds(run) + (if e.Fired? then [e.id] else [])
  {
    assert (run + [e])[..|run|] == run;
  }

  /** Every call that sets or deletes a timer is about one of these. */
  ghost predicate Covers(ids: set<nat>, script: seq<seq<Op>>) {
    forall i, j :: 0 <= i < |script| && 0 <= j < |script[i]| ==> script[i][j].id in ids
  }

  ghost predicate About(ids: set<nat>, e: Event) {
    e.Fired? || e.Ticked? || e.id in ids
  }

  ghost predicate Only(ids: set<nat>, run: seq<Event>) {
    forall i :: 0 <= i < |run| ==> About(ids, run[i])
  }

  /** All within one tick. */
  ghost predicate NoTick(run: seq<Event>) {
    forall i :: 0 <= i < |run| ==> !run[i].Ticked?
  }

  lemma OnlyJoin(ids: set<nat>, r1: seq<Event>, r2: seq<Event>)
    requires Only(ids, r1) && Only(ids, r2)
    ensures Only(ids, r1 + r2)
  {
    hide About;
  }

  lemma NoTickJoin(r1: seq<Event>, r2: seq<Event>)
    requires NoTick(r1) && NoTick(r2)
    ensures NoTick(r1 + r2)
  {
  }

  lemma LeftAlone(ids: set<nat>, run: seq<Event>, id: nat)
    requires Only(ids, run) && id !in ids
    ensures Untouched(run, id)
  {
    forall i | 0 <= i < |run|
      ensures !(run[i].Added? && run[i].id == id) && !(run[i].Modified? && run[i].id == id) && run[i] != Deleted(id)
    {
      assert About(ids, run[i]);
    }
  }

  /** What fires within a tick fires at that tick. */
  lemma {:induction false} FiringsNow(b: Bag, run: seq<Event>, id: nat)
    requires NoTick(run)
    ensures After(b, run).now == b.now && forall i :: 0 <= i < |Firings(b, run, id)| ==> Firings(b, run, id)[i] == b.now
  {
    if run != [] {
      FiringsNow(b, run[..|run| - 1], id);
      assert !run[|run| - 1].Ticked?;
    }
  }

  lemma {:induction false} FiringsJoin(b: Bag, r1: seq<Event>, r2: seq<Event>, id: nat)
    ensures Firings(b, r1 + r2, id) == Firings(b, r1, id) + Firings(After(b, r1), r2, id)
    ensures After(b, r1 + r2) == After(After(b, r1), r2)
  {
    hide Next;
    if r2 == [] {
      assert r1 + r2 == r1;
    } else {
      var r, e := r2[..|r2| - 1], r2[|r2| - 1];
      FiringsJoin(b, r1, r, id);
      assert (r1 + r2)[..|r1 + r2| - 1] == r1 + r;
      assert (r1 + r2)[|r1 + r2| - 1] == e;
    }
  }

  /** Everything that has fired, has fired at an earlier tick. */
  ghost predicate Past(b: Bag, run: seq<Event>) {
    forall id, t :: t in Firings(b, run, id) ==> t < After(b, run).now
  }

  lemma PastTick(b: Bag, run: seq<Event>)
    requires NoTick(run)
    ensures Past(b, run + [Ticked])
  {
    var more := run + [Ticked];
    assert more[..|more| - 1] == run && more[|run|] == Ticked;
    forall id, t | t in Firings(b, more, id) ensures t < After(b, more).now {
      FiringsNow(b, run, id);
      assert Firings(b, more, id) == Firings(b, run, id);
    }
  }

  lemma PastJoin(b: Bag, r1: seq<Event>, r2: seq<Event>)
    requires Past(b, r1) && Past(After(b, r1), r2) && After(After(b, r1), r2).now >= After(b, r1).now
    ensures Past(b, r1 + r2)
  {
    forall id, t | t in Firings(b, r1 + r2, id) ensures t < After(b, r1 + r2).now { FiringsJoin(b, r1, r2, id); }
  }

  /** What becomes of timer id, pending at first and left alone: it has fired once, at its deadline,
      if that is past, and not at all otherwise. */
  ghost predicate OnTime(b: Bag, run: seq<Event>, id: nat)
    requires id in b.pending
  {
    var (d, a) := (b.pending[id], After(b, run));
    if d < a.now then Firings(b, run, id) == [d] && id !in a.pending
    else Firings(b, run, id) == [] && id in a.pending && a.pending[id] == d
  }

  lemma AllOnTime(ids: set<nat>, b: Bag, run: seq<Event>)
    requires NotLate(b) && Runs(b, run) && Only(ids, run) && Past(b, run)
    ensures forall id :: id in b.pending && id !in ids ==> OnTime(b, run, id)
  {
    hide Runs, Only;
    forall id | id in b.pending && id !in ids ensures OnTime(b, run, id) {
      LeftAlone(ids, run, id);
      FiresOnce(b, run, id);
      if Firings(b, run, id) == [b.pending[id]] { assert b.pending[id] in Firings(b, run, id); }
    }
  }

  lemma NoEvents(b: Bag)
    ensures Runs(b, []) && After(b, []) == b
  {
  }

  lemma OneEvent(b: Bag, e: Event)
    requires Enabled(b, e)
    ensures Runs(b, [e]) && After(b, [e]) == Next(b, e)
  {
    hide Enabled, Next;
    NoEvents(b);
    RunsMore(b, [], e);
    assert [] + [e] == [e];
  }

  lemma {:induction false} FiredJoin(r1: seq<Event>, r2: seq<Event>)
    ensures FiredIds(r1 + r2) == FiredIds(r1) + FiredIds(r2)
  {
    if r2 == [] {
      assert r1 + r2 == r1;
    } else {
      var r, e := r2[..|r2| - 1], r2[|r2| - 1];
      FiredJoin(r1, r);
      FiredMore(r1 + r, e);
      assert r1 + r2 == (r1 + r) + [e];
    }
  }

  lemma OneFired(id: nat)
    ensures FiredIds([Fired(id)]) == [id]
  {
    FiredMore([], Fired(id));
    assert [] + [Fired(id)] == [Fired(id)];
  }

  lemma NothingYet(ids: set<nat>, b: Bag)
    ensures Only(ids, []) && Past(b, [])
  {
  }

  lemma JustFired(ids: set<nat>, id: nat)
    ensures Only(ids, [Fired(id)]) && NoTick([Fired(id)])
  {
  }

  lemma FirstCovered(ids: set<nat>, script: seq<seq<Op>>)
    requires Covers(ids, script) && script != []
    ensures (forall j :: 0 <= j < |script[0]| ==> script[0][j].id in ids) && Covers(ids, script[1..])
  {
    forall i, j | 0 <= i < |script[1..]| && 0 <= j < |script[1..][i]| ensures script[1..][i][j].id in ids {
      assert script[1..][i] == script[i + 1];
    }
  }

  // ---- A run does what the timer functions ask for

  /** What a call asks for. */
  function Asked(op: Op): Event {
    match op
    case AddOp(id, e) => Added(id, e)
    case ModOp(id, e) => Modified(id, e)
    case DelOp(id) => Deleted(id)
  }

  /** A timer that is pending cannot be added; a time is a word. */
  ghost predicate Refused(b: Bag, op: Op) {
    (op.AddOp? && op.id in b.pending) || (!op.DelOp? && op.expires >= WORD)
  }

  ghost function Call(b: Bag, op: Op): seq<Event> {
    if Refused(b, op) then [] else [Asked(op)]
  }

  /** One call after the other. */
  ghost function Calls(b: Bag, ops: seq<Op>): seq<Event> {
    if ops == [] then []
    else
      var r := Calls(b, ops[..|ops| - 1]);
      r + Call(After(b, r), ops[|ops| - 1])
  }

  function First(script: seq<seq<Op>>): seq<Op> {
    if script == [] then [] else script[0]
  }

  function Later(script: seq<seq<Op>>, n: nat): seq<seq<Op>> {
    if n < |script| then script[n..] else []
  }

  /** Nothing happens but ticks and calls of timer functions, and every such call does what the next
      list of the script says, right away. */
  ghost predicate Obeys(b: Bag, run: seq<Event>, script: seq<seq<Op>>)
    decreases |run|
  {
    run == [] || match run[0]
      case Ticked => Obeys(Next(b, Ticked), run[1..], script)
      case Fired(id) =>
        var c := Calls(Next(b, Fired(id)), First(script));
        && c <= run[1..]
        && Obeys(After(Next(b, Fired(id)), c), run[1 + |c|..], Later(script, 1))
      case Added(_, _) => false
      case Modified(_, _) => false
      case Deleted(_) => false
  }

  lemma CallsMore(b: Bag, ops: seq<Op>, op: Op)
    ensures Calls(b, ops + [op]) == Calls(b, ops) + Call(After(b, Calls(b, ops)), op)
  {
    assert (ops + [op])[..|ops|] == ops;
  }

  lemma {:induction false} AfterJoin(b: Bag, r1: seq<Event>, r2: seq<Event>)
    ensures After(b, r1 + r2) == After(After(b, r1), r2)
  {
    FiringsJoin(b, r1, r2, 0);
  }

  lemma AfterFront(b: Bag, run: seq<Event>)
    requires run != []
    ensures After(b, run) == After(Next(b, run[0]), run[1..]) && After(b, [run[0]]) == Next(b, run[0])
  {
    hide Next;
    assert run == [run[0]] + run[1..];
    assert [run[0]][..0] == [];
    AfterJoin(b, [run[0]], run[1..]);
  }

  /** Calls fire nothing and take no time. */
  lemma {:induction false} CallsQuiet(b: Bag, ops: seq<Op>)
    ensures FiredIds(Calls(b, ops)) == [] && NoTick(Calls(b, ops))
    ensures forall id :: Firings(b, Calls(b, ops), id) == []
  {
    if ops != [] {
      var r := Calls(b, ops[..|ops| - 1]);
      var c := Call(After(b, r), ops[|ops| - 1]);
      CallsQuiet(b, ops[..|ops| - 1]);
      FiredJoin(r, c);
      assert |c| <= 1;
      assert c != [] ==> c[..0] == [] && !c[0].Fired?;
      NoTickJoin(r, c);
      forall id ensures Firings(b, r + c, id) == [] { FiringsJoin(b, r, c, id); }
    }
  }

  lemma LaterMore(script: seq<seq<Op>>, n: nat)
    ensures Later(Later(script, 1), n) == Later(script, n + 1)
  {
  }

  lemma FiredFront(run: seq<Event>)
    requires run != []
    ensures FiredIds(run) == (if run[0].Fired? then [run[0].id] else []) + FiredIds(run[1..])
  {
    assert run == [run[0]] + run[1..];
    FiredJoin([run[0]], run[1..]);
    FiredMore([], run[0]);
    assert [] + [run[0]] == [run[0]];
  }

  /** A run that starts with a timer: the calls of its function come next. */
  lemma ObeysFired(b: Bag, run: seq<Event>, script: seq<seq<Op>>) returns (c: seq<Event>, r: seq<Event>)
    requires Obeys(b, run, script) && run != [] && run[0].Fired?
    ensures c == Calls(Next(b, run[0]), First(script)) && run[1..] == c + r && run == [run[0]] + (c + r)
    ensures Obeys(After(Next(b, run[0]), c), r, Later(script, 1)) && |r| < |run|
    ensures FiredIds(run) == [run[0].id] + FiredIds(r) && After(b, run) == After(After(Next(b, run[0]), c), r)
  {
    hide *;
    c, r := ObeysStep(b, run, script);
    CallsQuiet(Next(b, run[0]), First(script));
    FiredFront(run);
    FiredJoin(c, r);
    AfterFront(b, run);
    AfterJoin(Next(b, run[0]), c, r);
    assert run == [run[0]] + run[1..];
  }

  lemma ObeysStep(b: Bag, run: seq<Event>, script: seq<seq<Op>>) returns (c: seq<Event>, r: seq<Event>)
    requires Obeys(b, run, script) && run != [] && run[0].Fired?
    ensures c == Calls(Next(b, run[0]), First(script)) && run[1..] == c + r && |r| < |run|
    ensures Obeys(After(Next(b, run[0]), c), r, Later(script, 1))
  {
    hide Calls, Next, After, First, Later;
    c := Calls(Next(b, run[0]), First(script));
    r := run[1 + |c|..];
    var tail := run[1..];
    assert tail == tail[..|c|] + tail[|c|..] && tail[|c|..] == r;
  }

  lemma ObeysBack(b: Bag, id: nat, r: seq<Event>, script: seq<seq<Op>>)
    requires var b1 := Next(b, Fired(id)); Obeys(After(b1, Calls(b1, First(script))), r, Later(script, 1))
    ensures Obeys(b, [Fired(id)] + (Calls(Next(b, Fired(id)), First(script)) + r), script)
  {
    hide Calls, Next, After;
    var c := Calls(Next(b, Fired(id)), First(script));
    var run := [Fired(id)] + (c + r);
    assert run[1..] == c + r && run[1 + |c|..] == r;
  }

  lemma ObeysTicked(b: Bag, run: seq<Event>, script: seq<seq<Op>>)
    requires run != [] && run[0] == Ticked
    ensures Obeys(b, run, script) <==> Obeys(Next(b, Ticked), run[1..], script)
    ensures FiredIds(run) == FiredIds(run[1..]) && After(b, run) == After(Next(b, Ticked), run[1..])
  {
    hide Next, After;
    FiredFront(run);
    AfterFront(b, run);
  }

  lemma ObeysHead(b: Bag, run: seq<Event>, script: seq<seq<Op>>)
    requires Obeys(b, run, script) && run != []
    ensures run[0].Ticked? || run[0].Fired?
  {
  }

  lemma {:induction false} ObeysJoin(b: Bag, r1: seq<Event>, r2: seq<Event>, script: seq<seq<Op>>)
    requires Obeys(b, r1, script) && Obeys(After(b, r1), r2, Later(script, |FiredIds(r1)|))
    ensures Obeys(b, r1 + r2, script)
    decreases |r1|
  {
    hide *;
    if r1 == [] {
      assert r1 + r2 == r2;
      NoneLater(b, script);
    } else {
      ObeysHead(b, r1, script);
      if r1[0].Ticked? {
        ObeysTicked(b, r1, script);
        ObeysJoin(Next(b, Ticked), r1[1..], r2, script);
        assert (r1 + r2)[1..] == r1[1..] + r2;
        ObeysTicked(b, r1 + r2, script);
      } else {
        var c, r := ObeysFired(b, r1, script);
        LaterMore(script, |FiredIds(r)|);
        ObeysJoin(After(Next(b, r1[0]), c), r, r2, Later(script, 1));
        ObeysBack(b, r1[0].id, r + r2, script);
        assert r1 + r2 == [r1[0]] + (c + (r + r2));
      }
    }
  }

  lemma NoneLater(b: Bag, script: seq<seq<Op>>)
    ensures Later(script, 0) == script && FiredIds([]) == [] && After(b, []) == b
  {
  }

  /** One timer function. */
  lemma ObeysOne(b: Bag, id: nat, script: seq<seq<Op>>)
    ensures Obeys(b, [Fired(id)] + Calls(Next(b, Fired(id)), First(script)), script)
    ensures |FiredIds([Fired(id)] + Calls(Next(b, Fired(id)), First(script)))| == 1
  {
    var c := Calls(Next(b, Fired(id)), First(script));
    var run := [Fired(id)] + c;
    hide Calls, Next;
    assert run[1..] == c && run[1 + |c|..] == [];
    CallsQuiet(Next(b, Fired(id)), First(script));
    FiredFront(run);
  }

  lemma OneCalled(b: Bag, id: nat, script: seq<seq<Op>>)
    ensures Obeys(b, [Fired(id)] + Calls(Next(b, Fired(id)), First(script)), script)
    ensures script == [] ==> Obeys(b, [Fired(id)], script) && Later(script, 1) == []
    ensures script != [] ==> First(script) == script[0] && Later(script, 1) == script[1..]
  {
    ObeysOne(b, id, script);
    if script == [] {
      assert [Fired(id)] + Calls(Next(b, Fired(id)), First(script)) == [Fired(id)];
    }
  }

  lemma ObeysNothing(b: Bag, script: seq<seq<Op>>)
    ensures Obeys(b, [], script)
  {
  }

  lemma LaterAgain(script: seq<seq<Op>>, m: nat, n: nat)
    ensures Later(Later(script, m), n) == Later(script, m + n)
  {
  }

  lemma ObeysTick(b: Bag, script: seq<seq<Op>>)
    ensures Obeys(b, [Ticked], script)
  {
  }

  // ---- A timer that its own function sets again

  lemma {:induction false} RunsCut(b: Bag, r1: seq<Event>, r2: seq<Event>)
    requires Runs(b, r1 + r2)
    ensures Runs(b, r1) && Runs(After(b, r1), r2)
  {
    hide Enabled, Next;
    var run := r1 + r2;
    forall i | 0 <= i < |r1| ensures Enabled(After(b, r1[..i]), r1[i]) {
      assert run[..i] == r1[..i] && run[i] == r1[i];
    }
    forall i | 0 <= i < |r2| ensures Enabled(After(After(b, r1), r2[..i]), r2[i]) {
      assert run[..|r1| + i] == r1 + r2[..i] && run[|r1| + i] == r2[i];
      AfterJoin(b, r1, r2[..i]);
    }
  }

  ghost predicate NotAbout(ops: seq<Op>, id: nat) {
    forall j :: 0 <= j < |ops| ==> ops[j].id != id
  }

  ghost predicate NoneAbout(script: seq<seq<Op>>, id: nat) {
    forall k :: 0 <= k < |script| ==> NotAbout(script[k], id)
  }

  /** Timer id is as it was, and so is the clock. */
  ghost predicate SameFor(b: Bag, a: Bag, id: nat) {
    a.now == b.now && (id in a.pending <==> id in b.pending) && (id in b.pending ==> a.pending[id] == b.pending[id])
  }

  lemma CallElsewhere(b: Bag, op: Op, id: nat)
    requires op.id != id
    ensures Untouched(Call(b, op), id) && SameFor(b, After(b, Call(b, op)), id)
  {
    var c := Call(b, op);
    if c != [] { AfterFront(b, c); }
  }

  lemma {:induction false} CallsElsewhere(b: Bag, ops: seq<Op>, id: nat)
    requires NotAbout(ops, id)
    ensures Untouched(Calls(b, ops), id) && SameFor(b, After(b, Calls(b, ops)), id)
  {
    hide Call, After, Untouched;
    if ops != [] {
      var (o, op) := (ops[..|ops| - 1], ops[|ops| - 1]);
      var r := Calls(b, o);
      CallsElsewhere(b, o, id);
      CallElsewhere(After(b, r), op, id);
      AfterJoin(b, r, Call(After(b, r), op));
      UntouchedJoin(r, Call(After(b, r), op), id);
    } else {
      NothingTouched(b, id);
    }
  }

  lemma NothingTouched(b: Bag, id: nat)
    ensures Untouched([], id) && After(b, []) == b
  {
  }

  lemma UntouchedJoin(r1: seq<Event>, r2: seq<Event>, id: nat)
    requires Untouched(r1, id) && Untouched(r2, id)
    ensures Untouched(r1 + r2, id)
  {
  }

  lemma {:induction false} ObeysElsewhere(b: Bag, run: seq<Event>, script: seq<seq<Op>>, id: nat)
    requires Obeys(b, run, script) && NoneAbout(script, id)
    ensures Untouched(run, id)
    decreases |run|
  {
    if run != [] {
      hide Calls, Next, Obeys, After, Untouched;
      ObeysHead(b, run, script);
      assert run == [run[0]] + run[1..];
      assert Untouched([run[0]], id) by { FiredUntouched(run[0], id); }
      if run[0].Ticked? {
        ObeysTicked(b, run, script);
        ObeysElsewhere(Next(b, Ticked), run[1..], script, id);
      } else {
        var c, r := ObeysFired(b, run, script);
        CallsElsewhere(Next(b, run[0]), First(script), id);
        ObeysElsewhere(After(Next(b, run[0]), c), r, Later(script, 1), id);
        UntouchedJoin(c, r, id);
      }
      UntouchedJoin([run[0]], run[1..], id);
    }
  }

  lemma FiredUntouched(e: Event, id: nat)
    requires e.Fired? || e.Ticked?
    ensures Untouched([e], id)
  {
  }

  /** Of all calls in the script, only the j-th of list k is about timer id, and it sets it. */
  ghost predicate SetsAgain(script: seq<seq<Op>>, k: nat, j: nat, id: nat) {
    && k < |script| && j < |script[k]| && script[k][j].id == id && !script[k][j].DelOp? && script[k][j].expires < WORD
    && (forall m :: 0 <= m < |script| && m != k ==> NotAbout(script[m], id))
    && NotAbout(script[k][..j], id) && NotAbout(script[k][j + 1..], id)
  }

  lemma {:induction false} CallsJoin(b: Bag, o1: seq<Op>, o2: seq<Op>)
    ensures Calls(b, o1 + o2) == Calls(b, o1) + Calls(After(b, Calls(b, o1)), o2)
  {
    hide Call;
    if o2 == [] {
      assert o1 + o2 == o1;
    } else {
      var (o, op) := (o2[..|o2| - 1], o2[|o2| - 1]);
      CallsJoin(b, o1, o);
      assert o1 + o2 == (o1 + o) + [op] && o2 == o + [op];
      CallsMore(b, o1 + o, op);
      var b1 := After(b, Calls(b, o1));
      CallsMore(b1, o, op);
      AfterJoin(b, Calls(b, o1), Calls(b1, o));
    }
  }

  /** The calls of a function that sets the timer, which is not pending while it runs. */
  lemma CallsSet(b: Bag, ops: seq<Op>, j: nat, id: nat)
    requires j < |ops| && ops[j].id == id && !ops[j].DelOp? && ops[j].expires < WORD && id !in b.pending
    requires NotAbout(ops[..j], id) && NotAbout(ops[j + 1..], id)
    ensures var a := After(b, Calls(b, ops)); id in a.pending && a.pending[id] == Deadline(b.now, ops[j].expires)
  {
    var (o1, o2) := (ops[..j], ops[j + 1..]);
    assert ops == o1 + [ops[j]] + o2;
    hide Deadline;
    CallsElsewhere(b, o1, id);
    CallsMore(b, o1, ops[j]);
    var (r1, r2) := (Calls(b, o1), Calls(b, o1 + [ops[j]]));
    var c := Call(After(b, r1), ops[j]);
    AfterJoin(b, r1, c);
    AfterFront(After(b, r1), c);
    CallsJoin(b, o1 + [ops[j]], o2);
    CallsElsewhere(After(b, r2), o2, id);
    AfterJoin(b, r2, Calls(After(b, r2), o2));
  }

  /** Fired at d, and then fired at d2 or waiting for it. */
  ghost predicate Twice(b: Bag, run: seq<Event>, id: nat, d: nat, d2: nat) {
    var a := After(b, run);
    || (Firings(b, run, id) == [d] && id in a.pending && a.pending[id] == d2 && a.now <= d2)
    || (Firings(b, run, id) == [d, d2] && id !in a.pending)
  }

  lemma SetsWhere(script: seq<seq<Op>>, k: nat, j: nat, id: nat)
    requires SetsAgain(script, k, j, id)
    ensures k < |script| && j < |script[k]| && !script[k][j].DelOp?
  {
  }

  /** From the moment it fires. */
  lemma SetWhenFired(b: Bag, run: seq<Event>, script: seq<seq<Op>>, j: nat, id: nat)
    requires NotLate(b) && Runs(b, run) && Obeys(b, run, script) && SetsAgain(script, 0, j, id)
    requires run != [] && run[0] == Fired(id)
    ensures id in b.pending && Twice(b, run, id, b.pending[id], Deadline(b.pending[id], script[0][j].expires))
  {
    assert id in b.pending && b.pending[id] == b.now by { RunsHead(b, run); }
    var b1 := Next(b, run[0]);
    assert id !in b1.pending && b1.now == b.now;
    assert First(script) == script[0] && NoneAbout(Later(script, 1), id);
    SetsWhere(script, 0, j, id);
    hide SetsAgain, Calls, Next, Obeys, After, Runs, Deadline, Firings, NotLate, Untouched, Enabled;
    var c, r := ObeysFired(b, run, script);
    var b2 := After(b1, c);
    RunsCut(b, [run[0]], c + r);
    AfterFront(b, run);
    RunsCut(b1, c, r);
    NeverLate(b, [run[0]]);
    NeverLate(b1, c);
    CallsSet(b1, script[0], j, id);
    CallsQuiet(b1, script[0]);
    ObeysElsewhere(b2, r, Later(script, 1), id);
    FiresOnce(b2, r, id);
    FiringsJoin(b, [run[0]], c + r, id);
    FiringsJoin(b1, c, r, id);
    OneFiring(b, id);
  }

  lemma RunsHead(b: Bag, run: seq<Event>)
    requires Runs(b, run) && run != []
    ensures Enabled(b, run[0])
  {
    assert run[..0] == [];
  }

  lemma OneFiring(b: Bag, id: nat)
    ensures Firings(b, [Fired(id)], id) == [b.now]
  {
    assert [Fired(id)][..0] == [];
  }

  lemma NoFiring(b: Bag, e: Event, id: nat)
    requires e != Fired(id)
    ensures Firings(b, [e], id) == []
  {
    assert [e][..0] == [];
  }

  lemma SetsLater(script: seq<seq<Op>>, k: nat, j: nat, id: nat)
    requires SetsAgain(script, k, j, id) && k > 0
    ensures NotAbout(First(script), id) && SetsAgain(Later(script, 1), k - 1, j, id)
    ensures Later(script, 1)[k - 1] == script[k]
  {
  }

  /** A timer whose function, when it is called for the first time, sets it again, and that nobody
      else touches. */
  lemma {:induction false} SetOnce(b: Bag, run: seq<Event>, script: seq<seq<Op>>, k: nat, j: nat, id: nat)
    requires NotLate(b) && Runs(b, run) && Obeys(b, run, script) && SetsAgain(script, k, j, id) && id in b.pending
    requires k < |FiredIds(run)| && FiredIds(run)[k] == id && id !in FiredIds(run)[..k]
    ensures Twice(b, run, id, b.pending[id], Deadline(b.pending[id], script[k][j].expires))
    decreases |run|
  {
    hide *;
    SetsWhere(script, k, j, id);
    assert run != [] by { NoneFired(); }
    ObeysHead(b, run, script);
    if run[0].Ticked? {
      SetOnceTicked(b, run, script, k, j, id);
    } else if run[0] == Fired(id) {
      var c, r := ObeysFired(b, run, script);
      FirstCall(FiredIds(run), k, id);
      SetWhenFired(b, run, script, j, id);
    } else {
      SetOnceLater(b, run, script, k, j, id);
    }
  }

  lemma {:induction false} SetOnceTicked(b: Bag, run: seq<Event>, script: seq<seq<Op>>, k: nat, j: nat, id: nat)
    requires NotLate(b) && Runs(b, run) && Obeys(b, run, script) && SetsAgain(script, k, j, id) && id in b.pending
    requires k < |FiredIds(run)| && FiredIds(run)[k] == id && id !in FiredIds(run)[..k]
    requires run != [] && run[0].Ticked?
    ensures k < |script| && j < |script[k]| && !script[k][j].DelOp?
      && Twice(b, run, id, b.pending[id], Deadline(b.pending[id], script[k][j].expires))
    decreases |run|, 0
  {
    hide *;
    SetsWhere(script, k, j, id);
    assert run == [run[0]] + run[1..];
    RunsCut(b, [run[0]], run[1..]);
    AfterFront(b, run);
    NeverLate(b, [run[0]]);
    FiringsJoin(b, [run[0]], run[1..], id);
    NoFiring(b, run[0], id);
    ObeysTicked(b, run, script);
    TickKeeps(b);
    SetOnce(Next(b, Ticked), run[1..], script, k, j, id);
    var d2 := Deadline(b.pending[id], script[k][j].expires);
    TwiceMore(b, [run[0]], run[1..], id, b.pending[id], d2);
  }

  lemma TwiceMore(b: Bag, r1: seq<Event>, r2: seq<Event>, id: nat, d: nat, d2: nat)
    requires Twice(After(b, r1), r2, id, d, d2) && Firings(b, r1, id) == []
    ensures Twice(b, r1 + r2, id, d, d2)
  {
    hide Firings, After;
    FiringsJoin(b, r1, r2, id);
  }

  /** Another timer goes first. */
  lemma {:induction false} SetOnceLater(b: Bag, run: seq<Event>, script: seq<seq<Op>>, k: nat, j: nat, id: nat)
    requires NotLate(b) && Runs(b, run) && Obeys(b, run, script) && SetsAgain(script, k, j, id) && id in b.pending
    requires k < |FiredIds(run)| && FiredIds(run)[k] == id && id !in FiredIds(run)[..k]
    requires run != [] && run[0].Fired? && run[0] != Fired(id)
    ensures k < |script| && j < |script[k]| && !script[k][j].DelOp?
      && Twice(b, run, id, b.pending[id], Deadline(b.pending[id], script[k][j].expires))
    decreases |run|, 0
  {
    hide *;
    SetsWhere(script, k, j, id);
    var b1 := Next(b, run[0]);
    var c, r := ObeysFired(b, run, script);
    assert k > 0;
    SetsLater(script, k, j, id);
    OneThenCalls(b, run[0], c, r, First(script), id);
    assert FiredIds(run)[..k] == [run[0].id] + FiredIds(r)[..k - 1];
    SetOnce(After(b1, c), r, Later(script, 1), k - 1, j, id);
    var d2 := Deadline(b.pending[id], script[k][j].expires);
    AfterJoin(b, [run[0]], c);
    AfterFront(b, [run[0]]);
    TwiceMore(b, [run[0]] + c, r, id, b.pending[id], d2);
    assert [run[0]] + c + r == run;
  }

  /** Another timer and its function leave timer id as it was. */
  lemma OneThenCalls(b: Bag, e: Event, c: seq<Event>, r: seq<Event>, ops: seq<Op>, id: nat)
    requires NotLate(b) && Runs(b, [e] + (c + r)) && e.Fired? && e != Fired(id) && NotAbout(ops, id)
    requires c == Calls(Next(b, e), ops)
    ensures var b2 := After(Next(b, e), c);
      && NotLate(b2) && Runs(b2, r) && b2.now == b.now
      && (id in b2.pending <==> id in b.pending) && (id in b.pending ==> b2.pending[id] == b.pending[id])
    ensures Firings(b, [e] + c, id) == []
  {
    hide Calls, After, Runs, Firings, NotLate, Enabled, Next;
    var b1 := Next(b, e);
    FiredOther(b, e, id);
    RunsCut(b, [e], c + r);
    AfterFront(b, [e]);
    NeverLate(b, [e]);
    RunsCut(b1, c, r);
    NeverLate(b1, c);
    CallsElsewhere(b1, ops, id);
    CallsQuiet(b1, ops);
    FiringsJoin(b, [e], c, id);
    NoFiring(b, e, id);
    NothingTouched(b1, id);
  }

  lemma FirstCall(fired: seq<nat>, k: nat, id: nat)
    requires k < |fired| && id !in fired[..k] && fired[0] == id
    ensures k == 0
  {
  }

  lemma NoneFired()
    ensures FiredIds([]) == []
  {
  }

  lemma TickKeeps(b: Bag)
    ensures Next(b, Ticked).pending == b.pending
  {
  }

  lemma FiredOther(b: Bag, e: Event, id: nat)
    requires e != Fired(id)
    ensures e.Fired? ==> SameFor(b, Next(b, e), id)
  {
  }

  /** It fires at its deadline, and once more at the new one, when that is past. */
  ghost predicate FiresAgain(b: Bag, run: seq<Event>, id: nat, expires: nat)
    requires id in b.pending
  {
    var (d, a) := (b.pending[id], After(b, run));
    var d2 := Deadline(d, expires);
    if d2 < a.now then Firings(b, run, id) == [d, d2] && id !in a.pending
    else Firings(b, run, id) == [d] && id in a.pending && a.pending[id] == d2
  }

  /** Call k is the first one of timer id. */
  ghost predicate CalledAt(fired: seq<nat>, k: nat, id: nat) {
    k < |fired| && fired[k] == id && id !in fired[..k]
  }

  lemma AllFireAgain(b: Bag, run: seq<Event>, script: seq<seq<Op>>)
    requires NotLate(b) && Runs(b, run) && Obeys(b, run, script) && Past(b, run)
    ensures var fired := FiredIds(run);
      forall k: nat, j: nat, id :: SetsAgain(script, k, j, id) && CalledAt(fired, k, id) && id in b.pending ==>
        FiresAgain(b, run, id, script[k][j].expires)
  {
    hide Runs, Obeys, SetsAgain, Deadline;
    var fired := FiredIds(run);
    forall k: nat, j: nat, id | SetsAgain(script, k, j, id) && CalledAt(fired, k, id) && id in b.pending
      ensures k < |script| && j < |script[k]| && !script[k][j].DelOp?
        && FiresAgain(b, run, id, script[k][j].expires)
    {
      SetsWhere(script, k, j, id);
      SetOnce(b, run, script, k, j, id);
      var d2 := Deadline(b.pending[id], script[k][j].expires);
      if Firings(b, run, id) == [b.pending[id], d2] {
        assert Firings(b, run, id)[1] in Firings(b, run, id);
      }
    }
  }
}
