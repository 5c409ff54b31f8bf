/** Timers as a bag of deadlines: what the timer wheel is to behave like. Time is the number
    of ticks processed since boot, without wrap-around. */
module TimerSpec {

  const WORD: nat := 0x1_0000_0000
  const HALF: nat := 0x8000_0000

  /** The tick at which a timer set to a 32-bit `expires` fires: less than 2^31 ahead counts as
      the future, anything else as the past, which means now. */
  function Deadline(now: nat, expires: nat): (d: nat)
    ensures d >= now
  {
    var ahead := (expires + WORD - now % WORD) % WORD;
    if ahead < HALF then now + ahead else now
  }

  datatype Bag = Bag(now: nat, pending: map<nat, nat>)

  datatype Event = Added(id: nat, expires: nat) | Modified(id: nat,
    expires: nat) | Deleted(id: nat) | Fired(id: nat) | Ticked

  /** A timer fires at its deadline and a tick ends only when nothing is left to fire. */
  ghost predicate Enabled(b: Bag, e: Event) {
    match e
    case Added(id, _) => id !in b.pending
    case Modified(_, _) => true
    case Deleted(_) => true
    case Fired(id) => id in b.pending && b.pending[id] == b.now
    case Ticked => forall id :: id in b.pending ==> b.pending[id] > b.now
  }

  ghost function Next(b: Bag, e: Event): Bag {
    match e
    case Added(id, expires) => b.(pending := b.pending[id := Deadline(b.now, expires)])
    case Modified(id, expires) => b.(pending := b.pending[id := Deadline(b.now, expires)])
    case Deleted(id) => b.(pending := b.pending - {id})
    case Fired(id) => b.(pending := b.pending - {id})
    case Ticked => b.(now := b.now + 1)
  }

  ghost function After(b: Bag, run: seq<Event>): Bag {
    if run == [] then b else Next(After(b, run[..|run| - 1]), run[|run| - 1])
  }

  ghost predicate Runs(b: Bag, run: seq<Event>) {
    forall i :: 0 <= i < |run| ==> Enabled(After(b, run[..i]), run[i])
  }

  lemma RunsMore(b: Bag, run: seq<Event>, e: Event)
    requires Runs(b, run) && Enabled(After(b, run), e)
    ensures Runs(b, run + [e]) && After(b, run + [e]) == Next(After(b, run), e)
  {
    hide Enabled, Next;
    var more := run + [e];
    assert more[..|run|] == run;
    forall i | 0 <= i < |more| ensures Enabled(After(b, more[..i]), more[i]) {
      if i < |run| {
        assert more[..i] == run[..i];
      }
    }
  }

  lemma RunsPrefix(b: Bag, run: seq<Event>)
    requires run != [] && Runs(b, run)
    ensures Runs(b, run[..|run| - 1]) && Enabled(After(b, run[..|run| - 1]), run[|run| - 1])
  {
    hide Enabled, Next;
    var r := run[..|run| - 1];
    forall i | 0 <= i < |r| ensures Enabled(After(b, r[..i]), r[i]) {
      assert r[..i] == run[..i];
    }
    assert Enabled(After(b, run[..|r|]), run[|r|]);
  }

  lemma {:induction false} RunsJoin(b: Bag, r1: seq<Event>, r2: seq<Event>)
    requires Runs(b, r1) && Runs(After(b, r1), r2)
    ensures Runs(b, r1 + r2) && After(b, r1 + r2) == After(After(b, r1), r2)
  {
    hide Enabled, Next;
    if r2 == [] {
      assert r1 + r2 == r1;
    } else {
      var r, e := r2[..|r2| - 1], r2[|r2| - 1];
      RunsPrefix(After(b, r1), r2);
      RunsJoin(b, r1, r);
      RunsMore(b, r1 + r, e);
      assert r1 + r2 == (r1 + r) + [e];
    }
  }

  ghost predicate NotLate(b: Bag) {
    forall id :: id in b.pending ==> b.pending[id] >= b.now
  }

  lemma {:induction false} NeverLate(b: Bag, run: seq<Event>)
    requires NotLate(b) && Runs(b, run)
    ensures NotLate(After(b, run)) && After(b, run).now >= b.now
  {
    if run != [] {
      var r := run[..|run| - 1];
      RunsPrefix(b, run);
      NeverLate(b, r);
    }
  }

  /** How often, and at what tick, a run fires timer id. */
  ghost function Firings(b: Bag, run: seq<Event>, id: nat): seq<nat> {
    if run == [] then []
    else
      var r := run[..|run| - 1];
      Firings(b, r, id) + (if run[|r|] == Fired(id) then [After(b, r).now] else [])
  }

  /** The run leaves timer id alone. */
  ghost predicate Untouched(run: seq<Event>, id: nat) {
    forall i :: 0 <= i < |run| ==>
      !(run[i].Added? && run[i].id == id) && !(run[i].Modified? && run[i].id == id) && run[i] != Deleted(id)
  }

  /** A pending timer that nobody touches fires exactly once, at its deadline, and is gone once
      that tick has ended. */
  lemma {:induction false} FiresOnce(b: Bag, run: seq<Event>, id: nat)
    requires NotLate(b) && id in b.pending && Runs(b, run) && Untouched(run, id)
    ensures var a := After(b, run);
      || (Firings(b, run, id) == [] && id in a.pending && a.pending[id] == b.pending[id] && a.now <= b.pending[id])
      || (Firings(b, run, id) == [b.pending[id]] && id !in a.pending)
  {
    if run != [] {
      var r := run[..|run| - 1];
      RunsPrefix(b, run);
      FiresOnce(b, r, id);
    }
  }

  /** A timer that is not pending and that nobody sets never fires. */
  lemma {:induction false} FiresNever(b: Bag, run: seq<Event>, id: nat)
    requires id !in b.pending && Runs(b, run) && Untouched(run, id)
    ensures Firings(b, run, id) == [] && id !in After(b, run).pending
  {
    if run != [] {
      var r := run[..|run| - 1];
      RunsPrefix(b, run);
      FiresNever(b, r, id);
    }
  }
}
