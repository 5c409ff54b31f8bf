/** Bounded waiting among time-sharing tasks. */
module SchedRuns {
  import opened Lists
  import opened SchedSpec

  /** The clock interrupt, or any other reason to call schedule. */
  datatype Step = Tick(ticks: nat) | Reschedule

  /** The tasks on the queue share time: none is realtime, none sleeps, none yields. */
  ghost predicate Sharing(s: Sys) {
    Ok(s) && s.current in s.queue && forall i :: 0 <= i < |s.queue| ==>
      s.tasks[s.queue[i]].policy.Other? && !s.tasks[s.queue[i]].yielding
  }

  /** update_process_times */
  function Ticked(s: Sys, ticks: nat): Sys
    requires s.current in s.tasks
  {
    if s.current == IDLE then s
    else
      var t := s.tasks[s.current];
      s.(tasks := s.tasks[s.current := t.(counter := if t.counter < ticks then 0 else t.counter - ticks)])
  }

  ghost predicate StepTo(s: Sys, step: Step, s': Sys, recalculates: bool)
    requires s.current in s.tasks
  {
    match step
    case Tick(ticks) =>
      if s.tasks[s.current].counter < ticks then ReschedulesTo(Ticked(s, ticks), s', recalculates)
      else s' == Ticked(s, ticks) && !recalculates
    case Reschedule => ReschedulesTo(s, s', recalculates)
  }

  ghost predicate ReschedulesTo(s: Sys, s': Sys, recalculates: bool)
    requires s.current in s.tasks
  {
    exists c :: Scheduled(s, true, s', c) && (recalculates <==> c == 0)
  }

  /** How many clock interrupts a task can take until the counters are recalculated. */
  function Need(t: Task, runs: bool): int {
    if t.counter > 0 then t.counter + 1 else if runs then 1 else 0
  }

  ghost function Needs(s: Sys): map<nat, int> {
    map p | p in s.tasks :: Need(s.tasks[p], p == s.current)
  }

  ghost function Slack(s: Sys): int
    requires QueueOk(s.tasks, s.queue)
  {
    Sum(Needs(s), s.queue)
  }

  lemma TickedOk(s: Sys, ticks: nat)
    requires Ok(s)
    ensures s.current in s.tasks && Ok(Ticked(s, ticks)) && (Sharing(s) ==> Sharing(Ticked(s, ticks)))
  {
    assert s.current in s.tasks;
    if s.current != IDLE {
      assert InBounds(s.tasks[s.current], s.slice);
    }
    assert forall i :: 0 <= i < |s.queue| ==> s.queue[i] in s.queue;
  }

  /** Among time-sharing tasks schedule leaves the queue alone, and every task too, unless all
      are out of time. */
  lemma SharingChoice(s: Sys, s': Sys, recalculates: bool)
    requires Sharing(s) && ReschedulesTo(s, s', recalculates)
    ensures s'.queue == s.queue && Ok(s') && s'.current in s.queue
    ensures recalculates <==> forall i :: 0 <= i < |s.queue| ==> s.tasks[s.queue[i]].counter == 0
    ensures !recalculates ==> s'.tasks == s.tasks && Sharing(s') && s.tasks[s'.current].counter > 0
  {
    var c :| Scheduled(s, true, s', c) && (recalculates <==> c == 0);
    assert s.tasks[s.current].policy.Other?;
    assert Renewed(s) == s && Candidates(s, true) == s.queue;
    ScheduledOk(s, true, s', c);
    OutOfTime(s.tasks, s.queue, s.slice, s.tasks[s.current].mm, s'.current, c);
    var i :| FirstBest(s.tasks, s.queue, s.tasks[s.current].mm, i) && s'.current == s.queue[i]
      && c == Weight(s.tasks[s.queue[i]], s.tasks[s.current].mm);
    assert s.queue[i] in s.queue && InBounds(s.tasks[s.queue[i]], s.slice);
    if !recalculates {
      forall p | p in s.queue ensures !s.tasks[p].yielding { var j :| 0 <= j < |s.queue| && s.queue[j] == p; }
      assert Unyielded(s.tasks, s.queue) == s.tasks;
    }
  }

  /** Choosing another task takes nothing from the slack, unless the old one was out of time. */
  lemma ChoiceSlack(s: Sys, s': Sys)
    requires Sharing(s) && ReschedulesTo(s, s', false)
    ensures Sharing(s') && s'.queue == s.queue && s'.tasks == s.tasks
    ensures Slack(s') == Slack(s) - if s.tasks[s.current].counter == 0 then 1 else 0
  {
    SharingChoice(s, s', false);
    assert InBounds(s.tasks[s.current], s.slice);
    var mid := Needs(s)[s.current := Need(s.tasks[s.current], false)];
    hide Need;
    if s'.current == s.current {
      SumSame(Needs(s), Needs(s'), s.queue);
    } else {
      SumDiffer(Needs(s), mid, s.queue, s.current);
      SumDiffer(mid, Needs(s'), s.queue, s'.current);
    }
    NeedChange(s.tasks[s.current], s.tasks[s'.current]);
  }

  lemma NeedChange(t: Task, u: Task)
    requires t.counter >= 0 && u.counter > 0
    ensures Need(t, false) == Need(t, true) - (if t.counter == 0 then 1 else 0) && Need(u, true) == Need(u, false)
  {
  }

  /** Every clock interrupt takes something from the slack. */
  lemma TickSlack(s: Sys, ticks: nat, s': Sys)
    requires Sharing(s) && ticks > 0 && StepTo(s, Tick(ticks), s', false)
    ensures Sharing(s') && s'.queue == s.queue && Slack(s') < Slack(s)
    ensures forall p :: p in s.queue && p != s.current ==> s'.tasks[p] == s.tasks[p]
  {
    var s1 := Ticked(s, ticks);
    TickedOk(s, ticks);
    assert InBounds(s.tasks[s.current], s.slice);
    SumDiffer(Needs(s), Needs(s1), s.queue, s.current);
    if s.tasks[s.current].counter < ticks {
      ChoiceSlack(s1, s');
    }
  }

  // ---- Runs

  /** states[0], steps[0], states[1], ... with recalculation only at the steps marked. */
  ghost predicate Run(states: seq<Sys>, steps: seq<Step>, marks: seq<bool>) {
    && |states| == |steps| + 1 && |marks| == |steps| && (forall k :: 0 <= k < |states| ==> Ok(states[k]))
    && forall k :: 0 <= k < |steps| ==>
      states[k].current in states[k].tasks && StepTo(states[k], steps[k], states[k + 1], marks[k])
  }

  function Ticks(steps: seq<Step>): nat {
    if steps == [] then 0
      else Ticks(steps[..|steps| - 1]) + (if steps[|steps| - 1] != Tick(0) && steps[|steps| - 1].Tick? then 1 else 0)
  }

  lemma Shorter(states: seq<Sys>, steps: seq<Step>, marks: seq<bool>)
    requires Run(states, steps, marks) && steps != []
    ensures var n := |steps| - 1;
      Run(states[..n + 1], steps[..n], marks[..n]) && states[n].current in states[n].tasks
        && StepTo(states[n], steps[n], states[n + 1], marks[n])
  {
    hide StepTo, Ok;
  }

  lemma {:induction false} SlackRun(states: seq<Sys>, steps: seq<Step>, marks: seq<bool>)
    requires Run(states, steps, marks) && Sharing(states[0]) && forall k :: 0 <= k < |marks| ==> !marks[k]
    ensures var s := states[|steps|];
      Sharing(s) && s.queue == states[0].queue && Ticks(steps) + Slack(s) <= Slack(states[0])
    decreases |steps|
  {
    if steps != [] {
      var n := |steps| - 1;
      Shorter(states, steps, marks);
      hide Run, StepTo, Slack, Sharing;
      SlackRun(states[..n + 1], steps[..n], marks[..n]);
      StepSlack(states[n], steps[n], states[n + 1]);
    }
  }

  /** A task that does not run keeps its counter. */
  lemma {:induction false} Untouched(states: seq<Sys>, steps: seq<Step>, marks: seq<bool>, p: nat)
    requires Run(states, steps, marks) && Sharing(states[0]) && forall k :: 0 <= k < |marks| ==> !marks[k]
    requires p in states[0].queue && forall k :: 0 <= k < |steps| ==> states[k].current != p
    ensures p in states[|steps|].tasks && p in states[0].tasks && states[|steps|].tasks[p] == states[0].tasks[p]
    decreases |steps|
  {
    if steps != [] {
      var n := |steps| - 1;
      Shorter(states, steps, marks);
      SlackRun(states[..n + 1], steps[..n], marks[..n]);
      hide Run, StepTo, Slack;
      Untouched(states[..n + 1], steps[..n], marks[..n], p);
      StepSlack(states[n], steps[n], states[n + 1]);
    }
  }

  lemma StepSlack(s: Sys, step: Step, s': Sys)
    requires Sharing(s) && StepTo(s, step, s', false)
    ensures Sharing(s') && s'.queue == s.queue
    ensures Slack(s') + (if step.Tick? && step != Tick(0) then 1 else 0) <= Slack(s)
    ensures forall p :: p in s.queue && p != s.current ==> s'.tasks[p] == s.tasks[p]
  {
    match step
    case Tick(ticks) =>
      if ticks > 0 {
        TickSlack(s, ticks, s');
      } else {
        assert InBounds(s.tasks[s.current], s.slice);
        assert s' == s by { assert s.tasks[s.current := s.tasks[s.current]] == s.tasks; }
      }
    case Reschedule => ChoiceSlack(s, s');
  }

  ghost function Budgets(s: Sys): map<nat, int> {
    map p | p in s.tasks :: s.tasks[p].counter + 1
  }

  /** The sum of counter + 1 over the queue. */
  ghost function Budget(s: Sys): int
    requires QueueOk(s.tasks, s.queue)
  {
    Sum(Budgets(s), s.queue)
  }

  lemma {:induction false} SumLeq(f: map<nat, int>, g: map<nat, int>, s: seq<nat>)
    requires forall y :: y in s ==> y in f && y in g && 0 <= f[y] <= g[y]
    ensures 0 <= Sum(f, s) <= Sum(g, s)
  {
    if s != [] {
      SumLeq(f, g, s[1..]);
    }
  }

  /** As long as the counters are not recalculated, there are no more clock interrupts than the
      sum of counter + 1 over the tasks. */
  lemma BoundedWait(states: seq<Sys>, steps: seq<Step>, marks: seq<bool>)
    requires Run(states, steps, marks) && Sharing(states[0]) && forall k :: 0 <= k < |marks| ==> !marks[k]
    ensures Ticks(steps) <= Budget(states[0])
  {
    SlackRun(states, steps, marks);
    var (s0, s) := (states[0], states[|steps|]);
    forall p | p in s0.queue ensures 0 <= Needs(s0)[p] <= Budgets(s0)[p] { assert InBounds(s0.tasks[p], s0.slice); }
    SumLeq(Needs(s0), Budgets(s0), s0.queue);
    forall p | p in s.queue ensures 0 <= Needs(s)[p] { assert InBounds(s.tasks[p], s.slice); }
    SumLeq(Needs(s), Needs(s), s.queue);
  }

  /** When they are recalculated, every task that had time left has run. */
  lemma EveryoneRan(states: seq<Sys>, steps: seq<Step>, marks: seq<bool>, p: nat)
    requires Run(states, steps, marks) && Sharing(states[0]) && steps != [] && marks[|marks| - 1]
    requires forall k :: 0 <= k < |marks| - 1 ==> !marks[k]
    requires p in states[0].queue && states[0].tasks[p].counter > 0
    ensures exists k :: 0 <= k < |steps| && states[k].current == p
  {
    var n := |steps| - 1;
    Shorter(states, steps, marks);
    SlackRun(states[..n + 1], steps[..n], marks[..n]);
    if forall k :: 0 <= k < |steps| ==> states[k].current != p {
      Untouched(states[..n + 1], steps[..n], marks[..n], p);
      OutWhenMarked(states[n], steps[n], states[n + 1], p);
    }
  }

  lemma OutWhenMarked(s: Sys, step: Step, s': Sys, p: nat)
    requires Sharing(s) && StepTo(s, step, s', true) && p in s.queue && p != s.current
    ensures s.tasks[p].counter == 0
  {
    var i :| 0 <= i < |s.queue| && s.queue[i] == p;
    match step
    case Tick(ticks) =>
      TickedOk(s, ticks);
      SharingChoice(Ticked(s, ticks), s', true);
    case Reschedule => SharingChoice(s, s', true);
  }
}
