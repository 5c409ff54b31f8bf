/** The scheduler's operations, on a run queue linked through the tasks. */
module Sched {
  import opened Lists
  import opened Rings
  import opened SchedSpec
  import opened SchedQueue
  import opened SchedRuns

  datatype Error = None | EINVAL | EPERM | ESRCH

  datatype PolicyArg = Same | Set(policy: Policy) | Unknown

  function Clamp(x: int, slice: int): int {
    if x < 1 then 1 else if x > 2 * slice then 2 * slice else x
  }

  /** The change of priority that goes with a change of the nice value. */
  function NiceStep(increment: int, slice: int): int {
    var n := if increment < 0 then -increment else increment;
    var m := if n > 40 then 40 else n;
    (m * slice + 10) / 20
  }

  /** It is the slice for every 20 steps, to the nearest tick: a nice value of 20 is worth one slice,
      and nothing is worth more than two. */
  lemma NiceNearest(increment: int, slice: int)
    requires slice >= 1
    ensures NiceStep(20, slice) == slice && 0 <= NiceStep(increment, slice) <= 2 * slice
    ensures var n := if increment < 0 then -increment else increment;
      n <= 40 ==> n * slice - 10 < 20 * NiceStep(increment, slice) <= n * slice + 10
  {
    var n := if increment < 0 then -increment else increment;
    var m := if n > 40 then 40 else n;
    assert m * slice <= 40 * slice;
  }

  // ---- Scanning the run queue

  /** The first n have been looked at. */
  ghost predicate Scanned(tasks: map<nat, Task>, queue: seq<nat>, mm: nat, n: nat, x: nat, c: int)
    requires n <= |queue| && forall i :: 0 <= i < |queue| ==> queue[i] in tasks
  {
    Chosen(tasks, queue[..n], mm, x, c)
  }

  lemma ScanNext(tasks: map<nat, Task>, queue: seq<nat>, slice: int, mm: nat, n: nat, x: nat, c: int)
    requires n < |queue| && (forall i :: 0 <= i < |queue| ==> queue[i] in tasks) && Scanned(tasks, queue, mm, n, x, c)
    requires InBounds(tasks[queue[n]], slice)
    ensures var w := Weight(tasks[queue[n]], mm);
      Scanned(tasks, queue, mm, n + 1, if w > c then queue[n] else x, if w > c then w else c)
  {
    var w := Weight(tasks[queue[n]], mm);
    var q, q' := queue[..n], queue[..n + 1];
    assert forall k :: 0 <= k < n ==> q'[k] == q[k];
    assert q'[n] == queue[n];
    if n == 0 {
      assert FirstBest(tasks, q', mm, 0);
    } else {
      var i :| FirstBest(tasks, q, mm, i) && x == q[i] && c == Weight(tasks[x], mm);
      if w > c {
        assert FirstBest(tasks, q', mm, n);
      } else {
        assert FirstBest(tasks, q', mm, i);
      }
    }
  }

  /** goodness clears the flag of a task that yields as it looks at it. */
  ghost function Looked(tasks: map<nat, Task>, queue: seq<nat>, n: nat): map<nat, Task>
    requires n <= |queue|
  {
    Unyielded(tasks, queue[..n])
  }

  lemma LookNext(tasks: map<nat, Task>, queue: seq<nat>, n: nat)
    requires n < |queue| && QueueOk(tasks, queue)
    ensures var (p, l) := (queue[n], Looked(tasks, queue, n));
      p in l && l[p] == tasks[p] && Looked(tasks, queue, n + 1) == l[p := l[p].(yielding := false)]
  {
    var q := queue[..n];
    assert queue[..n + 1] == q + [queue[n]];
    assert queue[n] !in q;
  }

  class Scheduler {
    const slice: int
    var tasks: map<nat, Task>
    var run: Wires
    var nrRunning: int
    ghost var queue: seq<nat>
    var current: nat
    var needResched: bool

    ghost function State(): Sys
      reads this
    {
      Sys(tasks, queue, current, slice)
    }

    ghost predicate Linked()
      reads this
    {
      RunQueue(run, queue) && nrRunning == |queue|
    }

    ghost predicate Valid()
      reads this
    {
      Ok(State()) && tasks[IDLE].policy.Other? && Linked()
    }

    /** Only the idle task. */
    constructor (idle: Task, slice: int)
      requires slice >= 1 && idle.policy.Other?
      ensures Valid() && queue == [] && current == IDLE && this.slice == slice
    {
      this.slice := slice;
      tasks, queue, current, needResched := map[IDLE := idle], [], IDLE, false;
      run, nrRunning := Wires(map[IDLE := IDLE], map[IDLE := IDLE]), 0;
    }

    /** add_to_runqueue */
    method AddToRunqueue(p: nat)
      requires Linked() && p != IDLE && p !in queue
      modifies this`queue, this`run, this`nrRunning
      ensures Linked() && queue == [p] + old(queue) && (old(Valid()) && p in tasks ==> Valid())
    {
      hide RunQueue, Ok;
      QueueFirst(run, queue, p);
      var next := run.next[IDLE];
      run := run.(prev := run.prev[p := IDLE]);
      run := run.(next := run.next[IDLE := p]);
      run := run.(next := run.next[p := next]);
      run := run.(prev := run.prev[next := p]);
      nrRunning := nrRunning + 1;
      assert run == LinkedAfter(old(run), IDLE, p);
      queue := [p] + queue;
      if old(Valid()) && p in tasks { JoinedOk(old(State()), p); }
    }

    /** The neighbours of p on the run queue are linked to each other. */
    method Bypass(p: nat)
      requires p in run.next && p in run.prev
      modifies this`run
      ensures var w := old(run); run == Wires(w.next[w.prev[p] := w.next[p]], w.prev[w.next[p] := w.prev[p]])
    {
      var next, prev := run.next[p], run.prev[p];
      run := run.(prev := run.prev[next := prev]);
      run := run.(next := run.next[prev := next]);
    }

    /** del_from_runqueue */
    method DelFromRunqueue(p: nat)
      requires Linked() && p in queue && p != IDLE
      modifies this`queue, this`run, this`nrRunning
      ensures Linked() && queue == Remove(old(queue), p)
    {
      hide RunQueue, Remove;
      QueueLess(run, queue, p);
      nrRunning := nrRunning - 1;
      Bypass(p);
      run := Wires(run.next - {p}, run.prev - {p});
      assert run == Unlinked(old(run), p);
      queue := Remove(queue, p);
    }

    /** move_last_runqueue, of a task on the queue. */
    method MoveLastRunqueue(p: nat)
      requires Linked() && p in queue && p != IDLE
      modifies this`queue, this`run
      ensures Linked() && queue == Remove(old(queue), p) + [p] && (old(Valid()) ==> Valid())
      ensures forall x :: x in queue <==> x in old(queue)
    {
      hide RunQueue, Remove, Ok;
      QueueLess(run, queue, p);
      QueueLast(Unlinked(run, p), Remove(queue, p), p);
      Bypass(p);
      run := run.(next := run.next[p := IDLE]);
      var prev := run.prev[IDLE];
      run := run.(prev := run.prev[IDLE := p]);
      run := run.(prev := run.prev[p := prev]);
      run := run.(next := run.next[prev := p]);
      assert run == LinkedAfter(Unlinked(old(run), p), prev, p);
      queue := Remove(queue, p) + [p];
      JoinDistinct(Remove(old(queue), p), [p]);
      if old(Valid()) { MovedOk(old(State()), queue); }
    }

    /** move_first_runqueue, of a task on the queue. */
    method MoveFirstRunqueue(p: nat)
      requires Linked() && p in queue && p != IDLE
      modifies this`queue, this`run
      ensures Linked() && queue == [p] + Remove(old(queue), p) && (old(Valid()) ==> Valid())
      ensures forall x :: x in queue <==> x in old(queue)
    {
      hide RunQueue, Remove, Ok;
      QueueLess(run, queue, p);
      QueueFirst(Unlinked(run, p), Remove(queue, p), p);
      Bypass(p);
      run := run.(prev := run.prev[p := IDLE]);
      var next := run.next[IDLE];
      run := run.(next := run.next[IDLE := p]);
      run := run.(next := run.next[p := next]);
      run := run.(prev := run.prev[next := p]);
      assert run == LinkedAfter(Unlinked(old(run), p), IDLE, p);
      queue := [p] + Remove(queue, p);
      JoinDistinct([p], Remove(old(queue), p));
      if old(Valid()) { MovedOk(old(State()), queue); }
    }

    /** wake_up_process */
    method WakeUpProcess(p: nat)
      requires Valid() && p in tasks && p != IDLE
      modifies this`queue, this`run, this`nrRunning
      ensures Valid() && queue == if p in old(queue) then old(queue) else [p] + old(queue)
    {
      OnQueue(run, queue, p);
      if p !in run.next {
        AddToRunqueue(p);
      }
    }

    /** goodness */
    method Goodness(p: nat, mm: nat) returns (weight: int)
      requires p in tasks
      modifies this`tasks
      ensures weight == Weight(old(tasks)[p], mm) && tasks == old(tasks)[p := old(tasks)[p].(yielding := false)]
    {
      var t := tasks[p];
      if t.yielding {
        tasks := tasks[p := t.(yielding := false)];
        return 0;
      }
      assert tasks[p := t.(yielding := false)] == tasks;
      if !t.policy.Other? {
        return 1000 + t.rtPriority;
      }
      weight := t.counter;
      if weight != 0 {
        if t.mm == mm {
          weight := weight + 1;
        }
        weight := weight + t.priority;
      }
    }

    /** schedule. `stays` says that the current task is still runnable. */
    method Schedule(stays: bool) returns (c: int)
      requires Valid() && (!stays ==> current != IDLE)
      modifies this
      ensures Valid() && !needResched
      ensures old(current) in old(tasks) && Scheduled(old(State()), stays, State(), c)
      ensures tasks.Keys == old(tasks).Keys && forall p :: p in tasks ==> Charged(old(State()), State(), c, p)
      ensures Reordered(old(State()), stays, State())
    {
      hide Weight, Chosen, Unyielded, Recalculated, Scheduled, Ok, Charged, Reordered;
      ghost var s := State();
      Begin(s, stays);
      needResched := false;
      var prev := current;
      assert prev == IDLE || prev in queue by { RunsQueued(s); }
      assert prev == IDLE ==> tasks[prev].policy.Other?;
      if tasks[prev].counter == 0 && tasks[prev].policy.RoundRobin? && !tasks[prev].yielding {
        tasks := tasks[prev := tasks[prev].(counter := tasks[prev].priority)];
        MoveLastRunqueue(prev);
      }
      if !stays {
        DelFromRunqueue(prev);
      }
      assert tasks == Renewed(s).tasks && queue == Candidates(s, stays);
      c := Choose(tasks[prev].mm);
      Finish(s, stays, current, c);
      if c == 0 {
        tasks := Recalculated(tasks);
      }
    }

    /** The scheduler proper: the first of the greatest weight, or the idle task. */
    method Choose(mm: nat) returns (c: int)
      requires QueueOk(tasks, queue) && Linked() && AllInBounds(tasks, slice)
      modifies this`tasks, this`current
      ensures Chosen(old(tasks), queue, mm, current, c) && tasks == Unyielded(old(tasks), queue)
    {
      hide Weight, Chosen, RunQueue;
      ghost var tasks0 := tasks;
      c := -1000;
      current := IDLE;
      StartScan(tasks, queue, mm);
      ghost var i := 0;
      QueueNext(run, queue, 0);
      var p := run.next[IDLE];
      while p != IDLE
        invariant 0 <= i <= |queue| && tasks == Looked(tasks0, queue, i) && Scanned(tasks0, queue, mm, i, current, c)
        invariant p == if i < |queue| then queue[i] else IDLE
        decreases |queue| - i
      {
        LookNext(tasks0, queue, i);
        ScanNext(tasks0, queue, slice, mm, i, current, c);
        var weight := Goodness(p, mm);
        if weight > c {
          c := weight;
          current := p;
        }
        i := i + 1;
        QueueNext(run, queue, i);
        p := run.next[p];
      }
      assert queue[..i] == queue;
    }

    /** update_process_times */
    method UpdateProcessTimes(ticks: nat)
      requires Valid()
      modifies this`tasks, this`needResched
      ensures Valid() && current in old(tasks) && State() == Ticked(old(State()), ticks)
      ensures current == IDLE ==> tasks == old(tasks)
      ensures current != IDLE ==>
        var t := old(tasks)[current];
        tasks == old(tasks)[current := t.(counter := t.counter - if ticks < t.counter then ticks else t.counter)]
      ensures needResched <==> old(needResched) || (current != IDLE && old(tasks)[current].counter < ticks)
    {
      TickedOk(State(), ticks);
      if current != IDLE {
        var t := tasks[current];
        var counter := t.counter - ticks;
        if counter < 0 {
          counter := 0;
          needResched := true;
        }
        tasks := tasks[current := t.(counter := counter)];
      }
    }

    /** sys_nice */
    method Nice(increment: int, capable: bool) returns (error: Error)
      requires Valid() && current != IDLE
      modifies this`tasks
      ensures Valid() && error == if increment < 0 && !capable then EPERM else None
      ensures var t := old(tasks)[current];
        tasks == if error == None
          then old(tasks)[current := t.(priority := Clamp(if increment < 0 then t.priority + NiceStep(increment, slice)
            else t.priority - NiceStep(increment, slice), slice))] else old(tasks)
    {
      var newprio := increment;
      var increase := false;
      if increment < 0 {
        if !capable {
          return EPERM;
        }
        newprio := -increment;
        increase := true;
      }
      if newprio > 40 {
        newprio := 40;
      }
      newprio := (newprio * slice + 10) / 20;
      var t := tasks[current];
      assert InBounds(t, slice);
      newprio := t.priority - if increase then -newprio else newprio;
      if newprio < 1 {
        newprio := 1;
      }
      if newprio > slice * 2 {
        newprio := slice * 2;
      }
      tasks := tasks[current := t.(priority := newprio)];
      error := None;
    }

    /** setscheduler, by somebody who may, or may not, do this. */
    method SetScheduler(p: nat, arg: PolicyArg, priority: int, capable: bool, owner: bool) returns (error: Error)
      requires Valid() && p != IDLE
      modifies this
      ensures Valid()
      ensures error != None ==> State() == old(State()) && needResched == old(needResched)
      ensures error == None ==> p in old(tasks) && needResched
      ensures error == None ==>
        var t := old(tasks)[p];
        && tasks == old(tasks)[p := (if arg.Set? then t.(policy := arg.policy, yielding := false)
          else t).(rtPriority := priority)]
        && queue == if p in old(queue) then [p] + Remove(old(queue), p) else old(queue)
      ensures error == ESRCH <==> p !in old(tasks)
      ensures p in old(tasks) && arg.Set? ==>
        (error == EINVAL <==> (if arg.policy.Other? then priority != 0 else !(1 <= priority <= 99)))
      ensures p in old(tasks) && arg.Unknown? ==> error == EINVAL
      ensures p in old(tasks) && arg.Same? ==>
        var t := old(tasks)[p];
          (error == EINVAL <==> if t.policy.Other? && !t.yielding then priority != 0 else !(1 <= priority <= 99))
      ensures p in old(tasks) && error != EINVAL ==>
        (error == EPERM <==> !capable && (!owner || !(if arg.Set? then arg.policy else old(tasks)[p].policy).Other?))
    {
      if p !in tasks {
        return ESRCH;
      }
      var t := tasks[p];
      assert InBounds(t, slice);
      var policy, yielding := t.policy, t.yielding;
      if arg.Set? {
        policy, yielding := arg.policy, false;
      } else if arg.Unknown? {
        return EINVAL;
      }
      if priority < 0 || priority > 99 {
        return EINVAL;
      }
      if (policy.Other? && !yielding) != (priority == 0) {
        return EINVAL;
      }
      if !policy.Other? && !capable {
        return EPERM;
      }
      if !owner && !capable {
        return EPERM;
      }
      tasks := tasks[p := t.(policy := policy, yielding := yielding, rtPriority := priority)];
      OnQueue(run, queue, p);
      if p in run.next {
        MoveFirstRunqueue(p);
      }
      needResched := true;
      error := None;
    }

    /** sys_sched_yield */
    method Yield()
      requires Valid() && current != IDLE
      modifies this
      ensures Valid() && needResched && queue == Remove(old(queue), current) + [current] && current == old(current)
      ensures tasks == if old(tasks)[current].policy.Other?
        then old(tasks)[current := old(tasks)[current].(yielding := true)] else old(tasks)
    {
      assert InBounds(tasks[current], slice);
      if tasks[current].policy.Other? {
        tasks := tasks[current := tasks[current].(yielding := true)];
      }
      needResched := true;
      MoveLastRunqueue(current);
    }

    /** The part of do_fork that shares the time slice, and wakes the child. */
    method Fork(child: nat)
      requires Valid() && child !in tasks && (current == IDLE ==> InBounds(tasks[IDLE], slice))
      modifies this
      ensures Valid() && queue == [child] + old(queue) && current == old(current)
      ensures var (t, t') := (old(tasks)[current], tasks[current]);
        && tasks == old(tasks)[current := t'][child := t'] && t' == t.(counter := t.counter / 2)
        && t.counter - 1 <= tasks[current].counter + tasks[child].counter <= t.counter
    {
      assert InBounds(tasks[current], slice);
      var t := tasks[current].(counter := tasks[current].counter / 2);
      tasks := tasks[current := t][child := t];
      assert forall i :: 0 <= i < |queue| ==> queue[i] in queue;
      WakeUpProcess(child);
    }
  }

  lemma RunsQueued(s: Sys)
    requires Ok(s)
    ensures s.current == IDLE || s.current in s.queue
  {
  }

  lemma JoinedOk(s: Sys, p: nat)
    requires Ok(s) && p in s.tasks && p != IDLE && p !in s.queue
    ensures Ok(s.(queue := [p] + s.queue))
  {
    JoinDistinct([p], s.queue);
  }

  lemma MovedOk(s: Sys, queue: seq<nat>)
    requires Ok(s) && Distinct(queue) && forall x :: x in queue <==> x in s.queue
    ensures Ok(s.(queue := queue))
  {
    StillListed(s.tasks, s.queue, queue);
  }

  lemma Begin(s: Sys, stays: bool)
    requires Ok(s) && (!stays ==> s.current != IDLE) && s.tasks[IDLE].policy.Other?
    ensures s.current in s.tasks && QueueOk(Renewed(s).tasks, Candidates(s, stays))
    ensures AllInBounds(Renewed(s).tasks, s.slice)
  {
    hide Weight, Remove, InBounds, QueueOk;
    RenewedOk(s, stays);
  }

  lemma Finish(s: Sys, stays: bool, x: nat, c: int)
    requires Ok(s) && (!stays ==> s.current != IDLE) && s.tasks[IDLE].policy.Other? && s.current in s.tasks
    requires QueueOk(Renewed(s).tasks, Candidates(s, stays))
    requires Chosen(Renewed(s).tasks, Candidates(s, stays), s.tasks[s.current].mm, x, c)
    ensures var tasks := Unyielded(Renewed(s).tasks, Candidates(s, stays));
      var s' := Sys(if c == 0 then Recalculated(tasks) else tasks, Candidates(s, stays), x, s.slice);
      && Scheduled(s, stays, s', c) && Ok(s') && s'.tasks[IDLE].policy.Other?
      && s'.tasks.Keys == s.tasks.Keys && Reordered(s, stays, s') && forall p :: p in s.tasks ==> Charged(s, s', c, p)
  {
    hide Weight, Remove, InBounds, Chosen, Candidates, Reordered;
    var tasks := Unyielded(Renewed(s).tasks, Candidates(s, stays));
    ScheduledOk(s, stays, Sys(if c == 0 then Recalculated(tasks) else tasks, Candidates(s, stays), x, s.slice), c);
  }

  lemma StartScan(tasks: map<nat, Task>, queue: seq<nat>, mm: nat)
    requires QueueOk(tasks, queue)
    ensures Scanned(tasks, queue, mm, 0, IDLE, -1000) && Looked(tasks, queue, 0) == tasks
  {
  }

  lemma StillListed(tasks: map<nat, Task>, queue: seq<nat>, queue': seq<nat>)
    requires QueueOk(tasks, queue) && Distinct(queue') && forall x :: x in queue' ==> x in queue
    ensures QueueOk(tasks, queue')
  {
    forall i | 0 <= i < |queue'| ensures queue'[i] in tasks && queue'[i] != IDLE { assert queue'[i] in queue; }
  }
}
