/** The scheduler: what a choice of the next task means, and what follows for whole runs. */
module SchedSpec {
  import opened Lists

  const IDLE: nat := 0

  datatype Policy = Other | Fifo | RoundRobin

  datatype Task = Task(policy: Policy, yielding: bool, rtPriority: int, counter: int, priority: int, mm: nat)

  /** All tasks, those on the run queue in order, the one that runs, and the usual slice of time
      DEF_PRIORITY, a fifth of a second, in ticks of a clock whose rate depends on the machine. */
  datatype Sys = Sys(tasks: map<nat, Task>, queue: seq<nat>, current: nat, slice: int)

  /** DEF_PRIORITY, on a machine whose clock ticks hz times a second. */
  function DefPriority(hz: nat): nat {
    20 * hz / 100
  }

  ghost predicate InBounds(t: Task, slice: int) {
    && 1 <= t.priority <= 2 * slice && 0 <= t.counter < 4 * slice && 0 <= t.rtPriority <= 99
    && (t.policy.Other? || 1 <= t.rtPriority) && (t.yielding ==> t.policy.Other?)
  }

  /** The counter of the idle task is out of bounds, so that anybody preempts it. */
  ghost predicate AllInBounds(tasks: map<nat, Task>, slice: int) {
    forall p :: p in tasks && p != IDLE ==> InBounds(tasks[p], slice)
  }

  ghost predicate QueueOk(tasks: map<nat, Task>, queue: seq<nat>) {
    Distinct(queue) && forall i :: 0 <= i < |queue| ==> queue[i] in tasks && queue[i] != IDLE
  }

  ghost predicate Ok(s: Sys) {
    && IDLE in s.tasks && QueueOk(s.tasks, s.queue) && (s.current == IDLE || s.current in s.queue)
    && s.slice >= 1 && AllInBounds(s.tasks, s.slice)
  }

  // ---- The choice

  /** goodness, for a task that shares (or not) the memory of the one that ran last. */
  function Weight(t: Task, mm: nat): int {
    if t.yielding then 0
    else if !t.policy.Other? then 1000 + t.rtPriority
    else if t.counter == 0 then 0
    else t.counter + (if t.mm == mm then 1 else 0) + t.priority
  }

  /** x is the first on the queue of those with the greatest weight, which is c. */
  ghost predicate Chosen(tasks: map<nat, Task>, queue: seq<nat>, mm: nat, x: nat, c: int)
    requires forall i :: 0 <= i < |queue| ==> queue[i] in tasks
  {
    if queue == [] then x == IDLE && c == -1000
    else exists i :: FirstBest(tasks, queue, mm, i) && x == queue[i] && c == Weight(tasks[x], mm)
  }

  ghost predicate FirstBest(tasks: map<nat, Task>, queue: seq<nat>, mm: nat, i: int)
    requires forall k :: 0 <= k < |queue| ==> queue[k] in tasks
  {
    && 0 <= i < |queue|
    && (forall k :: 0 <= k < |queue| ==> Weight(tasks[queue[k]], mm) <= Weight(tasks[queue[i]], mm))
    && (forall k :: 0 <= k < i ==> Weight(tasks[queue[k]], mm) < Weight(tasks[queue[i]], mm))
  }

  /** A realtime task that is runnable is preferred to any other, unless the clock is so fast that
      the slice of a time-sharing task outweighs it; of several, the first of the highest
      priority. */
  lemma RealtimeFirst(tasks: map<nat, Task>, queue: seq<nat>, slice: int, mm: nat, x: nat, c: int, r: int)
    requires QueueOk(tasks, queue) && AllInBounds(tasks, slice) && Chosen(tasks, queue, mm, x, c)
    requires Realtime(tasks, queue, r) && 6 * slice < 1000
    ensures x in tasks && !tasks[x].policy.Other? && c >= 1000
    ensures tasks[x].rtPriority >= tasks[queue[r]].rtPriority
    ensures tasks[x].rtPriority == tasks[queue[r]].rtPriority ==> exists i :: 0 <= i <= r && queue[i] == x
  {
    var i :| FirstBest(tasks, queue, mm, i) && x == queue[i];
    var (t, u) := (tasks[x], tasks[queue[r]]);
    assert InBounds(t, slice) && InBounds(u, slice);
    assert Weight(u, mm) == 1000 + u.rtPriority <= Weight(t, mm);
    assert t.policy.Other? ==> Weight(t, mm) <= 6 * slice;
    if r < i {
      assert Weight(tasks[queue[r]], mm) < Weight(tasks[queue[i]], mm);
    }
  }

  ghost predicate Realtime(tasks: map<nat, Task>, queue: seq<nat>, r: int)
    requires forall i :: 0 <= i < |queue| ==> queue[i] in tasks
  {
    0 <= r < |queue| && !tasks[queue[r]].policy.Other?
  }

  /** While a realtime task is runnable, no other is chosen. */
  ghost predicate AlwaysRealtime(slice: int) {
    forall tasks: map<nat, Task>, queue, mm, x, c, r ::
      QueueOk(tasks, queue) && AllInBounds(tasks, slice) && Chosen(tasks, queue, mm, x, c) && Realtime(tasks, queue, r)
      ==> x in tasks && !tasks[x].policy.Other?
  }

  /** A realtime task, and a time-sharing task of the best nice value that has slept. */
  function Rivals(slice: int, mm: nat): map<nat, Task> {
    map[1 := Task(Fifo, false, 1, slice, slice, mm), 2 := Task(Other, false, 0, 4 * slice - 1, 2 * slice, mm)]
  }

  /** With a longer slice the time-sharing task goes first. */
  lemma RealtimeLast(slice: int, mm: nat)
    requires 1000 <= 6 * slice
    ensures var tasks := Rivals(slice, mm);
      && QueueOk(tasks, [1, 2]) && AllInBounds(tasks, slice) && Realtime(tasks, [1, 2], 0)
      && Chosen(tasks, [1, 2], mm, 2, 6 * slice)
  {
    assert FirstBest(Rivals(slice, mm), [1, 2], mm, 1);
  }

  lemma RealtimeIff(slice: int)
    requires slice >= 1
    ensures AlwaysRealtime(slice) <==> 6 * slice < 1000
  {
    if 6 * slice < 1000 {
      forall tasks: map<nat, Task>, queue, mm, x, c, r |
        && QueueOk(tasks, queue) && AllInBounds(tasks, slice)
        && Chosen(tasks, queue, mm, x, c) && Realtime(tasks, queue, r)
        ensures x in tasks && !tasks[x].policy.Other?
      {
        RealtimeFirst(tasks, queue, slice, mm, x, c, r);
      }
    } else {
      RealtimeLast(slice, 0);
    }
  }

  /** So it is with a clock of 100 Hz, and not with the Alpha's, of 1024 Hz. */
  lemma RealtimeClocks()
    ensures DefPriority(100) == 20 && AlwaysRealtime(DefPriority(100))
    ensures DefPriority(1024) == 204 && !AlwaysRealtime(DefPriority(1024))
    ensures var tasks := map[1 := Task(Fifo, false, 1, 204, 204, 7), 2 := Task(Other, false, 0, 815, 408, 7)];
      AllInBounds(tasks, 204) && QueueOk(tasks, [1, 2]) && Chosen(tasks, [1, 2], 7, 2, 1224)
  {
    RealtimeIff(20);
    RealtimeIff(204);
    RealtimeLast(204, 7);
  }

  /** The counters are recalculated only when every task on the queue is out of time, yields,
      or both. */
  lemma OutOfTime(tasks: map<nat, Task>, queue: seq<nat>, slice: int, mm: nat, x: nat, c: int)
    requires QueueOk(tasks, queue) && AllInBounds(tasks, slice) && Chosen(tasks, queue, mm, x, c)
    ensures c == 0 <==>
      && queue != []
      && forall k :: 0 <= k < |queue| ==>
           tasks[queue[k]].yielding || (tasks[queue[k]].policy.Other? && tasks[queue[k]].counter == 0)
  {
    if queue != [] {
      var i :| FirstBest(tasks, queue, mm, i) && x == queue[i];
      assert InBounds(tasks[x], slice);
      forall k | 0 <= k < |queue|
        ensures 0 <= Weight(tasks[queue[k]], mm) <= c
          && (Weight(tasks[queue[k]], mm) == 0 <==>
            tasks[queue[k]].yielding || (tasks[queue[k]].policy.Other? && tasks[queue[k]].counter == 0))
      {
        assert InBounds(tasks[queue[k]], slice);
      }
    }
  }

  // ---- What schedule makes of the tasks

  function Recalculated(tasks: map<nat, Task>): map<nat, Task> {
    map p | p in tasks :: if p == IDLE then tasks[p] else ToppedUp(tasks[p])
  }

  function ToppedUp(t: Task): Task {
    t.(counter := t.counter / 2 + t.priority)
  }

  /** What n recalculations make of a task that sleeps. */
  function Rested(t: Task, n: nat): Task
    decreases n
  {
    if n == 0 then t else Rested(ToppedUp(t), n - 1)
  }

  /** The bound on the counters is attained: with the best nice value, a task that sleeps long
      enough gets there. */
  lemma {:induction false} RestFills(t: Task, slice: int)
    requires InBounds(t, slice) && t.priority == 2 * slice
    ensures exists n: nat :: Rested(t, n) == t.(counter := 4 * slice - 1)
    decreases 4 * slice - t.counter
  {
    if t.counter == 4 * slice - 1 {
      assert Rested(t, 0) == t;
    } else {
      var u := ToppedUp(t);
      RestFills(u, slice);
      var n: nat :| Rested(u, n) == u.(counter := 4 * slice - 1);
      assert Rested(t, n + 1) == Rested(u, n);
    }
  }

  function Unyielded(tasks: map<nat, Task>, queue: seq<nat>): map<nat, Task> {
    map p | p in tasks :: if p in queue then tasks[p].(yielding := false) else tasks[p]
  }

  /** A realtime task whose time is up goes to the end of the queue with a new slice. */
  function Expired(s: Sys): bool
    requires s.current in s.tasks
  {
    var t := s.tasks[s.current];
    t.counter == 0 && t.policy.RoundRobin? && !t.yielding
  }

  function Renewed(s: Sys): Sys
    requires s.current in s.tasks
  {
    if Expired(s) then
      var t := s.tasks[s.current];
      s.(tasks := s.tasks[s.current := t.(counter := t.priority)], queue := Remove(s.queue, s.current) + [s.current])
    else s
  }

  /** The queue from which the choice is made, once a task that sleeps has left it. */
  function Candidates(s: Sys, stays: bool): seq<nat>
    requires s.current in s.tasks
  {
    if stays || s.current == IDLE then Renewed(s).queue else Remove(Renewed(s).queue, s.current)
  }

  /** schedule: the state before it, what it chose, and the state after it. */
  ghost predicate Scheduled(s: Sys, stays: bool, s': Sys, c: int)
    requires s.current in s.tasks
  {
    var tasks := Renewed(s).tasks;
    var queue := Candidates(s, stays);
    && (forall i :: 0 <= i < |queue| ==> queue[i] in tasks)
    && Chosen(tasks, queue, s.tasks[s.current].mm, s'.current, c)
    && s'.queue == queue
    && s'.slice == s.slice
    && s'.tasks == (if c == 0 then Recalculated(Unyielded(tasks, queue)) else Unyielded(tasks, queue))
  }

  lemma RenewedOk(s: Sys, stays: bool)
    requires Ok(s) && (!stays ==> s.current != IDLE) && (s.current == IDLE ==> !s.tasks[IDLE].policy.RoundRobin?)
    ensures s.current in s.tasks && QueueOk(Renewed(s).tasks, Candidates(s, stays))
    ensures Renewed(s).tasks.Keys == s.tasks.Keys
    ensures AllInBounds(Renewed(s).tasks, s.slice)
    ensures forall p :: p in Candidates(s, stays) <==> p in s.queue && (stays || p != s.current)
  {
    RemoveIs(s.queue, s.current);
    var q := Renewed(s).queue;
    JoinDistinct(Remove(s.queue, s.current), [s.current]);
    assert forall p :: p in q <==> p in s.queue;
    RemoveIs(q, s.current);
    forall i | 0 <= i < |Candidates(s, stays)|
      ensures Candidates(s, stays)[i] in s.queue
    {
      assert Candidates(s, stays)[i] in Candidates(s, stays);
    }
  }

  /** What becomes of task p. Only its counter and its flag can change: a round-robin task that is
      out of time gets its priority as a new slice; when the best weight is zero every task but the
      idle one, asleep or not, keeps half of what it had and gets its priority; and nobody on the
      queue yields any more. */
  ghost predicate Charged(s: Sys, s': Sys, c: int, p: nat)
    requires p in s.tasks && p in s'.tasks
  {
    var (t, t') := (s.tasks[p], s'.tasks[p]);
    var counter := if p == s.current && t.policy.RoundRobin? && t.counter == 0 && !t.yielding then t.priority
      else t.counter;
    && t' == t.(counter := t'.counter, yielding := t'.yielding)
    && t'.counter == (if c == 0 && p != IDLE then counter / 2 + t.priority else counter)
    && t'.yielding == (t.yielding && p !in s'.queue)
  }

  /** The others keep their order; the current task leaves, stays, or goes last. */
  ghost predicate Reordered(s: Sys, stays: bool, s': Sys)
    requires s.current in s.tasks
  {
    var t := s.tasks[s.current];
    && Remove(s'.queue, s.current) == Remove(s.queue, s.current)
    && (!stays ==> s.current !in s'.queue)
    && (stays ==> if t.policy.RoundRobin? && t.counter == 0 && !t.yielding
      then s'.queue != [] && s'.queue[|s'.queue| - 1] == s.current else s'.queue == s.queue)
  }

  lemma ScheduledTasks(s: Sys, stays: bool, s': Sys, c: int)
    requires s.current in s.tasks && Scheduled(s, stays, s', c)
    ensures s'.tasks.Keys == s.tasks.Keys && forall p :: p in s.tasks ==> Charged(s, s', c, p)
  {
    hide Candidates, Chosen;
  }

  lemma ScheduledQueue(s: Sys, stays: bool, s': Sys, c: int)
    requires Distinct(s.queue) && s.current in s.tasks && Scheduled(s, stays, s', c) && (!stays ==> s.current != IDLE)
    ensures Reordered(s, stays, s')
  {
    hide Chosen, Unyielded, Recalculated;
    var (x, others) := (s.current, Remove(s.queue, s.current));
    RemoveIs(s.queue, x);
    hide Remove;
    RemoveAbsent(others, x);
    RemoveSplits(others, x, []);
    assert others + [x] + [] == others + [x] && others + [] == others;
  }

  lemma KeepsOk(s: Sys, stays: bool, s': Sys, c: int)
    requires Ok(s) && (!stays ==> s.current != IDLE) && (s.current == IDLE ==> !s.tasks[IDLE].policy.RoundRobin?)
    requires Scheduled(s, stays, s', c)
    ensures Ok(s') && s'.tasks.Keys == s.tasks.Keys && s.current in s.tasks && (c == 0 ==> s'.queue != [])
  {
    RenewedOk(s, stays);
    var tasks, queue := Renewed(s).tasks, Candidates(s, stays);
    hide Renewed, Candidates, Weight;
    if queue != [] {
      var i :| FirstBest(tasks, queue, s.tasks[s.current].mm, i) && s'.current == queue[i];
      assert queue[i] in queue;
    }
    forall p | p in s'.tasks && p != IDLE ensures InBounds(s'.tasks[p], s.slice) { assert InBounds(tasks[p], s.slice); }
  }

  /** Scheduling keeps all counters and priorities in bounds. When it recalculates, everybody on the
      queue has time left afterwards. */
  lemma ScheduledOk(s: Sys, stays: bool, s': Sys, c: int)
    requires Ok(s) && (!stays ==> s.current != IDLE) && (s.current == IDLE ==> !s.tasks[IDLE].policy.RoundRobin?)
    requires Scheduled(s, stays, s', c)
    ensures Ok(s') && s'.tasks.Keys == s.tasks.Keys && s.current in s.tasks && Reordered(s, stays, s')
    ensures forall p :: p in s.tasks ==> Charged(s, s', c, p)
    ensures c == 0 ==> s'.queue != [] && forall p :: p in s'.queue ==> s'.tasks[p].counter > 0
  {
    KeepsOk(s, stays, s', c);
    ScheduledTasks(s, stays, s', c);
    ScheduledQueue(s, stays, s', c);
    hide Scheduled, Reordered;
    if c == 0 {
      forall p | p in s'.queue ensures s'.tasks[p].counter > 0 {
        assert p in s.tasks && p != IDLE && Charged(s, s', c, p) && InBounds(s.tasks[p], s.slice);
      }
    }
  }

  /** After a recalculation the next choice is not followed by another. */
  lemma RecalculatedOnce(s: Sys, stays: bool, s1: Sys, again: bool, s2: Sys, c: int)
    requires Ok(s) && (!stays ==> s.current != IDLE) && (s.current == IDLE ==> !s.tasks[IDLE].policy.RoundRobin?)
    requires Scheduled(s, stays, s1, 0) && s1.current in s1.tasks && Scheduled(s1, again, s2, c)
    ensures c != 0
  {
    ScheduledOk(s, stays, s1, 0);
    assert s1.current in s1.queue by { ChosenQueued(s, stays, s1, 0); }
    hide Weight, Remove, Chosen, Recalculated, Unyielded, QueueOk;
    RenewedOk(s1, again);
    var queue := Candidates(s1, again);
    OutOfTime(s1.tasks, queue, s1.slice, s1.tasks[s1.current].mm, s2.current, c);
    if queue != [] {
      assert queue[0] in queue;
      assert Charged(s, s1, 0, queue[0]);
    }
  }

  lemma ChosenQueued(s: Sys, stays: bool, s': Sys, c: int)
    requires s.current in s.tasks && Scheduled(s, stays, s', c) && s'.queue != []
    ensures s'.current in s'.queue
  {
    hide Weight, Remove;
  }
}
