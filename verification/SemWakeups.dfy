/** When is a process left asleep although its operations could be done? */
module SemWakeups {
  import opened SemSpec
  import opened SemRuns

  /** Only an entry that takes something is asked to retry. */
  ghost predicate TakersMarked(queue: seq<Pending>) {
    forall j :: 0 <= j < |queue| && queue[j].status == 1 ==> queue[j].decrease
  }

  ghost predicate Marked(queue: seq<Pending>) {
    exists j :: 0 <= j < |queue| && queue[j].status == 1
  }

  ghost predicate Stuck(vals: seq<int>, q: Pending) {
    OpsOk(q.sops, |vals|) && Result(vals, q.sops) > 0
  }

  /** Nobody is forgotten: somebody has been asked to retry, or nobody in the queue could go on. */
  ghost predicate NoneLost(s: Sems) {
    Marked(s.queue) || forall j :: 0 <= j < |s.queue| ==> Stuck(s.vals, s.queue[j])
  }

  // ---- A pass over the queue

  /** What is left was there before, or has been asked to retry. */
  lemma {:induction false} PassLeaves(s: Sems, i: nat)
    requires Ok(s) && i <= |s.queue|
    ensures forall q :: q in Updated(s, i).queue ==> q in s.queue || (q.status == 1 && q.decrease)
    decreases |s.queue| - i
  {
    hide Ok, Result, Done;
    if i < |s.queue| && s.queue[i].status != 1 {
      var q := s.queue[i];
      StepOk(s, i);
      var r := Result(s.vals, q.sops);
      if r > 0 {
        PassLeaves(s, i + 1);
      } else if !(r == 0 && q.decrease) {
        PassLeaves((if r == 0 then Done(s, q.pid, q.sops) else s).(queue := Without(s.queue, i)), i);
      }
    }
  }

  lemma {:induction false} SumAdds(sops: seq<Op>, i: nat, k: nat)
    requires k <= |sops| && forall j :: 0 <= j < k ==> sops[j].op >= 0
    ensures Sum(sops, i, k) >= 0
  {
    if k > 0 {
      SumAdds(sops, i, k - 1);
    }
  }

  ghost predicate Grown(vals: seq<int>, vals': seq<int>) {
    |vals| == |vals'| && forall i :: 0 <= i < |vals| ==> vals[i] <= vals'[i]
  }

  lemma DoneGrows(s: Sems, q: Pending)
    requires EntryOk(s, q) && !q.decrease
    ensures Grown(s.vals, Done(s, q.pid, q.sops).vals)
  {
    forall i: nat | i < |s.vals| ensures Sum(q.sops, i, |q.sops|) >= 0 { SumAdds(q.sops, i, |q.sops|); }
  }

  /** A pass completes only what takes nothing, so no value goes down. */
  lemma {:induction false} PassAdds(s: Sems, i: nat)
    requires Ok(s) && i <= |s.queue|
    ensures Grown(s.vals, Updated(s, i).vals)
    decreases |s.queue| - i
  {
    if i < |s.queue| && s.queue[i].status != 1 {
      var q := s.queue[i];
      assert EntryOk(s, q);
      StepOk(s, i);
      hide Ok, Result, Done;
      var r := Result(s.vals, q.sops);
      if r > 0 {
        PassAdds(s, i + 1);
      } else if !(r == 0 && q.decrease) {
        if r == 0 {
          DoneGrows(s, q);
        }
        PassAdds((if r == 0 then Done(s, q.pid, q.sops) else s).(queue := Without(s.queue, i)), i);
      }
    }
  }

  lemma {:induction false} MarkStays(s: Sems, i: nat, m: nat)
    requires Ok(s) && i <= m < |s.queue| && s.queue[m].status == 1
    ensures Marked(Updated(s, i).queue)
    decreases |s.queue| - i
  {
    StepOk(s, i);
    hide Ok, Result, Done;
    var q := s.queue[i];
    if q.status != 1 {
      var r := Result(s.vals, q.sops);
      if r > 0 {
        MarkStays(s, i + 1, m);
      } else if r == 0 && q.decrease {
        assert s.queue[i := q.(status := 1)][i].status == 1;
      } else {
        assert Without(s.queue, i)[m - 1] == s.queue[m];
        MarkStays((if r == 0 then Done(s, q.pid, q.sops) else s).(queue := Without(s.queue, i)), i, m - 1);
      }
    }
  }

  lemma {:induction false} StuckPass(s: Sems, i: nat)
    requires Ok(s) && i <= |s.queue| && forall j :: i <= j < |s.queue| ==> Stuck(s.vals, s.queue[j])
    ensures Updated(s, i) == s
    decreases |s.queue| - i
  {
    hide Ok, Result, Done;
    if i < |s.queue| {
      assert Stuck(s.vals, s.queue[i]);
      StuckPass(s, i + 1);
    }
  }

  /** A pass without a change before it does no harm. */
  lemma IdlePass(s: Sems)
    requires Ok(s) && NoneLost(s)
    ensures NoneLost(Updated(s, 0))
  {
    hide Ok, Updated, Stuck;
    if m :| 0 <= m < |s.queue| && s.queue[m].status == 1 {
      MarkStays(s, 0, m);
    } else {
      StuckPass(s, 0);
    }
  }

  /** From entry i on the pass changes no value, and ends with nobody asked to retry. */
  ghost predicate Settles(s: Sems, i: nat)
    requires Ok(s) && i <= |s.queue|
  {
    Updated(s, i).vals == s.vals && !Marked(Updated(s, i).queue)
  }

  ghost predicate OneGoesOn(s: Sems, i: nat)
    requires i <= |s.queue|
  {
    exists j :: 0 <= j < i && !Stuck(s.vals, s.queue[j])
  }

  /** What the pass makes of the state when it completes entry i, or finds that it must fail. */
  ghost function Completed(s: Sems, i: nat): (s': Sems)
    requires Ok(s) && i < |s.queue|
    ensures Ok(s')
  {
    StepOk(s, i);
    var q := s.queue[i];
    (if Result(s.vals, q.sops) == 0 then Done(s, q.pid, q.sops) else s).(queue := Without(s.queue, i))
  }

  /** From entry i on the pass completes an entry that adds to some semaphore, with which one of
      those before it could go on; then it changes nothing more and asks nobody to retry. */
  ghost predicate Overtakes(s: Sems, i: nat)
    requires Ok(s) && i <= |s.queue|
    decreases |s.queue| - i
  {
    i < |s.queue| && s.queue[i].status != 1 &&
    var q := s.queue[i];
    StepOk(s, i);
    var r := Result(s.vals, q.sops);
    if r > 0 then Overtakes(s, i + 1)
    else
      !(r == 0 && q.decrease) &&
      var s' := Completed(s, i);
      Overtakes(s', i) || (r == 0 && Alters(q.sops) && Settles(s', i) && OneGoesOn(s', i))
  }

  lemma {:induction false} PassIff(s: Sems, i: nat)
    requires Ok(s) && i <= |s.queue| && forall j :: 0 <= j < i ==> s.queue[j].status != 1
    ensures NoneLost(Updated(s, i)) <==> !(Overtakes(s, i) || (Settles(s, i) && OneGoesOn(s, i)))
    decreases |s.queue| - i
  {
    if i < |s.queue| {
      var q := s.queue[i];
      assert EntryOk(s, q);
      StepOk(s, i);
      hide Ok, Result, Done, Stuck;
      if q.status == 1 {
        MarkStays(s, i, i);
      } else if Stuck(s.vals, q) {
        assert Result(s.vals, q.sops) > 0 by { StuckIs(s.vals, q); }
        PassIff(s, i + 1);
        assert OneGoesOn(s, i) <==> OneGoesOn(s, i + 1);
      } else {
        assert Result(s.vals, q.sops) <= 0 by { StuckIs(s.vals, q); }
        if Result(s.vals, q.sops) == 0 && q.decrease {
          assert s.queue[i := q.(status := 1)][i].status == 1;
        } else {
          CompletedIff(s, i);
        }
      }
    }
  }

  lemma StuckIs(vals: seq<int>, q: Pending)
    requires OpsOk(q.sops, |vals|)
    ensures Stuck(vals, q) <==> Result(vals, q.sops) > 0
  {
  }

  ghost predicate Completes(s: Sems, i: nat) {
    && i < |s.queue| && s.queue[i].status != 1 && EntryOk(s, s.queue[i]) && Result(s.vals, s.queue[i].sops) <= 0
    && (Result(s.vals, s.queue[i].sops) == 0 ==> !s.queue[i].decrease)
  }

  lemma CompletedVals(s: Sems, i: nat)
    requires Ok(s) && Completes(s, i)
    ensures Grown(s.vals, Completed(s, i).vals) && Completed(s, i).queue == Without(s.queue, i)
    ensures Result(s.vals, s.queue[i].sops) != 0 || !Alters(s.queue[i].sops) ==> Completed(s, i).vals == s.vals
  {
    var q := s.queue[i];
    if Result(s.vals, q.sops) == 0 {
      DoneGrows(s, q);
      if !Alters(q.sops) {
        QuietDone(s, q);
      }
    }
  }

  lemma SameGoOn(s: Sems, s': Sems, i: nat)
    requires i < |s.queue| && s'.vals == s.vals && s'.queue == Without(s.queue, i)
    ensures OneGoesOn(s, i) <==> OneGoesOn(s', i)
  {
    hide Stuck;
    assert forall j :: 0 <= j < i ==> s'.queue[j] == s.queue[j];
  }

  lemma CompletedIff(s: Sems, i: nat)
    requires Ok(s) && Completes(s, i) && forall j :: 0 <= j < i ==> s.queue[j].status != 1
    ensures NoneLost(Updated(s, i)) <==> !(Overtakes(s, i) || (Settles(s, i) && OneGoesOn(s, i)))
    decreases |s.queue| - i, 0
  {
    hide Ok, Result, Done, Stuck, OneGoesOn, NoneLost, Alters;
    var s' := Completed(s, i);
    CompletedVals(s, i);
    assert forall j :: 0 <= j < i ==> s'.queue[j] == s.queue[j];
    PassIff(s', i);
    PassAdds(s', i);
    assert Updated(s, i) == Updated(s', i);
    if s'.vals == s.vals {
      SameGoOn(s, s', i);
    }
  }

  lemma QuietDone(s: Sems, q: Pending)
    requires Ok(s) && EntryOk(s, q) && !Alters(q.sops)
    ensures Done(s, q.pid, q.sops).vals == s.vals && Done(s, q.pid, q.sops).adj == s.adj
  {
    forall i: nat | i < |s.vals|
      ensures Sum(q.sops, i, |q.sops|) == 0 && UndoSum(q.sops, i, |q.sops|) == 0
    {
      SumNothing(q.sops, i, |q.sops|);
    }
    assert ValsAfter(s.vals, q.sops, |q.sops|) == s.vals;
    if q.pid in s.adj {
      assert AdjOk(s.adj[q.pid], |s.vals|);
      assert AdjAfter(s.adj[q.pid], q.sops, |q.sops|) == s.adj[q.pid];
    }
  }

  ghost predicate Overtaking(s: Sems) {
    Ok(s) && Overtakes(s, 0)
  }

  /** A pass forgets somebody exactly when it overtakes somebody. */
  lemma PassKeeps(s: Sems)
    requires Ok(s) && TakersMarked(s.queue)
    ensures TakersMarked(Updated(s, 0).queue) && (NoneLost(Updated(s, 0)) <==> !Overtaking(s))
  {
    hide Ok, Updated, Overtakes;
    PassIff(s, 0);
    PassLeaves(s, 0);
    var queue := Updated(s, 0).queue;
    forall j | 0 <= j < |queue| && queue[j].status == 1 ensures queue[j].decrease {
      assert queue[j] in queue;
      if queue[j] in s.queue {
        var k :| 0 <= k < |s.queue| && s.queue[k] == queue[j];
      }
    }
  }

  // ---- Steps

  /** Without the mark of entry j nobody is asked to retry, though somebody else could go on. */
  ghost predicate LastMark(s: Sems, j: nat) {
    && (forall k :: 0 <= k < |s.queue| && k != j ==> s.queue[k].status != 1)
    && exists k :: 0 <= k < |s.queue| && k != j && !Stuck(s.vals, s.queue[k])
  }

  /** The step loses the last mark: a process is told to retry in vain, or leaves when told to
      without anything to undo, while somebody else could go on. */
  ghost predicate LosesMark(s: Sems, step: Step) {
    match step
    case Semop(_, _) => false
    case Retry(pid) => Sleeping(s, pid) && Stuck(s.vals, s.queue[Place(s, pid)]) && LastMark(s, Place(s, pid))
    case Interrupt(_) => false
    case Exit(pid) => Sleeping(s, pid) && pid !in s.adj && s.queue[Place(s, pid)].status == 1
      && LastMark(s, Place(s, pid))
    case SetVal(_, _) => false
    case SetAll(_) => false
  }

  /** The pass that follows the step overtakes somebody. */
  ghost predicate ThenOvertakes(s: Sems, step: Step)
    requires Ok(s) && Enabled(s, step)
  {
    match step
    case Semop(pid, sops) =>
      Result(s.vals, sops) <= 0 && Alters(sops) && Overtaking(Attempted(WithUndo(s, pid, sops), pid, sops))
    case Retry(pid) =>
      var q := s.queue[Place(s, pid)];
      assert EntryOk(s, q);
      Result(s.vals, q.sops) <= 0 && Overtaking(Removed(Attempted(s, q.pid, q.sops), Place(s, pid)))
    case Interrupt(_) => false
    case Exit(pid) =>
      pid in s.adj && (assert AdjOk(s.adj[pid], |s.vals|);
        Overtaking(Left(s, pid).(vals := Adjusted(s.vals, s.adj[pid]), adj := s.adj - {pid})))
    case SetVal(num, val) =>
      assert forall u :: u in s.adj ==> AdjOk(s.adj[u], |s.vals|);
      Overtaking(s.(vals := s.vals[num := val], adj := Cleared(s.adj, num)))
    case SetAll(vals) => Overtaking(s.(vals := vals, adj := AllCleared(s.adj)))
  }

  ghost predicate Forgets(s: Sems, step: Step)
    requires Ok(s) && Enabled(s, step)
  {
    LosesMark(s, step) || ThenOvertakes(s, step)
  }

  lemma RemovedKeeps(s: Sems, j: nat)
    requires j < |s.queue| && TakersMarked(s.queue)
    ensures TakersMarked(Removed(s, j).queue)
    ensures s.queue[j].status != 1 && NoneLost(s) ==> NoneLost(Removed(s, j))
  {
    var queue := Without(s.queue, j);
    assert forall k :: 0 <= k < |queue| ==> queue[k] == s.queue[if k < j then k else k + 1];
    if s.queue[j].status != 1 && Marked(s.queue) {
      var k :| 0 <= k < |s.queue| && s.queue[k].status == 1;
      assert queue[if k < j then k else k - 1] == s.queue[k];
    }
  }

  lemma DoneQueue(s: Sems, q: Pending)
    ensures Done(s, q.pid, q.sops).queue == s.queue
  {
  }

  lemma SemopKeeps(s: Sems, pid: nat, sops: seq<Op>)
    requires Ok(s) && OpsOk(sops, |s.vals|) && TakersMarked(s.queue) && NoneLost(s) && Enabled(s, Semop(pid, sops))
    ensures TakersMarked(AfterSemop(s, pid, sops).queue)
    ensures NoneLost(AfterSemop(s, pid, sops)) <==> !ThenOvertakes(s, Semop(pid, sops))
  {
    hide Updated, Ok, Result, Done, Overtaking, Enabled;
    WithUndoOk(s, pid, sops);
    var s1 := WithUndo(s, pid, sops);
    var q := Pending(pid, sops, Decreases(sops), EINTR);
    if Result(s.vals, sops) > 0 {
      EnqueuedKeeps(s1, pid, sops);
    } else {
      AttemptedOk(s1, pid, sops);
      assert Attempted(s1, pid, sops).queue == s.queue by { DoneQueue(s1, q); }
      if Alters(sops) {
        PassKeeps(Attempted(s1, pid, sops));
      } else {
        UnalteredVals(s1, pid, sops);
      }
    }
  }

  lemma UnalteredVals(s: Sems, pid: nat, sops: seq<Op>)
    requires OpsOk(sops, |s.vals|) && !Alters(sops)
    ensures Attempted(s, pid, sops).vals == s.vals
  {
    forall i: nat | i < |s.vals| ensures Sum(sops, i, |sops|) == 0 { SumNothing(sops, i, |sops|); }
    assert ValsAfter(s.vals, sops, |sops|) == s.vals;
  }

  lemma EnqueuedKeeps(s: Sems, pid: nat, sops: seq<Op>)
    requires OpsOk(sops, |s.vals|) && TakersMarked(s.queue) && NoneLost(s) && Result(s.vals, sops) > 0
    ensures NoneLost(Enqueued(s, pid, sops)) && TakersMarked(Enqueued(s, pid, sops).queue)
  {
    hide Result;
    var queue := Enqueued(s, pid, sops).queue;
    var off := if Alters(sops) then 0 else 1;
    assert forall j :: 0 <= j < |s.queue| ==> queue[j + off] == s.queue[j];
    assert forall j :: 0 <= j < |queue| ==>
      queue[j] == Pending(pid, sops, Decreases(sops), EINTR) || queue[j] == s.queue[j - off];
    if Marked(s.queue) {
      var j :| 0 <= j < |s.queue| && s.queue[j].status == 1;
      assert queue[j + off].status == 1;
    }
  }

  /** A process told to retry can go on. */
  lemma RetryKeeps(s: Sems, pid: nat)
    requires Ok(s) && Enabled(s, Retry(pid)) && TakersMarked(s.queue) && !Stuck(s.vals, s.queue[Place(s, pid)])
    ensures var s' := AfterWake(s, Place(s, pid), true);
      TakersMarked(s'.queue) && (NoneLost(s') <==> !ThenOvertakes(s, Retry(pid)))
  {
    var j := Place(s, pid);
    var q := s.queue[j];
    assert EntryOk(s, q);
    assert Alters(q.sops) by { assert q.decrease; }
    hide Updated, Result, Done, Overtaking, Ok;
    AttemptedOk(s, q.pid, q.sops);
    var s1 := Attempted(s, q.pid, q.sops);
    assert s1.queue == s.queue by { DoneQueue(s, q); }
    FewerOk(s1, j);
    RemovedKeeps(s1, j);
    PassKeeps(Removed(s1, j));
  }

  /** A process that was not told to retry gives up. */
  lemma InterruptKeeps(s: Sems, j: nat)
    requires Ok(s) && j < |s.queue| && TakersMarked(s.queue) && NoneLost(s) && s.queue[j].status != 1
    ensures NoneLost(AfterWake(s, j, false)) && TakersMarked(AfterWake(s, j, false).queue)
  {
    hide Updated, Result, Done, Overtaking, Ok, NoneLost;
    FewerOk(s, j);
    RemovedKeeps(s, j);
    PassKeeps(Removed(s, j));
    IdlePass(Removed(s, j));
  }

  /** A process told to retry finds that it cannot go on. */
  lemma InVain(s: Sems, j: nat)
    requires Ok(s) && j < |s.queue| && TakersMarked(s.queue) && s.queue[j].status == 1 && Stuck(s.vals, s.queue[j])
    ensures TakersMarked(AfterWake(s, j, true).queue) && (NoneLost(AfterWake(s, j, true)) <==> !LastMark(s, j))
  {
    hide Result, Updated;
    var s' := AfterWake(s, j, true);
    var queue := s.queue[j := s.queue[j].(status := EINTR)];
    assert s' == s.(queue := queue);
    forall k | 0 <= k < |queue| ensures Stuck(s.vals, queue[k]) <==> Stuck(s.vals, s.queue[k]) {
    }
    if k :| 0 <= k < |s.queue| && k != j && s.queue[k].status == 1 {
      assert queue[k].status == 1;
    }
    if NoneLost(s') && Marked(queue) {
      var k :| 0 <= k < |queue| && queue[k].status == 1;
      assert s.queue[k].status == 1 && k != j;
    }
  }

  /** A process told to retry leaves instead. */
  lemma LeftBehind(s: Sems, j: nat)
    requires j < |s.queue|
    ensures NoneLost(Removed(s, j)) <==> !LastMark(s, j)
  {
    hide Stuck;
    var queue := Without(s.queue, j);
    forall k | 0 <= k < |queue| ensures queue[k] == s.queue[if k < j then k else k + 1] {
    }
    if !LastMark(s, j) {
      OthersWait(s, j, queue);
    } else {
      var k :| 0 <= k < |s.queue| && k != j && !Stuck(s.vals, s.queue[k]);
      assert !Stuck(s.vals, queue[if k < j then k else k - 1]);
    }
  }

  lemma OthersWait(s: Sems, j: nat, queue: seq<Pending>)
    requires j < |s.queue| && queue == Without(s.queue, j) && !LastMark(s, j)
    ensures Marked(queue) || forall k :: 0 <= k < |queue| ==> Stuck(s.vals, queue[k])
  {
    hide Stuck;
    if k :| 0 <= k < |s.queue| && k != j && s.queue[k].status == 1 {
      assert queue[if k < j then k else k - 1].status == 1;
    } else {
      forall k | 0 <= k < |queue| ensures Stuck(s.vals, queue[k]) {
        assert queue[k] == s.queue[if k < j then k else k + 1];
      }
    }
  }

  lemma ExitKeeps(s: Sems, pid: nat)
    requires Ok(s) && TakersMarked(s.queue) && NoneLost(s)
    ensures TakersMarked(AfterExit(s, pid).queue) && (NoneLost(AfterExit(s, pid)) <==> !Forgets(s, Exit(pid)))
  {
    assert pid in s.adj ==> AdjOk(s.adj[pid], |s.vals|);
    hide Updated, Stuck, LastMark, Overtaking, Ok;
    ExitOk(s, pid);
    if Sleeping(s, pid) {
      RemovedKeeps(s, Place(s, pid));
      LeftBehind(s, Place(s, pid));
    }
    if pid in s.adj {
      PassKeeps(Left(s, pid).(vals := Adjusted(s.vals, s.adj[pid]), adj := s.adj - {pid}));
    }
  }

  lemma SetKeeps(s: Sems, step: Step)
    requires Ok(s) && TakersMarked(s.queue) && Enabled(s, step) && (step.SetVal? || step.SetAll?)
    ensures TakersMarked(Next(s, step).queue) && (NoneLost(Next(s, step)) <==> !ThenOvertakes(s, step))
  {
    assert forall u :: u in s.adj ==> AdjOk(s.adj[u], |s.vals|);
    hide Updated, Overtaking;
    var vals := if step.SetVal? then s.vals[step.num := step.val] else step.vals;
    var adj := if step.SetVal? then Cleared(s.adj, step.num) else AllCleared(s.adj);
    SetOk(s, vals, adj);
    PassKeeps(s.(vals := vals, adj := adj));
  }

  /** As long as nobody is forgotten, exactly the steps that lose the last mark, or whose pass
      overtakes somebody, forget somebody. */
  lemma StepKeeps(s: Sems, step: Step)
    requires Ok(s) && Enabled(s, step) && TakersMarked(s.queue) && NoneLost(s)
    ensures TakersMarked(Next(s, step).queue) && (NoneLost(Next(s, step)) <==> !Forgets(s, step))
  {
    hide AfterSemop, AfterWake, AfterExit, Ok, NoneLost, TakersMarked, LastMark, Overtaking, Result;
    match step
    case Semop(pid, sops) => SemopKeeps(s, pid, sops);
    case Retry(pid) =>
      if Stuck(s.vals, s.queue[Place(s, pid)]) {
        InVain(s, Place(s, pid));
      } else {
        RetryKeeps(s, pid);
      }
    case Interrupt(pid) => InterruptKeeps(s, Place(s, pid));
    case Exit(pid) => ExitKeeps(s, pid);
    case SetVal(_, _) => SetKeeps(s, step);
    case SetAll(_) => SetKeeps(s, step);
  }

  // ---- Runs

  ghost predicate AllCareful(s: Sems, steps: seq<Step>)
    requires Ok(s) && Runnable(s, steps)
    decreases |steps|
  {
    steps != [] ==> !Forgets(s, steps[0]) && (NextOk(s, steps[0]); AllCareful(Next(s, steps[0]), steps[1..]))
  }

  /** Over a whole run none of whose steps forgets anybody, nobody is forgotten. */
  lemma {:induction false} NobodyLost(s: Sems, steps: seq<Step>)
    requires Ok(s) && Runnable(s, steps) && AllCareful(s, steps) && TakersMarked(s.queue) && NoneLost(s)
    ensures NoneLost(Run(s, steps)) && TakersMarked(Run(s, steps).queue)
    decreases |steps|
  {
    hide Next, Ok, NoneLost, TakersMarked, Forgets, Enabled;
    if steps != [] {
      NextOk(s, steps[0]);
      StepKeeps(s, steps[0]);
      NobodyLost(Next(s, steps[0]), steps[1..]);
    }
  }

  /** And a run after whose every step nobody is forgotten is such a run. */
  ghost predicate NeverLost(s: Sems, steps: seq<Step>)
    requires Ok(s) && Runnable(s, steps)
    decreases |steps|
  {
    NoneLost(s) && (steps != [] ==> (NextOk(s, steps[0]); NeverLost(Next(s, steps[0]), steps[1..])))
  }

  lemma {:induction false} NeverLostIff(s: Sems, steps: seq<Step>)
    requires Ok(s) && Runnable(s, steps) && TakersMarked(s.queue) && NoneLost(s)
    ensures NeverLost(s, steps) <==> AllCareful(s, steps)
    decreases |steps|
  {
    hide Next, Ok, NoneLost, TakersMarked, Forgets, Enabled;
    if steps != [] {
      NextOk(s, steps[0]);
      StepKeeps(s, steps[0]);
      var s' := Next(s, steps[0]);
      if NoneLost(s') {
        NeverLostIff(s', steps[1..]);
      } else {
        assert !NeverLost(s', steps[1..]);
      }
    }
  }

  // ---- Without entries that wait for zero and add

  /** An entry that takes nothing changes nothing. */
  ghost predicate Quiet(q: Pending) {
    q.decrease || !Alters(q.sops)
  }

  ghost predicate AllQuiet(queue: seq<Pending>) {
    forall j :: 0 <= j < |queue| ==> Quiet(queue[j])
  }

  /** A pass over such entries changes no value and overtakes nobody. */
  lemma {:induction false} QuietPass(s: Sems, i: nat)
    requires Ok(s) && i <= |s.queue| && AllQuiet(s.queue)
    ensures !Overtakes(s, i) && Updated(s, i).vals == s.vals && Updated(s, i).adj == s.adj
    decreases |s.queue| - i
  {
    if i < |s.queue| && s.queue[i].status != 1 {
      var q := s.queue[i];
      assert Quiet(q) && EntryOk(s, q);
      hide Ok, Result, Done, Alters;
      StepOk(s, i);
      var r := Result(s.vals, q.sops);
      if r > 0 {
        QuietPass(s, i + 1);
      } else if !(r == 0 && q.decrease) {
        var queue := Without(s.queue, i);
        assert forall j :: 0 <= j < |queue| ==> queue[j] == s.queue[if j < i then j else j + 1];
        if r == 0 {
          QuietDone(s, q);
        }
        QuietPass((if r == 0 then Done(s, q.pid, q.sops) else s).(queue := queue), i);
      }
    }
  }

  lemma PassQuiet(s: Sems)
    requires Ok(s) && AllQuiet(s.queue)
    ensures AllQuiet(Updated(s, 0).queue) && !Overtaking(s)
  {
    hide Ok, Updated, Overtakes, Alters;
    QuietPass(s, 0);
    PassLeaves(s, 0);
    var queue := Updated(s, 0).queue;
    forall j | 0 <= j < |queue| ensures Quiet(queue[j]) {
      assert queue[j] in queue;
      if queue[j] in s.queue {
        var k :| 0 <= k < |s.queue| && s.queue[k] == queue[j];
      }
    }
  }

  /** The step does not wait for zero and add, taking nothing. */
  ghost predicate Plain(step: Step) {
    step.Semop? ==>
      Decreases(step.sops) || !Alters(step.sops) || forall k :: 0 <= k < |step.sops| ==> step.sops[k].op > 0
  }

  /** Whoever only adds does not sleep. */
  lemma {:induction false} AddersGo(vals: seq<int>, sops: seq<Op>, k: nat)
    requires OpsOk(sops, |vals|) && k <= |sops| && (forall i :: 0 <= i < |vals| ==> vals[i] >= 0)
    requires forall j :: 0 <= j < |sops| ==> sops[j].op > 0
    ensures ResultFrom(vals, sops, k) <= 0
    decreases |sops| - k
  {
    if k < |sops| {
      SumAdds(sops, sops[k].num, k);
      AddersGo(vals, sops, k + 1);
    }
  }

  lemma RemovedQuiet(s: Sems, j: nat)
    requires j < |s.queue| && AllQuiet(s.queue)
    ensures AllQuiet(Removed(s, j).queue)
  {
    hide Quiet;
    var queue := Without(s.queue, j);
    assert forall k :: 0 <= k < |queue| ==> queue[k] == s.queue[if k < j then k else k + 1];
  }

  lemma PlainSemop(s: Sems, pid: nat, sops: seq<Op>)
    requires Ok(s) && Enabled(s, Semop(pid, sops)) && AllQuiet(s.queue) && Plain(Semop(pid, sops))
    ensures AllQuiet(AfterSemop(s, pid, sops).queue) && !ThenOvertakes(s, Semop(pid, sops))
  {
    WithUndoOk(s, pid, sops);
    var s1 := WithUndo(s, pid, sops);
    if Result(s.vals, sops) > 0 {
      if forall k :: 0 <= k < |sops| ==> sops[k].op > 0 {
        AddersGo(s.vals, sops, 0);
      }
      var queue := Enqueued(s1, pid, sops).queue;
      hide Ok, Updated, Overtaking, Result;
      assert forall j :: 0 <= j < |queue| ==>
        queue[j] == Pending(pid, sops, Decreases(sops), EINTR) || queue[j] in s.queue;
    } else {
      hide Ok, Updated, Overtaking, Result, Done;
      AttemptedOk(s1, pid, sops);
      assert Attempted(s1, pid, sops).queue == s.queue by { DoneQueue(s1, Pending(pid, sops, true, EINTR)); }
      PassQuiet(Attempted(s1, pid, sops));
    }
  }

  lemma PlainWake(s: Sems, j: nat, again: bool)
    requires Ok(s) && j < |s.queue| && AllQuiet(s.queue)
    ensures AllQuiet(AfterWake(s, j, again).queue)
    ensures var q := s.queue[j]; OpsOk(q.sops, |s.vals|) && !Overtaking(Removed(Attempted(s, q.pid, q.sops), j))
  {
    var q := s.queue[j];
    assert EntryOk(s, q);
    hide Ok, Updated, Overtaking, Result, Done;
    AttemptedOk(s, q.pid, q.sops);
    FewerOk(s, j);
    FewerOk(Attempted(s, q.pid, q.sops), j);
    RemovedQuiet(s, j);
    assert Attempted(s, q.pid, q.sops).queue == s.queue by { DoneQueue(s, q); }
    PassQuiet(Removed(s, j));
    PassQuiet(Removed(Attempted(s, q.pid, q.sops), j));
  }

  lemma PlainExit(s: Sems, pid: nat)
    requires Ok(s) && AllQuiet(s.queue)
    ensures AllQuiet(AfterExit(s, pid).queue) && !ThenOvertakes(s, Exit(pid))
  {
    assert pid in s.adj ==> AdjOk(s.adj[pid], |s.vals|);
    hide Ok, Updated, Overtaking, Quiet;
    ExitOk(s, pid);
    if Sleeping(s, pid) {
      RemovedQuiet(s, Place(s, pid));
    }
    if pid in s.adj {
      PassQuiet(Left(s, pid).(vals := Adjusted(s.vals, s.adj[pid]), adj := s.adj - {pid}));
    }
  }

  lemma PlainSet(s: Sems, step: Step)
    requires Ok(s) && AllQuiet(s.queue) && Enabled(s, step) && (step.SetVal? || step.SetAll?)
    ensures AllQuiet(Next(s, step).queue) && !ThenOvertakes(s, step)
  {
    assert forall u :: u in s.adj ==> AdjOk(s.adj[u], |s.vals|);
    hide Updated, Overtaking, Quiet;
    var vals := if step.SetVal? then s.vals[step.num := step.val] else step.vals;
    var adj := if step.SetVal? then Cleared(s.adj, step.num) else AllCleared(s.adj);
    SetOk(s, vals, adj);
    PassQuiet(s.(vals := vals, adj := adj));
  }

  /** As long as nobody waits for zero and adds, only the last mark can be lost. */
  lemma PlainStep(s: Sems, step: Step)
    requires Ok(s) && Enabled(s, step) && AllQuiet(s.queue) && Plain(step)
    ensures AllQuiet(Next(s, step).queue) && (Forgets(s, step) <==> LosesMark(s, step))
  {
    hide AfterSemop, AfterWake, AfterExit, Ok, AllQuiet, LosesMark, Overtaking, Result, Plain;
    match step
    case Semop(pid, sops) => PlainSemop(s, pid, sops);
    case Retry(pid) => PlainWake(s, Place(s, pid), true);
    case Interrupt(pid) => PlainWake(s, Place(s, pid), false);
    case Exit(pid) => PlainExit(s, pid);
    case SetVal(_, _) => PlainSet(s, step);
    case SetAll(_) => PlainSet(s, step);
  }

  // ---- The ways in which it does happen

  function Take(num: nat): seq<Op> {
    [Op(num, -1, false, false)]
  }

  function Give(num: nat): seq<Op> {
    [Op(num, 1, false, false)]
  }

  lemma OneResult(vals: seq<int>, o: Op)
    requires o.num < |vals|
    ensures OpsOk([o], |vals|) && Sum([o], o.num, 0) == 0
    ensures Result(vals, [o]) == 0 <==> (o.op == 0 ==> vals[o.num] == 0) && 0 <= vals[o.num] + o.op <= SEMVMX
    ensures !o.nowait && vals[o.num] + o.op < 0 ==> Result(vals, [o]) == 1
  {
    assert ResultFrom(vals, [o], 1) == 0;
    assert OpOk(vals, [o], 0) <==> (o.op == 0 ==> vals[o.num] == 0) && 0 <= vals[o.num] + o.op <= SEMVMX;
  }

  lemma OneDone(s: Sems, pid: nat, o: Op)
    requires o.num < |s.vals| && !o.undo
    ensures Done(s, pid, [o]) == s.(vals := s.vals[o.num := s.vals[o.num] + o.op])
  {
    forall i: nat ensures Sum([o], i, 1) == if i == o.num then o.op else 0 { assert Sum([o], i, 0) == 0; }
    assert ValsAfter(s.vals, [o], 1) == s.vals[o.num := s.vals[o.num] + o.op];
  }

  /** A single operation that has to wait. */
  lemma Sleeps(s: Sems, pid: nat, num: nat)
    requires Ok(s) && num < |s.vals| && s.vals[num] == 0 && !Sleeping(s, pid)
    ensures Enabled(s, Semop(pid, Take(num)))
    ensures Next(s, Semop(pid, Take(num))) == s.(queue := s.queue + [Pending(pid, Take(num), true, EINTR)])
  {
    OneResult(s.vals, Op(num, -1, false, false));
    assert Take(num)[0].op < 0;
  }

  /** A single operation that need not; `s'` is what update_queue then makes of it. */
  lemma Goes(s: Sems, pid: nat, o: Op, s': Sems)
    requires Ok(s) && o.num < |s.vals| && 0 <= s.vals[o.num] + o.op <= SEMVMX && o.op != 0 && !o.undo
    requires !Sleeping(s, pid)
    requires var s1 := s.(vals := s.vals[o.num := s.vals[o.num] + o.op]); Ok(s1) && s' == Updated(s1, 0)
    ensures Enabled(s, Semop(pid, [o])) && Next(s, Semop(pid, [o])) == s'
  {
    OneResult(s.vals, o);
    OneDone(s, pid, o);
    assert [o][0].op != 0;
  }

  const Q1 := Pending(1, Take(0), true, EINTR)
  const Q2 := Pending(2, Take(1), true, EINTR)

  lemma NotThere(s: Sems, pid: nat)
    requires forall j :: 0 <= j < |s.queue| ==> s.queue[j].pid != pid
    ensures !Sleeping(s, pid)
  {
  }

  lemma StateOk(vals: seq<int>, queue: seq<Pending>)
    requires |vals| == 2 && vals[0] >= 0 && vals[1] >= 0
    requires queue == [] || queue == [Q1]
      || (|queue| == 2 && (queue[0] == Q1 || queue[0] == Q1.(status := 1)) && queue[1] == Q2)
    ensures Ok(Sems(vals, map[], queue)) && !Sleeping(Sems(vals, map[], queue), 3)
  {
    var s := Sems(vals, map[], queue);
    assert Q1.sops[0].op < 0 && Q2.sops[0].op < 0;
    assert EntryOk(s, Q1) && EntryOk(s, Q2) && EntryOk(s, Q1.(status := 1));
    NotThere(s, 3);
  }

  lemma MarksFirst()
    ensures Ok(Sems([1, 0], map[], [Q1, Q2]))
    ensures Updated(Sems([1, 0], map[], [Q1, Q2]), 0) == Sems([1, 0], map[], [Q1.(status := 1), Q2])
  {
    StateOk([1, 0], [Q1, Q2]);
    OneResult([1, 0], Op(0, -1, false, false));
    assert [Q1, Q2][0 := Q1.(status := 1)] == [Q1.(status := 1), Q2];
  }

  lemma StopsAtMarked(vals: seq<int>)
    requires |vals| == 2 && vals[0] >= 0 && vals[1] >= 0
    ensures var s := Sems(vals, map[], [Q1.(status := 1), Q2]); Ok(s) && Updated(s, 0) == s
  {
    StateOk(vals, [Q1.(status := 1), Q2]);
  }

  lemma RetriesInVain()
    ensures var s := Sems([0, 1], map[], [Q1.(status := 1), Q2]);
      Ok(s) && Enabled(s, Retry(1)) && Next(s, Retry(1)) == Sems([0, 1], map[], [Q1, Q2])
  {
    var s := Sems([0, 1], map[], [Q1.(status := 1), Q2]);
    StateOk([0, 1], s.queue);
    OneResult([0, 1], Op(0, -1, false, false));
    assert At(s, 0, 1);
    var j := Place(s, 1);
    assert j == 0;
    assert s.queue[0 := Q1] == [Q1, Q2];
  }

  lemma CutFirst()
    ensures StepTo(Sems([0, 0], map[], []), Semop(1, Take(0)), Sems([0, 0], map[], [Q1]))
    ensures StepTo(Sems([0, 0], map[], [Q1]), Semop(2, Take(1)), Sems([0, 0], map[], [Q1, Q2]))
    ensures StepTo(Sems([0, 0], map[], [Q1, Q2]), Semop(3, Give(0)), Sems([1, 0], map[], [Q1.(status := 1), Q2]))
  {
    hide Next, Enabled, Ok, Updated;
    var (s0, s1, s2, s3) := (Sems([0, 0], map[], []), Sems([0, 0], map[], [Q1]), Sems([0, 0], map[], [Q1, Q2]),
      Sems([1, 0], map[], [Q1.(status := 1), Q2]));
    StateOk([0, 0], []);
    StateOk([0, 0], [Q1]);
    StateOk([0, 0], [Q1, Q2]);
    StateOk([1, 0], [Q1.(status := 1), Q2]);
    NotThere(s0, 1);
    NotThere(s1, 2);
    assert [] + [Q1] == [Q1] && [Q1] + [Q2] == [Q1, Q2] && [0, 0][0 := 1] == [1, 0];
    Sleeps(s0, 1, 0);
    Sleeps(s1, 2, 1);
    MarksFirst();
    Goes(s2, 3, Op(0, 1, false, false), s3);
  }

  lemma CutSecond()
    ensures var marked := [Q1.(status := 1), Q2];
      && StepTo(Sems([1, 0], map[], marked), Semop(3, Take(0)), Sems([0, 0], map[], marked))
      && StepTo(Sems([0, 0], map[], marked), Semop(3, Give(1)), Sems([0, 1], map[], marked))
      && StepTo(Sems([0, 1], map[], marked), Retry(1), Sems([0, 1], map[], [Q1, Q2]))
  {
    hide Next, Enabled, Ok, Updated;
    var marked := [Q1.(status := 1), Q2];
    StateOk([1, 0], marked);
    StateOk([0, 0], marked);
    StateOk([0, 1], marked);
    StateOk([0, 1], [Q1, Q2]);
    assert [1, 0][0 := 0] == [0, 0] && [0, 0][1 := 1] == [0, 1];
    StopsAtMarked([0, 0]);
    Goes(Sems([1, 0], map[], marked), 3, Op(0, -1, false, false), Sems([0, 0], map[], marked));
    StopsAtMarked([0, 1]);
    Goes(Sems([0, 0], map[], marked), 3, Op(1, 1, false, false), Sems([0, 1], map[], marked));
    RetriesInVain();
  }

  /** Told to retry, process 1 finds that process 3 has taken what it wanted; meanwhile passes
      over the queue have stopped at its entry. Process 2 could go on, but nobody tells it. */
  lemma CutShort()
    ensures var steps := [Semop(1, Take(0)), Semop(2, Take(1)), Semop(3, Give(0)), Semop(3, Take(0)),
      Semop(3, Give(1)), Retry(1)];
      var s := Sems([0, 0], map[], []);
      Ok(s) && Runnable(s, steps) && Run(s, steps) == Sems([0, 1], map[], [Q1, Q2]) && !NoneLost(Run(s, steps))
  {
    hide Next, Enabled, Ok, Run, Runnable, StepTo;
    var marked := [Q1.(status := 1), Q2];
    var steps := [Semop(1, Take(0)), Semop(2, Take(1)), Semop(3, Give(0)), Semop(3, Take(0)), Semop(3, Give(1)),
      Retry(1)];
    var states := [Sems([0, 0], map[], []), Sems([0, 0], map[], [Q1]), Sems([0, 0], map[], [Q1, Q2]),
      Sems([1, 0], map[], marked),
                   Sems([0, 0], map[], marked), Sems([0, 1], map[], marked), Sems([0, 1], map[], [Q1, Q2])];
    CutFirst();
    CutSecond();
    StateOk([0, 0], []);
    OneResult([0, 1], Op(1, -1, false, false));
    RunsTo(steps, states);
    assert !Stuck(states[6].vals, states[6].queue[1]);
  }

  lemma LeavesMarked()
    ensures var s := Sems([1, 1], map[], [Q1.(status := 1), Q2]); StepTo(s, Exit(1), Sems([1, 1], map[], [Q2]))
  {
    var s := Sems([1, 1], map[], [Q1.(status := 1), Q2]);
    StateOk([1, 1], s.queue);
    assert At(s, 0, 1);
    assert Place(s, 1) == 0;
    ExitOk(s, 1);
    assert Without(s.queue, 0) == [Q2];
  }

  /** Told to retry, process 1 leaves instead, with nothing to undo: nobody tells process 2, which
      could go on. */
  lemma LeavesInstead()
    ensures var steps := [Semop(1, Take(0)), Semop(2, Take(1)), Semop(3, Give(0)), Semop(3, Give(1)), Exit(1)];
      var s := Sems([0, 0], map[], []);
      Ok(s) && Runnable(s, steps) && Run(s, steps) == Sems([1, 1], map[], [Q2]) && !NoneLost(Run(s, steps))
  {
    hide Next, Enabled, Ok, Run, Runnable, StepTo, Updated;
    var marked := [Q1.(status := 1), Q2];
    var steps := [Semop(1, Take(0)), Semop(2, Take(1)), Semop(3, Give(0)), Semop(3, Give(1)), Exit(1)];
    var states := [Sems([0, 0], map[], []), Sems([0, 0], map[], [Q1]), Sems([0, 0], map[], [Q1, Q2]),
                   Sems([1, 0], map[], marked), Sems([1, 1], map[], marked), Sems([1, 1], map[], [Q2])];
    CutFirst();
    GivesMore();
    LeavesMarked();
    StateOk([0, 0], []);
    OneResult([1, 1], Op(1, -1, false, false));
    RunsTo(steps, states);
    assert !Stuck(states[5].vals, states[5].queue[0]);
  }

  lemma GivesMore()
    ensures var marked := [Q1.(status := 1), Q2];
      StepTo(Sems([1, 0], map[], marked), Semop(3, Give(1)), Sems([1, 1], map[], marked))
  {
    hide Next, Enabled, Ok, Updated;
    var marked := [Q1.(status := 1), Q2];
    StateOk([1, 0], marked);
    StateOk([1, 1], marked);
    assert [1, 0][1 := 1] == [1, 1];
    StopsAtMarked([1, 1]);
    Goes(Sems([1, 0], map[], marked), 3, Op(1, 1, false, false), Sems([1, 1], map[], marked));
  }

  /** Waits for semaphore 1 to be zero, and adds to semaphore 0. */
  const MIXED := [Op(1, 0, false, false), Op(0, 1, false, false)]
  const Q3 := Pending(2, MIXED, false, EINTR)

  lemma MixedResult(vals: seq<int>)
    requires |vals| == 2 && vals[0] == 0 && vals[1] >= 0
    ensures OpsOk(MIXED, 2) && Result(vals, MIXED) == if vals[1] == 0 then 0 else 1
  {
    assert Sum(MIXED, 1, 0) == 0 && Sum(MIXED, 0, 1) == Sum(MIXED, 0, 0) == 0;
    assert OpOk(vals, MIXED, 0) <==> vals[1] == 0;
    assert ResultFrom(vals, MIXED, 2) == 0;
    assert OpOk(vals, MIXED, 1);
    assert vals[1] == 0 ==> ResultFrom(vals, MIXED, 0) == ResultFrom(vals, MIXED, 1);
  }

  lemma MixedOk(vals: seq<int>)
    requires |vals| == 2 && vals[0] >= 0 && vals[1] >= 0
    ensures Ok(Sems(vals, map[], [Q1, Q3])) && !Sleeping(Sems(vals, map[], [Q1, Q3]), 3)
  {
    var s := Sems(vals, map[], [Q1, Q3]);
    assert Q1.sops[0].op < 0;
    assert EntryOk(s, Q1) && EntryOk(s, Q3);
    NotThere(s, 3);
  }

  lemma MixedSleeps()
    ensures var s := Sems([0, 1], map[], [Q1]);
      Ok(s) && Enabled(s, Semop(2, MIXED)) && Next(s, Semop(2, MIXED)) == Sems([0, 1], map[], [Q1, Q3])
  {
    var s := Sems([0, 1], map[], [Q1]);
    StateOk([0, 1], [Q1]);
    MixedResult([0, 1]);
    assert MIXED[1].op != 0 && !Decreases(MIXED) && !HasUndo(MIXED);
    NotThere(s, 2);
    assert [Q1] + [Q3] == [Q1, Q3];
  }

  /** The pass finds the mixed entry after it has passed over the other. */
  lemma MixedPass()
    ensures var s := Sems([0, 0], map[], [Q1, Q3]); Ok(s) && Updated(s, 0) == Sems([1, 0], map[], [Q1])
  {
    var s, s' := Sems([0, 0], map[], [Q1, Q3]), Sems([1, 0], map[], [Q1]);
    MixedOk([0, 0]);
    StateOk([1, 0], [Q1]);
    OneResult([0, 0], Op(0, -1, false, false));
    MixedResult([0, 0]);
    assert !HasUndo(MIXED);
    assert Sum(MIXED, 0, 2) == 1 && Sum(MIXED, 1, 2) == 0 by {
      assert Sum(MIXED, 0, 0) == 0 && Sum(MIXED, 0, 1) == 0 && Sum(MIXED, 1, 0) == 0 && Sum(MIXED, 1, 1) == 0;
    }
    assert ValsAfter([0, 0], MIXED, 2) == [1, 0];
    assert Without([Q1, Q3], 1) == [Q1];
    assert Done(s, 2, MIXED).(queue := [Q1]) == s';
    assert Updated(s', 1) == s';
    assert Updated(s, 1) == s';
  }

  /** Process 1 could take what the sleeping process 2 has just given, but nobody tells it. */
  lemma MixedEntry()
    ensures var steps := [Semop(1, Take(0)), Semop(2, MIXED), Semop(3, Take(1))];
      var s := Sems([0, 1], map[], []);
      Ok(s) && Runnable(s, steps) && Run(s, steps) == Sems([1, 0], map[], [Q1]) && !NoneLost(Run(s, steps))
  {
    hide Next, Enabled, Ok, Updated;
    var (s0, s1, s2, s3) := (Sems([0, 1], map[], []), Sems([0, 1], map[], [Q1]), Sems([0, 1], map[], [Q1, Q3]),
      Sems([1, 0], map[], [Q1]));
    StateOk([0, 1], []);
    StateOk([0, 1], [Q1]);
    StateOk([1, 0], [Q1]);
    MixedOk([0, 1]);
    assert !Sleeping(s0, 1);
    assert [] + [Q1] == [Q1] && [0, 1][1 := 0] == [0, 0];
    Sleeps(s0, 1, 0);
    MixedSleeps();
    MixedPass();
    Goes(s2, 3, Op(1, -1, false, false), s3);
    RunsTo([Semop(1, Take(0)), Semop(2, MIXED), Semop(3, Take(1))], [s0, s1, s2, s3]);
    OneResult([1, 0], Op(0, -1, false, false));
    assert !Stuck(s3.vals, s3.queue[0]);
  }

  ghost predicate StepTo(s: Sems, step: Step, s': Sems) {
    Ok(s) && Enabled(s, step) && Next(s, step) == s' && Ok(s')
  }

  /** A run is what its steps make it. */
  lemma {:induction false} RunsTo(steps: seq<Step>, states: seq<Sems>)
    requires |states| == |steps| + 1 && Ok(states[0])
    requires forall k :: 0 <= k < |steps| ==> StepTo(states[k], steps[k], states[k + 1])
    ensures Runnable(states[0], steps) && Run(states[0], steps) == states[|steps|]
    decreases |steps|
  {
    hide Next, Enabled, Ok;
    if steps != [] {
      assert StepTo(states[0], steps[0], states[1]);
      forall k | 0 <= k < |steps| - 1 ensures StepTo(states[1..][k], steps[1..][k], states[1..][k + 1]) {
        assert StepTo(states[k + 1], steps[k + 1], states[k + 2]);
      }
      RunsTo(steps[1..], states[1..]);
    }
  }
}
