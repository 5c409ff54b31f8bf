/** Conservation: a value together with the adjustments still due to it. */
module SemBalance {
  import opened SemSpec
  import opened SemRuns

  ghost predicate Wide(adj: map<nat, seq<int>>, i: nat) {
    forall u :: u in adj ==> i < |adj[u]|
  }

  ghost function SumAdj(adj: map<nat, seq<int>>, i: nat): int
    requires Wide(adj, i)
  {
    if adj == map[] then 0
    else
      var u :| u in adj;
      adj[u][i] + SumAdj(adj - {u}, i)
  }

  /** Any one may be taken first. */
  lemma {:induction false} SumAny(adj: map<nat, seq<int>>, i: nat, u: nat)
    requires Wide(adj, i) && u in adj
    ensures SumAdj(adj, i) == adj[u][i] + SumAdj(adj - {u}, i)
    decreases |adj|
  {
    var v :| v in adj && SumAdj(adj, i) == adj[v][i] + SumAdj(adj - {v}, i);
    if u != v {
      SumAny(adj - {v}, i, u);
      SumAny(adj - {u}, i, v);
      assert adj - {u} - {v} == adj - {v} - {u};
    }
  }

  lemma SumChange(adj: map<nat, seq<int>>, i: nat, u: nat, a: seq<int>)
    requires Wide(adj, i) && i < |a|
    ensures SumAdj(adj[u := a], i) == SumAdj(adj, i) + a[i] - (if u in adj then adj[u][i] else 0)
  {
    SumAny(adj[u := a], i, u);
    if u in adj {
      SumAny(adj, i, u);
      assert adj[u := a] - {u} == adj - {u};
    } else {
      assert adj[u := a] - {u} == adj;
    }
  }

  lemma OkWide(s: Sems, i: nat)
    requires Ok(s) && i < |s.vals|
    ensures Wide(s.adj, i)
  {
    assert forall u :: u in s.adj ==> AdjOk(s.adj[u], |s.vals|);
  }

  ghost function Balance(s: Sems, i: nat): int
    requires Ok(s) && i < |s.vals|
  {
    OkWide(s, i);
    s.vals[i] + SumAdj(s.adj, i)
  }

  /** Equal as far as sixteen bits can tell. */
  ghost predicate Same(x: int, y: int) {
    (x - y) % 65536 == 0
  }

  /** Equal outright, or as far as sixteen bits can tell. */
  ghost predicate Kept(exact: bool, x: int, y: int) {
    if exact then x == y else Same(x, y)
  }

  lemma KeptTrans(exact: bool, x: int, y: int, z: int)
    requires Kept(exact, x, y) && Kept(exact, y, z)
    ensures Kept(exact, x, z)
  {
  }

  lemma ShortSame(x: int, c: int)
    ensures Same(c + Short(x), c + x)
  {
  }

  /** Every operation that changes anything is to be undone at exit. */
  ghost predicate AllUndo(sops: seq<Op>) {
    forall k :: 0 <= k < |sops| && sops[k].op != 0 ==> sops[k].undo
  }

  lemma {:induction false} AllUndoSum(sops: seq<Op>, i: nat, k: nat)
    requires k <= |sops| && AllUndo(sops)
    ensures UndoSum(sops, i, k) == Sum(sops, i, k)
  {
    if k > 0 {
      AllUndoSum(sops, i, k - 1);
    }
  }

  lemma {:induction false} NoUndoSum(sops: seq<Op>, i: nat, k: nat)
    requires k <= |sops| && !HasUndo(sops)
    ensures UndoSum(sops, i, k) == 0
  {
    if k > 0 {
      NoUndoSum(sops, i, k - 1);
    }
  }

  /** The adjustment that the operations leave behind, before it is cut to sixteen bits. */
  ghost function Due(s: Sems, pid: nat, sops: seq<Op>, i: nat): int {
    (if pid in s.adj && i < |s.adj[pid]| then s.adj[pid][i] else 0) - UndoSum(sops, i, |sops|)
  }

  lemma DoneBalanceIs(s: Sems, pid: nat, sops: seq<Op>, i: nat)
    requires Ok(s) && OpsOk(sops, |s.vals|) && Result(s.vals, sops) == 0 && (HasUndo(sops) ==> pid in s.adj)
    requires i < |s.vals|
    ensures Ok(Done(s, pid, sops))
    ensures Balance(Done(s, pid, sops), i)
      == Balance(s, i) + Sum(sops, i, |sops|) - UndoSum(sops, i, |sops|) + if HasUndo(sops)
        then Short(Due(s, pid, sops, i)) - Due(s, pid, sops, i) else 0
  {
    hide Short;
    DoneOk(s, pid, sops);
    OkWide(s, i);
    if HasUndo(sops) {
      SumChange(s.adj, i, pid, AdjAfter(s.adj[pid], sops, |sops|));
    } else {
      NoUndoSum(sops, i, |sops|);
    }
  }

  /** What is not to be undone is what the balance changes by. */
  lemma DoneBalance(s: Sems, pid: nat, sops: seq<Op>, i: nat)
    requires Ok(s) && OpsOk(sops, |s.vals|) && Result(s.vals, sops) == 0 && (HasUndo(sops) ==> pid in s.adj)
    requires i < |s.vals|
    ensures Ok(Done(s, pid, sops))
    ensures Same(Balance(Done(s, pid, sops), i), Balance(s, i) + Sum(sops, i, |sops|) - UndoSum(sops, i, |sops|))
  {
    hide Ok, Balance, Result, Short, Due, Sum, UndoSum, Done;
    DoneBalanceIs(s, pid, sops, i);
    ShortSame(Due(s, pid, sops, i),
      Balance(s, i) + Sum(sops, i, |sops|) - UndoSum(sops, i, |sops|) - Due(s, pid, sops, i));
  }

  /** And exactly so as long as the adjustment fits in a short. */
  lemma DoneBalanceExact(s: Sems, pid: nat, sops: seq<Op>, i: nat)
    requires Ok(s) && OpsOk(sops, |s.vals|) && Result(s.vals, sops) == 0 && (HasUndo(sops) ==> pid in s.adj)
    requires i < |s.vals|
    ensures Ok(Done(s, pid, sops))
    ensures Balance(Done(s, pid, sops), i) == Balance(s, i) + Sum(sops, i, |sops|) - UndoSum(sops, i, |sops|) <==>
      (HasUndo(sops) ==> -32768 <= Due(s, pid, sops, i) < 32768)
  {
    hide Ok, Balance, Result, Due, Sum, UndoSum, Done;
    DoneBalanceIs(s, pid, sops, i);
  }

  // ---- Completions whose adjustments fit in a short

  ghost predicate FitsAt(s: Sems, pid: nat, sops: seq<Op>, i: nat) {
    -32768 <= Due(s, pid, sops, i) < 32768
  }

  /** If the operations are done now, no adjustment that they leave behind is cut. */
  ghost predicate Fits(s: Sems, pid: nat, sops: seq<Op>)
    requires OpsOk(sops, |s.vals|)
  {
    Result(s.vals, sops) == 0 && HasUndo(sops) ==> forall i: nat :: i < |s.vals| ==> FitsAt(s, pid, sops, i)
  }

  /** The same for all that update_queue completes. */
  ghost predicate UpdatedFits(s: Sems, i: nat)
    requires Ok(s) && i <= |s.queue|
    decreases |s.queue| - i
  {
    i < |s.queue| && s.queue[i].status != 1 ==>
      var q := s.queue[i];
      StepOk(s, i);
      var r := Result(s.vals, q.sops);
      if r > 0 then UpdatedFits(s, i + 1)
      else if r == 0 && q.decrease then true
      else
        && Fits(s, q.pid, q.sops)
        && UpdatedFits((if r == 0 then Done(s, q.pid, q.sops) else s).(queue := Without(s.queue, i)), i)
  }

  ghost predicate SemopFits(s: Sems, pid: nat, sops: seq<Op>)
    requires Ok(s) && OpsOk(sops, |s.vals|)
  {
    WithUndoOk(s, pid, sops);
    var s1 := WithUndo(s, pid, sops);
    AttemptedOk(s1, pid, sops);
    Result(s.vals, sops) <= 0 ==> Fits(s1, pid, sops) && (Alters(sops) ==> UpdatedFits(Attempted(s1, pid, sops), 0))
  }

  ghost predicate WakeFits(s: Sems, j: nat, again: bool)
    requires Ok(s) && j < |s.queue|
  {
    var q := s.queue[j];
    assert EntryOk(s, q);
    AttemptedOk(s, q.pid, q.sops);
    var s1 := if again then Attempted(s, q.pid, q.sops) else s;
    FewerOk(s1, j);
    !(again && Result(s.vals, q.sops) > 0) ==>
      (again ==> Fits(s, q.pid, q.sops)) && (Alters(q.sops) ==> UpdatedFits(Removed(s1, j), 0))
  }

  ghost predicate ExitFits(s: Sems, pid: nat)
    requires Ok(s)
  {
    ExitOk(s, pid);
    pid in s.adj ==> UpdatedFits(Left(s, pid).(vals := Adjusted(s.vals, s.adj[pid]), adj := s.adj - {pid}), 0)
  }

  ghost predicate NextFits(s: Sems, step: Step)
    requires Ok(s) && Enabled(s, step)
  {
    match step
    case Semop(pid, sops) => SemopFits(s, pid, sops)
    case Retry(pid) => WakeFits(s, Place(s, pid), true)
    case Interrupt(pid) => WakeFits(s, Place(s, pid), false)
    case Exit(pid) => ExitFits(s, pid)
    case SetVal(_, _) => true
    case SetAll(_) => true
  }

  /** No adjustment is cut in the whole run. */
  ghost predicate AllFit(s: Sems, steps: seq<Step>)
    requires Ok(s) && Runnable(s, steps)
    decreases |steps|
  {
    steps != [] ==> NextFits(s, steps[0]) && (NextOk(s, steps[0]); AllFit(Next(s, steps[0]), steps[1..]))
  }

  // ---- Every step keeps the balance

  ghost predicate QueueUndo(queue: seq<Pending>) {
    forall j :: 0 <= j < |queue| ==> AllUndo(queue[j].sops)
  }

  lemma QueueSame(s: Sems, queue: seq<Pending>, i: nat)
    requires Ok(s) && Ok(s.(queue := queue)) && i < |s.vals|
    ensures Balance(s.(queue := queue), i) == Balance(s, i)
  {
  }

  /** Nothing update_queue does changes the balance, if everybody undoes. */
  lemma {:induction false} UpdatedBalance(s: Sems, k: nat, i: nat, exact: bool)
    requires Ok(s) && k <= |s.queue| && i < |s.vals| && QueueUndo(s.queue) && (exact ==> UpdatedFits(s, k))
    ensures Ok(Updated(s, k)) && |Updated(s, k).vals| == |s.vals| && QueueUndo(Updated(s, k).queue)
    ensures Kept(exact, Balance(Updated(s, k), i), Balance(s, i))
    decreases |s.queue| - k
  {
    hide Fits, Kept, Balance, Ok, Result;
    UpdatedOk(s, k);
    KeptSelf(exact, Balance(s, i));
    if k < |s.queue| && s.queue[k].status != 1 {
      var q := s.queue[k];
      StepOk(s, k);
      var r := Result(s.vals, q.sops);
      if r > 0 {
        UpdatedBalance(s, k + 1, i, exact);
      } else if r == 0 && q.decrease {
        QueueSame(s, s.queue[k := q.(status := 1)], i);
      } else {
        EntryUndo(s, k);
        AttemptBalance(s, q.pid, q.sops, i, exact);
        var s1 := Attempted(s, q.pid, q.sops);
        QueueSame(s1, Without(s.queue, k), i);
        var s2 := s1.(queue := Without(s.queue, k));
        UpdatedBalance(s2, k, i, exact);
        KeptTrans(exact, Balance(Updated(s2, k), i), Balance(s2, i), Balance(s, i));
      }
    }
  }

  lemma KeptSelf(exact: bool, x: int)
    ensures Kept(exact, x, x)
  {
  }

  lemma EntryUndo(s: Sems, k: nat)
    requires Ok(s) && k < |s.queue| && QueueUndo(s.queue)
    ensures EntryOk(s, s.queue[k]) && AllUndo(s.queue[k].sops) && QueueUndo(Without(s.queue, k))
  {
    hide AllUndo;
  }

  lemma AttemptBalance(s: Sems, pid: nat, sops: seq<Op>, i: nat, exact: bool)
    requires Ok(s) && OpsOk(sops, |s.vals|) && (HasUndo(sops) ==> pid in s.adj) && i < |s.vals| && AllUndo(sops)
    requires exact ==> Fits(s, pid, sops)
    ensures Ok(Attempted(s, pid, sops)) && Kept(exact, Balance(Attempted(s, pid, sops), i), Balance(s, i))
  {
    hide Balance, Ok, Result, Due, Sum, UndoSum, Done;
    if Result(s.vals, sops) == 0 {
      DoneBalance(s, pid, sops, i);
      DoneBalanceExact(s, pid, sops, i);
      AllUndoSum(sops, i, |sops|);
      assert exact && HasUndo(sops) ==> FitsAt(s, pid, sops, i);
    }
  }

  lemma WithUndoBalance(s: Sems, pid: nat, sops: seq<Op>, i: nat)
    requires Ok(s) && i < |s.vals|
    ensures Ok(WithUndo(s, pid, sops)) && Balance(WithUndo(s, pid, sops), i) == Balance(s, i)
  {
    WithUndoOk(s, pid, sops);
    OkWide(s, i);
    if HasUndo(sops) && pid !in s.adj {
      SumChange(s.adj, i, pid, Zeroes(|s.vals|));
    }
  }

  /** A step that only does what is to be undone, and at whose exit no value is cut off at zero. */
  ghost predicate Undoing(s: Sems, step: Step) {
    match step
    case Semop(_, sops) => AllUndo(sops)
    case Retry(_) => true
    case Interrupt(_) => true
    case Exit(pid) => pid in s.adj ==> forall i :: 0 <= i < |s.vals| && i < |s.adj[pid]| ==>
      s.vals[i] + s.adj[pid][i] >= 0
    case SetVal(_, _) => false
    case SetAll(_) => false
  }

  lemma SemopBalance(s: Sems, pid: nat, sops: seq<Op>, i: nat, exact: bool)
    requires Ok(s) && OpsOk(sops, |s.vals|) && !Sleeping(s, pid) && i < |s.vals| && QueueUndo(s.queue) && AllUndo(sops)
    requires exact ==> SemopFits(s, pid, sops)
    ensures var s' := AfterSemop(s, pid, sops);
      Ok(s') && |s'.vals| == |s.vals| && QueueUndo(s'.queue) && Kept(exact, Balance(s', i), Balance(s, i))
  {
    hide Updated, Balance;
    WithUndoBalance(s, pid, sops, i);
    WithUndoOk(s, pid, sops);
    var s1 := WithUndo(s, pid, sops);
    if Result(s.vals, sops) > 0 {
      assert forall j: nat :: At(s1, j, pid) ==> At(s, j, pid);
      EnqueuedOk(s1, pid, sops);
      QueueSame(s1, Enqueued(s1, pid, sops).queue, i);
    } else {
      AttemptedOk(s1, pid, sops);
      AttemptBalance(s1, pid, sops, i, exact);
      var s2 := Attempted(s1, pid, sops);
      if Alters(sops) {
        UpdatedBalance(s2, 0, i, exact);
        KeptTrans(exact, Balance(Updated(s2, 0), i), Balance(s2, i), Balance(s1, i));
      }
    }
  }

  lemma WakeBalance(s: Sems, j: nat, again: bool, i: nat, exact: bool)
    requires Ok(s) && j < |s.queue| && i < |s.vals| && QueueUndo(s.queue) && (exact ==> WakeFits(s, j, again))
    ensures var s' := AfterWake(s, j, again);
      Ok(s') && |s'.vals| == |s.vals| && QueueUndo(s'.queue) && Kept(exact, Balance(s', i), Balance(s, i))
  {
    hide Updated, Balance;
    var q := s.queue[j];
    assert EntryOk(s, q);
    if again && Result(s.vals, q.sops) > 0 {
      ResleepOk(s, j, EINTR);
      QueueSame(s, s.queue[j := q.(status := EINTR)], i);
    } else {
      AttemptedOk(s, q.pid, q.sops);
      if again { AttemptBalance(s, q.pid, q.sops, i, exact); }
      var s1 := if again then Attempted(s, q.pid, q.sops) else s;
      FewerOk(s1, j);
      QueueSame(s1, Without(s1.queue, j), i);
      var s2 := Removed(s1, j);
      if Alters(q.sops) {
        UpdatedBalance(s2, 0, i, exact);
        KeptTrans(exact, Balance(Updated(s2, 0), i), Balance(s2, i), Balance(s, i));
      }
    }
  }

  lemma ExitBalance(s: Sems, pid: nat, i: nat, exact: bool)
    requires Ok(s) && i < |s.vals| && QueueUndo(s.queue) && Undoing(s, Exit(pid)) && (exact ==> ExitFits(s, pid))
    ensures var s' := AfterExit(s, pid);
      Ok(s') && |s'.vals| == |s.vals| && QueueUndo(s'.queue) && Kept(exact, Balance(s', i), Balance(s, i))
  {
    hide Updated;
    ExitOk(s, pid);
    var s1 := Left(s, pid);
    if pid in s.adj {
      var s2 := s1.(vals := Adjusted(s.vals, s.adj[pid]), adj := s.adj - {pid});
      OkWide(s, i);
      SumAny(s.adj, i, pid);
      assert Balance(s2, i) == Balance(s, i);
      UpdatedBalance(s2, 0, i, exact);
    }
  }

  lemma StepBalance(s: Sems, step: Step, i: nat, exact: bool)
    requires Ok(s) && Enabled(s, step) && i < |s.vals| && QueueUndo(s.queue) && Undoing(s, step)
    requires exact ==> NextFits(s, step)
    ensures var s' := Next(s, step);
      Ok(s') && |s'.vals| == |s.vals| && QueueUndo(s'.queue) && Kept(exact, Balance(s', i), Balance(s, i))
  {
    hide AfterSemop, AfterWake, AfterExit, Balance, Ok;
    match step
    case Semop(pid, sops) => SemopBalance(s, pid, sops, i, exact);
    case Retry(pid) => WakeBalance(s, Place(s, pid), true, i, exact);
    case Interrupt(pid) => WakeBalance(s, Place(s, pid), false, i, exact);
    case Exit(pid) => ExitBalance(s, pid, i, exact);
  }

  ghost predicate AllUndoing(s: Sems, steps: seq<Step>)
    requires Ok(s) && Runnable(s, steps)
    decreases |steps|
  {
    steps != [] ==> Undoing(s, steps[0]) && (NextOk(s, steps[0]); AllUndoing(Next(s, steps[0]), steps[1..]))
  }

  /** Over any run the balance is conserved, modulo 65536; and outright if no adjustment is cut. */
  lemma {:induction false} RunBalance(s: Sems, steps: seq<Step>, i: nat, exact: bool)
    requires Ok(s) && Runnable(s, steps) && AllUndoing(s, steps) && i < |s.vals| && QueueUndo(s.queue)
    requires exact ==> AllFit(s, steps)
    ensures |Run(s, steps).vals| == |s.vals| && Kept(exact, Balance(Run(s, steps), i), Balance(s, i))
    decreases |steps|
  {
    hide Next, Balance, Ok, NextFits, Undoing;
    KeptSelf(exact, Balance(s, i));
    if steps != [] {
      NextOk(s, steps[0]);
      StepBalance(s, steps[0], i, exact);
      RunBalance(Next(s, steps[0]), steps[1..], i, exact);
      KeptTrans(exact, Balance(Run(s, steps), i), Balance(Next(s, steps[0]), i), Balance(s, i));
    }
  }

  /** So when everybody who undoes has gone, every semaphore has the value it had before
      anybody came. */
  lemma AllReturned(s: Sems, steps: seq<Step>, i: nat)
    requires Ok(s) && Runnable(s, steps) && AllUndoing(s, steps) && i < |s.vals| && QueueUndo(s.queue)
    requires s.adj == map[] && Run(s, steps).adj == map[]
    ensures i < |Run(s, steps).vals| && Same(Run(s, steps).vals[i], s.vals[i])
    ensures AllFit(s, steps) ==> Run(s, steps).vals[i] == s.vals[i]
  {
    RunBalance(s, steps, i, false);
    if AllFit(s, steps) {
      RunBalance(s, steps, i, true);
    }
  }
}
