/** Runs of semaphore operations: what is conserved, and when a sleeper is forgotten. */
module SemRuns {
  import opened SemSpec

  // ---- Steps

  datatype Step =
    | Semop(pid: nat, sops: seq<Op>)
    | Retry(pid: nat)
    | Interrupt(pid: nat)
    | Exit(pid: nat)
    | SetVal(num: nat, val: int)
    | SetAll(vals: seq<int>)

  predicate Alters(sops: seq<Op>) {
    exists k :: 0 <= k < |sops| && sops[k].op != 0
  }

  predicate Decreases(sops: seq<Op>) {
    exists k :: 0 <= k < |sops| && sops[k].op < 0
  }

  ghost predicate At(s: Sems, j: nat, pid: nat) {
    j < |s.queue| && s.queue[j].pid == pid
  }

  ghost predicate Sleeping(s: Sems, pid: nat) {
    exists j: nat :: At(s, j, pid)
  }

  /** Where in the queue the process sleeps. */
  ghost function Place(s: Sems, pid: nat): (j: nat)
    requires Sleeping(s, pid)
    ensures At(s, j, pid)
  {
    var j: nat :| At(s, j, pid);
    j
  }

  ghost predicate Enabled(s: Sems, step: Step) {
    match step
    case Semop(pid, sops) => !Sleeping(s, pid) && sops != [] && OpsOk(sops, |s.vals|)
    case Retry(pid) => Sleeping(s, pid) && s.queue[Place(s, pid)].status == 1
    case Interrupt(pid) => Sleeping(s, pid) && s.queue[Place(s, pid)].status != 1
    case Exit(pid) => true
    case SetVal(num, val) => num < |s.vals| && 0 <= val <= SEMVMX
    case SetAll(vals) => |vals| == |s.vals| && forall i :: 0 <= i < |vals| ==> 0 <= vals[i] <= SEMVMX
  }

  function Zeroes(n: nat): (z: seq<int>)
    ensures |z| == n && forall i :: 0 <= i < n ==> z[i] == 0
  {
    seq(n, i => 0)
  }

  /** Makes sure that a process with operations to undo has somewhere to note them. */
  function WithUndo(s: Sems, pid: nat, sops: seq<Op>): Sems {
    if HasUndo(sops) && pid !in s.adj then s.(adj := s.adj[pid := Zeroes(|s.vals|)]) else s
  }

  ghost function Attempted(s: Sems, pid: nat, sops: seq<Op>): Sems
    requires OpsOk(sops, |s.vals|)
  {
    if Result(s.vals, sops) == 0 then Done(s, pid, sops) else s
  }

  function Enqueued(s: Sems, pid: nat, sops: seq<Op>): Sems {
    var q := Pending(pid, sops, Decreases(sops), EINTR);
    s.(queue := if Alters(sops) then s.queue + [q] else [q] + s.queue)
  }

  function Removed(s: Sems, j: nat): Sems
    requires j < |s.queue|
  {
    s.(queue := Without(s.queue, j))
  }

  function Max0(x: int): int {
    if x < 0 then 0 else x
  }

  /** sem_exit's adjustment of the values. */
  function Adjusted(vals: seq<int>, adj: seq<int>): seq<int>
    requires |vals| == |adj|
  {
    seq(|vals|, i requires 0 <= i < |vals| => Max0(vals[i] + adj[i]))
  }

  ghost function Left(s: Sems, pid: nat): Sems {
    if Sleeping(s, pid) then Removed(s, Place(s, pid)) else s
  }

  function Cleared(adj: map<nat, seq<int>>, num: nat): map<nat, seq<int>>
    requires forall u :: u in adj ==> num < |adj[u]|
  {
    map u | u in adj :: adj[u][num := 0]
  }

  function AllCleared(adj: map<nat, seq<int>>): map<nat, seq<int>> {
    map u | u in adj :: Zeroes(|adj[u]|)
  }

  // ---- Every step keeps the state in order

  lemma WithUndoOk(s: Sems, pid: nat, sops: seq<Op>)
    requires Ok(s)
    ensures Ok(WithUndo(s, pid, sops)) && (HasUndo(sops) ==> pid in WithUndo(s, pid, sops).adj)
  {
    var s' := WithUndo(s, pid, sops);
    forall j | 0 <= j < |s'.queue| ensures EntryOk(s', s'.queue[j]) { assert EntryOk(s, s.queue[j]); }
  }

  lemma AttemptedOk(s: Sems, pid: nat, sops: seq<Op>)
    requires Ok(s) && OpsOk(sops, |s.vals|) && (HasUndo(sops) ==> pid in s.adj)
    ensures Ok(Attempted(s, pid, sops))
  {
    if Result(s.vals, sops) == 0 {
      DoneOk(s, pid, sops);
    }
  }

  lemma EnqueuedOk(s: Sems, pid: nat, sops: seq<Op>)
    requires Ok(s) && OpsOk(sops, |s.vals|) && (HasUndo(sops) ==> pid in s.adj) && !Sleeping(s, pid)
    ensures Ok(Enqueued(s, pid, sops))
  {
    var q := Pending(pid, sops, Decreases(sops), EINTR);
    assert EntryOk(s, q);
    forall j | 0 <= j < |s.queue| ensures s.queue[j].pid != pid {
      assert At(s, j, pid) <==> s.queue[j].pid == pid;
    }
    hide Alters, Decreases, HasUndo, OpsOk;
    if Alters(sops) {
      MoreOk(s, [], s.queue, q, s.queue + [q]);
    } else {
      MoreOk(s, s.queue, [], q, [q] + s.queue);
    }
  }

  lemma MoreOk(s: Sems, back: seq<Pending>, front: seq<Pending>, q: Pending, queue: seq<Pending>)
    requires Ok(s) && s.queue == front + back && queue == front + [q] + back && EntryOk(s, q)
    requires forall j :: 0 <= j < |s.queue| ==> s.queue[j].pid != q.pid
    ensures Ok(s.(queue := queue))
  {
    hide AdjOk, HasUndo, OpsOk;
    var s' := s.(queue := queue);
    forall j | 0 <= j < |queue| ensures EntryOk(s', queue[j]) {
      if j != |front| { assert EntryOk(s, s.queue[if j < |front| then j else j - 1]); }
    }
    forall j, k | 0 <= j < k < |queue| ensures queue[j].pid != queue[k].pid {
      assert j != |front| ==> queue[j] == s.queue[if j < |front| then j else j - 1];
      assert k != |front| ==> queue[k] == s.queue[if k < |front| then k else k - 1];
    }
  }

  /** The process is gone from queue and adjustments. */
  lemma ExitOk(s: Sems, pid: nat)
    requires Ok(s)
    ensures Ok(Left(s, pid)) && (forall j :: 0 <= j < |Left(s, pid).queue| ==> Left(s, pid).queue[j].pid != pid)
    ensures pid in s.adj ==>
      |s.adj[pid]| == |s.vals| && Ok(Left(s, pid).(vals := Adjusted(s.vals, s.adj[pid]), adj := s.adj - {pid}))
  {
    var s' := Left(s, pid);
    if Sleeping(s, pid) {
      FewerOk(s, Place(s, pid));
    } else {
      forall j | 0 <= j < |s.queue| ensures s.queue[j].pid != pid {
        assert At(s, j, pid) <==> s.queue[j].pid == pid;
      }
    }
    if pid in s.adj {
      assert AdjOk(s.adj[pid], |s.vals|);
      var s2 := s'.(vals := Adjusted(s.vals, s.adj[pid]), adj := s.adj - {pid});
      forall j | 0 <= j < |s2.queue| ensures EntryOk(s2, s2.queue[j]) { assert EntryOk(s', s'.queue[j]); }
    }
  }

  lemma SetOk(s: Sems, vals: seq<int>, adj: map<nat, seq<int>>)
    requires Ok(s) && |vals| == |s.vals| && (forall i :: 0 <= i < |vals| ==> vals[i] >= 0)
    requires adj.Keys == s.adj.Keys && forall u :: u in adj ==> AdjOk(adj[u], |vals|)
    ensures Ok(s.(vals := vals, adj := adj))
  {
    var s' := s.(vals := vals, adj := adj);
    forall j | 0 <= j < |s'.queue| ensures EntryOk(s', s'.queue[j]) { assert EntryOk(s, s.queue[j]); }
  }

  lemma ResleepOk(s: Sems, j: nat, status: int)
    requires Ok(s) && j < |s.queue|
    ensures Ok(s.(queue := s.queue[j := s.queue[j].(status := status)]))
  {
    var s' := s.(queue := s.queue[j := s.queue[j].(status := status)]);
    forall k | 0 <= k < |s'.queue| ensures EntryOk(s', s'.queue[k]) { assert EntryOk(s, s.queue[k]); }
  }

  /** An operation is made for the first time. */
  ghost function AfterSemop(s: Sems, pid: nat, sops: seq<Op>): Sems
    requires Ok(s) && OpsOk(sops, |s.vals|)
  {
    WithUndoOk(s, pid, sops);
    var s1 := WithUndo(s, pid, sops);
    if Result(s.vals, sops) > 0 then Enqueued(s1, pid, sops)
    else
      AttemptedOk(s1, pid, sops);
      if Alters(sops) then Updated(Attempted(s1, pid, sops), 0) else Attempted(s1, pid, sops)
  }

  /** It is made again, or given up, by the process at j in the queue. */
  ghost function AfterWake(s: Sems, j: nat, again: bool): Sems
    requires Ok(s) && j < |s.queue|
  {
    var q := s.queue[j];
    assert EntryOk(s, q);
    if again && Result(s.vals, q.sops) > 0 then s.(queue := s.queue[j := q.(status := EINTR)])
    else
      AttemptedOk(s, q.pid, q.sops);
      var s1 := if again then Attempted(s, q.pid, q.sops) else s;
      FewerOk(s1, j);
      if Alters(q.sops) then Updated(Removed(s1, j), 0) else Removed(s1, j)
  }

  ghost function AfterExit(s: Sems, pid: nat): Sems
    requires Ok(s)
  {
    ExitOk(s, pid);
    if pid in s.adj then Updated(Left(s, pid).(vals := Adjusted(s.vals, s.adj[pid]), adj := s.adj - {pid}), 0)
      else Left(s, pid)
  }

  ghost function AfterSet(s: Sems, vals: seq<int>, adj: map<nat, seq<int>>): Sems
    requires Ok(s) && |vals| == |s.vals| && (forall i :: 0 <= i < |vals| ==> vals[i] >= 0)
    requires adj.Keys == s.adj.Keys && forall u :: u in adj ==> AdjOk(adj[u], |vals|)
  {
    SetOk(s, vals, adj);
    Updated(s.(vals := vals, adj := adj), 0)
  }

  ghost function Next(s: Sems, step: Step): Sems
    requires Ok(s) && Enabled(s, step)
  {
    match step
    case Semop(pid, sops) => AfterSemop(s, pid, sops)
    case Retry(pid) => AfterWake(s, Place(s, pid), true)
    case Interrupt(pid) => AfterWake(s, Place(s, pid), false)
    case Exit(pid) => AfterExit(s, pid)
    case SetVal(num, val) =>
      assert forall u :: u in s.adj ==> AdjOk(s.adj[u], |s.vals|);
      AfterSet(s, s.vals[num := val], Cleared(s.adj, num))
    case SetAll(vals) =>
      assert forall u :: u in s.adj ==> AdjOk(s.adj[u], |s.vals|);
      AfterSet(s, vals, AllCleared(s.adj))
  }

  /** In particular no value is ever negative. */
  lemma NextOk(s: Sems, step: Step)
    requires Ok(s) && Enabled(s, step)
    ensures Ok(Next(s, step))
  {
    hide Ok, Updated;
    match step
    case Semop(pid, sops) =>
      WithUndoOk(s, pid, sops);
      var s1 := WithUndo(s, pid, sops);
      if Result(s.vals, sops) > 0 {
        assert forall j: nat :: At(s1, j, pid) ==> At(s, j, pid);
        EnqueuedOk(s1, pid, sops);
      } else {
        AttemptedOk(s1, pid, sops);
        UpdatedOk(Attempted(s1, pid, sops), 0);
      }
    case Retry(pid) => WakeOk(s, Place(s, pid), true);
    case Interrupt(pid) => WakeOk(s, Place(s, pid), false);
    case Exit(pid) =>
      ExitOk(s, pid);
      if pid in s.adj {
        UpdatedOk(Left(s, pid).(vals := Adjusted(s.vals, s.adj[pid]), adj := s.adj - {pid}), 0);
      }
    case SetVal(num, val) => SetsOk(s, step);
    case SetAll(vals) => SetsOk(s, step);
  }

  lemma SetsOk(s: Sems, step: Step)
    requires Ok(s) && Enabled(s, step) && (step.SetVal? || step.SetAll?)
    ensures Ok(Next(s, step))
  {
    hide Updated;
    assert forall u :: u in s.adj ==> AdjOk(s.adj[u], |s.vals|);
    var vals := if step.SetVal? then s.vals[step.num := step.val] else step.vals;
    var adj := if step.SetVal? then Cleared(s.adj, step.num) else AllCleared(s.adj);
    SetOk(s, vals, adj);
    UpdatedOk(s.(vals := vals, adj := adj), 0);
  }

  lemma WakeOk(s: Sems, j: nat, again: bool)
    requires Ok(s) && j < |s.queue|
    ensures Ok(AfterWake(s, j, again))
  {
    hide Updated;
    var q := s.queue[j];
    assert EntryOk(s, q);
    if again && Result(s.vals, q.sops) > 0 {
      ResleepOk(s, j, EINTR);
    } else {
      AttemptedOk(s, q.pid, q.sops);
      var s1 := if again then Attempted(s, q.pid, q.sops) else s;
      FewerOk(s1, j);
      UpdatedOk(Removed(s1, j), 0);
    }
  }

  ghost predicate Runnable(s: Sems, steps: seq<Step>)
    requires Ok(s)
    decreases |steps|
  {
    steps != [] ==> Enabled(s, steps[0]) && (NextOk(s, steps[0]); Runnable(Next(s, steps[0]), steps[1..]))
  }

  ghost function Run(s: Sems, steps: seq<Step>): (s': Sems)
    requires Ok(s) && Runnable(s, steps)
    ensures Ok(s')
    decreases |steps|
  {
    if steps == [] then s else NextOk(s, steps[0]); Run(Next(s, steps[0]), steps[1..])
  }

  /** A vector that has to wait changes nothing, and its entry goes last, or first if it only waits
      for zero. */
  lemma SleepsWhere(s: Sems, pid: nat, sops: seq<Op>) returns (q: Pending)
    requires Ok(s) && Enabled(s, Semop(pid, sops)) && Result(s.vals, sops) > 0
    ensures q.pid == pid && q.sops == sops && q.status == EINTR
    ensures q.decrease <==> exists k :: 0 <= k < |sops| && sops[k].op < 0
    ensures var s' := Next(s, Semop(pid, sops));
      && s'.vals == s.vals
      && s'.queue == if forall k :: 0 <= k < |sops| ==> sops[k].op == 0 then [q] + s.queue else s.queue + [q]
  {
    hide Result, Ok;
    WithUndoOk(s, pid, sops);
    q := Pending(pid, sops, Decreases(sops), EINTR);
    assert Alters(sops) <==> !forall k :: 0 <= k < |sops| ==> sops[k].op == 0;
  }

  // ---- SETVAL and SETALL

  /** The value is set, nothing is due to semaphore num any more, and all else is as it was; then the
      queue is looked at. */
  lemma SetValIs(s: Sems, num: nat, val: int) returns (s0: Sems)
    requires Ok(s) && Enabled(s, SetVal(num, val))
    ensures Ok(s0) && Next(s, SetVal(num, val)) == Updated(s0, 0) && s0.queue == s.queue
    ensures s0.vals == s.vals[num := val] && s0.adj.Keys == s.adj.Keys
    ensures forall u :: u in s.adj ==> |s0.adj[u]| == |s.vals| == |s.adj[u]|
    ensures forall u, i :: u in s.adj && 0 <= i < |s.vals| ==> s0.adj[u][i] == if i == num then 0 else s.adj[u][i]
  {
    hide Updated;
    assert forall u :: u in s.adj ==> AdjOk(s.adj[u], |s.vals|);
    s0 := s.(vals := s.vals[num := val], adj := Cleared(s.adj, num));
    SetOk(s, s0.vals, s0.adj);
  }

  lemma SetAllIs(s: Sems, vals: seq<int>) returns (s0: Sems)
    requires Ok(s) && Enabled(s, SetAll(vals))
    ensures Ok(s0) && Next(s, SetAll(vals)) == Updated(s0, 0) && s0.queue == s.queue
    ensures s0.vals == vals && s0.adj.Keys == s.adj.Keys
    ensures forall u :: u in s.adj ==> |s0.adj[u]| == |vals| && forall i :: 0 <= i < |vals| ==> s0.adj[u][i] == 0
  {
    hide Updated;
    assert forall u :: u in s.adj ==> AdjOk(s.adj[u], |s.vals|);
    s0 := s.(vals := vals, adj := AllCleared(s.adj));
    SetOk(s, s0.vals, s0.adj);
  }

  ghost predicate NothingDue(s: Sems, num: nat) {
    num < |s.vals| && forall u :: u in s.adj ==> num < |s.adj[u]| && s.adj[u][num] == 0
  }

  /** Exits do not move a semaphore to which nothing is due, while nobody sleeps. */
  lemma {:induction false} ExitsLeave(s: Sems, steps: seq<Step>, num: nat)
    requires Ok(s) && Runnable(s, steps) && s.queue == [] && NothingDue(s, num)
    requires forall k :: 0 <= k < |steps| ==> steps[k].Exit?
    ensures num < |Run(s, steps).vals| && Run(s, steps).vals[num] == s.vals[num]
    decreases |steps|
  {
    if steps != [] {
      ExitLeaves(s, steps[0].pid, num);
      NextOk(s, steps[0]);
      hide Ok, Next, NothingDue;
      ExitsLeave(Next(s, steps[0]), steps[1..], num);
    }
  }

  lemma ExitLeaves(s: Sems, pid: nat, num: nat)
    requires Ok(s) && s.queue == [] && NothingDue(s, num)
    ensures var s' := Next(s, Exit(pid)); s'.queue == [] && NothingDue(s', num) && s'.vals[num] == s.vals[num]
  {
    ExitOk(s, pid);
    assert !Sleeping(s, pid);
    if pid in s.adj { assert AdjOk(s.adj[pid], |s.vals|); }
  }

  /** A semaphore that has been set keeps its value however many processes exit afterwards. */
  lemma SetThenExits(s: Sems, num: nat, val: int, steps: seq<Step>)
    requires Ok(s) && s.queue == [] && Enabled(s, SetVal(num, val)) && Runnable(s, [SetVal(num, val)] + steps)
    requires forall k :: 0 <= k < |steps| ==> steps[k].Exit?
    ensures var s' := Run(s, [SetVal(num, val)] + steps); num < |s'.vals| && s'.vals[num] == val
  {
    var all := [SetVal(num, val)] + steps;
    assert all[0] == SetVal(num, val) && all[1..] == steps;
    var s0 := SetValIs(s, num, val);
    NextOk(s, all[0]);
    assert Updated(s0, 0) == s0;
    hide Next, Ok;
    ExitsLeave(s0, steps, num);
  }
}
