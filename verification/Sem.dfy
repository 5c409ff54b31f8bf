/** The semaphore system calls, on a set of semaphores updated in place. */
module Sem {
  import opened SemSpec
  import opened SemRuns

  // ---- One operation done or undone

  lemma ValsStep(vals: seq<int>, sops: seq<Op>, k: nat)
    requires k < |sops| && sops[k].num < |vals|
    ensures var (o, v, v') := (sops[k], ValsAfter(vals, sops, k), ValsAfter(vals, sops, k + 1));
      v' == v[o.num := v[o.num] + o.op] && v == v'[o.num := v'[o.num] - o.op] && (o.op == 0 ==> v' == v)
  {
  }

  lemma AdjStep(adj: seq<int>, sops: seq<Op>, k: nat)
    requires k < |sops| && sops[k].num < |adj|
    ensures var (o, a, a') := (sops[k], AdjAfter(adj, sops, k), AdjAfter(adj, sops, k + 1));
      && (o.undo ==> a' == a[o.num := Short(a[o.num] - o.op)] && a == a'[o.num := Short(a'[o.num] + o.op)])
      && (!o.undo || o.op == 0 ==> a' == a)
  {
    hide Short;
    var o := sops[k];
    var x := adj[o.num] - UndoSum(sops, o.num, k);
    ShortShort(x, -o.op);
    ShortShort(x - o.op, o.op);
    assert x - o.op + o.op == x;
  }

  lemma NothingDone(vals: seq<int>, adj: seq<int>, sops: seq<Op>)
    requires AdjOk(adj, |vals|)
    ensures ValsAfter(vals, sops, 0) == vals && AdjAfter(adj, sops, 0) == adj
  {
  }

  /** The state after the first k operations. */
  ghost predicate Partly(s: Sems, pid: nat, sops: seq<Op>, k: nat, vals: seq<int>, adj: map<nat, seq<int>>) {
    && k <= |sops| && vals == ValsAfter(s.vals, sops, k)
    && adj == if pid in s.adj && HasUndo(sops) then s.adj[pid := AdjAfter(s.adj[pid], sops, k)] else s.adj
  }

  lemma PartlyStart(s: Sems, pid: nat, sops: seq<Op>)
    requires Ok(s)
    ensures Partly(s, pid, sops, 0, s.vals, s.adj)
    ensures forall vals, adj :: Partly(s, pid, sops, 0, vals, adj) ==> vals == s.vals && adj == s.adj
  {
    if pid in s.adj {
      assert AdjOk(s.adj[pid], |s.vals|);
      NothingDone(s.vals, s.adj[pid], sops);
      assert s.adj[pid := AdjAfter(s.adj[pid], sops, 0)] == s.adj;
    }
  }

  lemma PartlyStep(s: Sems, pid: nat, sops: seq<Op>, k: nat, vals: seq<int>, adj: map<nat, seq<int>>)
    requires Ok(s) && OpsOk(sops, |s.vals|) && (HasUndo(sops) ==> pid in s.adj) && k < |sops|
    requires Partly(s, pid, sops, k, vals, adj)
    ensures var o := sops[k];
      && |vals| == |s.vals| && vals[o.num] == s.vals[o.num] + Sum(sops, o.num, k)
        && (o.undo ==> pid in adj && o.num < |adj[pid]|)
      && Partly(s, pid, sops, k + 1, vals[o.num := vals[o.num] + o.op], if o.undo
        then adj[pid := adj[pid][o.num := Short(adj[pid][o.num] - o.op)]] else adj)
      && (o.op == 0 ==> Partly(s, pid, sops, k + 1, vals, adj))
  {
    ValsStep(s.vals, sops, k);
    if HasUndo(sops) {
      assert AdjOk(s.adj[pid], |s.vals|);
      AdjStep(s.adj[pid], sops, k);
    } else {
      assert !sops[k].undo;
    }
  }

  lemma PartlyBack(s: Sems, pid: nat, sops: seq<Op>, k: nat, vals: seq<int>, adj: map<nat, seq<int>>)
    requires Ok(s) && OpsOk(sops, |s.vals|) && (HasUndo(sops) ==> pid in s.adj) && k < |sops|
    requires Partly(s, pid, sops, k + 1, vals, adj)
    ensures var o := sops[k];
      && |vals| == |s.vals| && (o.undo ==> pid in adj && o.num < |adj[pid]|)
      && Partly(s, pid, sops, k, vals[o.num := vals[o.num] - o.op], if o.undo
        then adj[pid := adj[pid][o.num := Short(adj[pid][o.num] + o.op)]] else adj)
  {
    ValsStep(s.vals, sops, k);
    if HasUndo(sops) {
      assert AdjOk(s.adj[pid], |s.vals|);
      AdjStep(s.adj[pid], sops, k);
    } else {
      assert !sops[k].undo;
    }
  }

  class SemArray {
    var vals: seq<int>
    var adj: map<nat, seq<int>>
    var queue: seq<Pending>

    ghost function State(): Sems
      reads this
    {
      Sems(vals, adj, queue)
    }

    constructor (n: nat)
      ensures Ok(State()) && |vals| == n && queue == [] && adj == map[] && forall i :: 0 <= i < n ==> vals[i] == 0
    {
      vals, adj, queue := Zeroes(n), map[], [];
    }

    /** try_atomic_semop: all of the operations or none. */
    method TryAtomicSemop(pid: nat, sops: seq<Op>, doUndo: bool) returns (result: int)
      requires Ok(State()) && OpsOk(sops, |vals|) && (HasUndo(sops) ==> pid in adj)
      modifies this`vals, this`adj
      ensures result == Result(old(vals), sops)
      ensures State() == if result == 0 && !doUndo then Done(old(State()), pid, sops) else old(State())
    {
      hide Ok, HasUndo, Partly, OpOk, Verdict;
      ghost var s := State();
      PartlyStart(s, pid, sops);
      var k: nat := 0;
      result := 0;
      while k < |sops| && result == 0
        invariant k <= |sops| && (result != 0 ==> 0 < k)
        invariant Partly(s, pid, sops, k, vals, adj)
        invariant forall m :: 0 <= m < (if result == 0 then k else k - 1) ==> OpOk(s.vals, sops, m)
        invariant result != 0 ==> !OpOk(s.vals, sops, k - 1) && result == Verdict(s.vals, sops, k - 1)
        decreases |sops| - k
      {
        var o := sops[k];
        PartlyStep(s, pid, sops, k, vals, adj);
        OpOutcome(s.vals, sops, k, vals[o.num]);
        if o.op == 0 && vals[o.num] != 0 {
          result := if o.nowait then EAGAIN else 1;
        } else {
          vals := vals[o.num := vals[o.num] + o.op];
          if o.undo {
            adj := adj[pid := adj[pid][o.num := Short(adj[pid][o.num] - o.op)]];
          }
          if vals[o.num] < 0 {
            result := if o.nowait then EAGAIN else 1;
          } else if vals[o.num] > SEMVMX {
            result := ERANGE;
          }
        }
        k := k + 1;
      }
      ResultFirst(s.vals, sops, 0, if result == 0 then k else k - 1);
      if result == 0 && !doUndo {
        PartlyDone(s, pid, sops, vals, adj);
        return;
      }
      var j: int := k - 1;
      while j >= 0
        invariant -1 <= j < |sops| && Partly(s, pid, sops, j + 1, vals, adj)
      {
        var o := sops[j];
        PartlyBack(s, pid, sops, j, vals, adj);
        vals := vals[o.num := vals[o.num] - o.op];
        if o.undo {
          adj := adj[pid := adj[pid][o.num := Short(adj[pid][o.num] + o.op)]];
        }
        j := j - 1;
      }
    }

    /** update_queue: looks for sleeping operations that can be completed. */
    method UpdateQueue()
      requires Ok(State())
      modifies this
      ensures Ok(State()) && State() == Updated(old(State()), 0)
    {
      hide Ok, Result, Done;
      ghost var s := State();
      UpdatedOk(s, 0);
      var i := 0;
      while i < |queue|
        invariant i <= |queue| && Ok(State()) && Updated(State(), i) == Updated(s, 0)
        decreases |queue| - i
      {
        var q := queue[i];
        if q.status == 1 {
          return;
        }
        ghost var s1 := State();
        EntryAt(s1, i);
        StepOk(s1, i);
        var error := TryAtomicSemop(q.pid, q.sops, q.decrease);
        if error <= 0 {
          if error == 0 && q.decrease {
            queue := queue[i := q.(status := 1)];
            return;
          }
          queue := Without(queue, i);
        } else {
          i := i + 1;
        }
      }
    }

    /** sys_semop, up to the point where it sleeps. */
    method Semop(pid: nat, sops: seq<Op>) returns (error: int)
      requires Ok(State()) && !Sleeping(State(), pid)
      modifies this
      ensures error == EINVAL <==> sops == []
      ensures error == E2BIG <==> |sops| > SEMOPM
      ensures error == EFBIG <==> 1 <= |sops| <= SEMOPM && !OpsOk(sops, |old(vals)|)
      ensures error in {EINVAL, E2BIG, EFBIG} ==> State() == old(State())
      ensures 1 <= |sops| <= SEMOPM && OpsOk(sops, |old(vals)|) ==>
        error == Result(old(vals), sops) && State() == Next(old(State()), SemRuns.Semop(pid, sops))
    {
      if sops == [] {
        return EINVAL;
      }
      if |sops| > SEMOPM {
        return E2BIG;
      }
      var i := 0;
      while i < |sops|
        invariant 0 <= i <= |sops| && forall k :: 0 <= k < i ==> sops[k].num < |vals|
      {
        if sops[i].num >= |vals| {
          return EFBIG;
        }
        i := i + 1;
      }
      error := SemopChecked(pid, sops);
      ResultRange(old(vals), sops, 0);
    }

    /** The rest of sys_semop, up to the point where it sleeps. */
    method SemopChecked(pid: nat, sops: seq<Op>) returns (error: int)
      requires Ok(State()) && Enabled(State(), SemRuns.Semop(pid, sops))
      modifies this
      ensures error == Result(old(vals), sops) && State() == Next(old(State()), SemRuns.Semop(pid, sops))
    {
      hide Ok, Result, Done, Updated;
      WithUndoOk(State(), pid, sops);
      AttemptedOk(WithUndo(State(), pid, sops), pid, sops);
      if HasUndo(sops) && pid !in adj {
        adj := adj[pid := Zeroes(|vals|)];
      }
      error := TryAtomicSemop(pid, sops, false);
      if error > 0 {
        var q := Pending(pid, sops, Decreases(sops), EINTR);
        queue := if Alters(sops) then queue + [q] else [q] + queue;
        return;
      }
      if Alters(sops) {
        UpdateQueue();
      }
    }

    /** sys_semop, when the process at j in the queue has woken up: again if told to retry. */
    method Wake(j: nat) returns (error: int)
      requires Ok(State()) && j < |queue|
      modifies this
      ensures State() == AfterWake(old(State()), j, old(queue[j]).status == 1)
      ensures old(queue[j]).status == 1 ==>
        OpsOk(old(queue[j]).sops, |old(vals)|) && error == Result(old(vals), old(queue[j]).sops)
    {
      hide Ok, Result, Done, Updated;
      var q := queue[j];
      EntryAt(State(), j);
      AttemptedOk(State(), q.pid, q.sops);
      error := q.status;
      if q.status == 1 {
        error := TryAtomicSemop(q.pid, q.sops, false);
        if error > 0 {
          queue := queue[j := q.(status := EINTR)];
          return;
        }
      }
      FewerOk(State(), j);
      queue := Without(queue, j);
      if Alters(q.sops) {
        UpdateQueue();
      }
    }

    /** Where in the queue the process sleeps. */
    method Find(pid: nat) returns (j: nat)
      requires Ok(State())
      ensures j <= |queue| && (j < |queue| ==> Sleeping(State(), pid) && j == Place(State(), pid))
      ensures j == |queue| ==> !Sleeping(State(), pid)
    {
      j := 0;
      while j < |queue|
        invariant j <= |queue| && forall k :: 0 <= k < j ==> queue[k].pid != pid
      {
        if queue[j].pid == pid {
          assert At(State(), j, pid);
          return;
        }
        j := j + 1;
      }
    }

    /** sem_exit, for this set. */
    method Exit(pid: nat)
      requires Ok(State())
      modifies this
      ensures Ok(State()) && State() == Next(old(State()), SemRuns.Exit(pid))
    {
      hide Updated;
      ghost var s := State();
      ExitOk(s, pid);
      var j := Find(pid);
      if j < |queue| {
        queue := Without(queue, j);
      }
      if pid in adj {
        var a := adj[pid];
        adj := adj - {pid};
        var i := 0;
        while i < |vals|
          invariant 0 <= i <= |vals| == |s.vals| && adj == s.adj - {pid} && queue == Left(s, pid).queue
          invariant forall k :: 0 <= k < |vals| ==> vals[k] == if k < i then Max0(s.vals[k] + a[k]) else s.vals[k]
        {
          vals := vals[i := vals[i] + a[i]];
          if vals[i] < 0 {
            vals := vals[i := 0];
          }
          i := i + 1;
        }
        assert vals == Adjusted(s.vals, a);
        UpdateQueue();
      }
    }

    /** semctl with SETVAL. */
    method SetVal(num: nat, val: int) returns (error: int)
      requires Ok(State())
      modifies this
      ensures error == if num >= |old(vals)| then EINVAL else if 0 <= val <= SEMVMX then 0 else ERANGE
      ensures State() == if error == 0 then Next(old(State()), SemRuns.SetVal(num, val)) else old(State())
    {
      hide Updated;
      if num >= |vals| {
        return EINVAL;
      }
      if val > SEMVMX || val < 0 {
        return ERANGE;
      }
      ghost var s := State();
      assert forall u :: u in s.adj ==> AdjOk(s.adj[u], |s.vals|);
      SetOk(s, s.vals[num := val], Cleared(s.adj, num));
      adj := Cleared(adj, num);
      vals := vals[num := val];
      UpdateQueue();
      error := 0;
    }

    /** semctl with SETALL. */
    method SetAll(new_: seq<int>) returns (error: int)
      requires Ok(State()) && |new_| == |vals| && forall i :: 0 <= i < |new_| ==> new_[i] >= 0
      modifies this
      ensures error == 0 <==> forall i :: 0 <= i < |new_| ==> new_[i] <= SEMVMX
      ensures State() == if error == 0 then Next(old(State()), SemRuns.SetAll(new_)) else old(State())
    {
      hide Updated;
      var i := 0;
      while i < |new_|
        invariant 0 <= i <= |new_| && forall k :: 0 <= k < i ==> new_[k] <= SEMVMX
      {
        if new_[i] > SEMVMX {
          return ERANGE;
        }
        i := i + 1;
      }
      ghost var s := State();
      assert forall u :: u in s.adj ==> AdjOk(s.adj[u], |s.vals|);
      SetOk(s, new_, AllCleared(s.adj));
      vals := new_;
      adj := AllCleared(adj);
      UpdateQueue();
      error := 0;
    }
  }

  lemma {:induction false} ResultRange(vals: seq<int>, sops: seq<Op>, k: nat)
    requires k <= |sops| && OpsOk(sops, |vals|)
    ensures ResultFrom(vals, sops, k) in {0, 1, EAGAIN, ERANGE}
    decreases |sops| - k
  {
    if k < |sops| {
      ResultRange(vals, sops, k + 1);
    }
  }

  lemma OpOutcome(vals: seq<int>, sops: seq<Op>, k: nat, v: int)
    requires k < |sops| && OpsOk(sops, |vals|) && v == vals[sops[k].num] + Sum(sops, sops[k].num, k)
    ensures var o := sops[k];
      && (OpOk(vals, sops, k) <==> (o.op == 0 ==> v == 0) && 0 <= v + o.op <= SEMVMX)
      && Verdict(vals, sops, k) == if (o.op == 0 && v != 0) || v + o.op < 0 then (if o.nowait then EAGAIN else 1)
        else ERANGE
  {
  }

  lemma PartlyDone(s: Sems, pid: nat, sops: seq<Op>, vals: seq<int>, adj: map<nat, seq<int>>)
    requires Partly(s, pid, sops, |sops|, vals, adj)
    ensures s.(vals := vals, adj := adj) == Done(s, pid, sops)
  {
  }

  lemma EntryAt(s: Sems, i: nat)
    requires Ok(s) && i < |s.queue|
    ensures EntryOk(s, s.queue[i])
  {
  }
}
