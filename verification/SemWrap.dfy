/** A run in which an adjustment is cut to sixteen bits, and what is left of it at the end. */
module SemWrap {
  import opened SemSpec
  import opened SemRuns
  import opened SemBalance
  import opened SemWakeups

  /** A set of one semaphore with nobody asleep. */
  function One(val: int, adj: map<nat, seq<int>>): Sems {
    Sems([val], adj, [])
  }

  ghost predicate Single(adj: map<nat, seq<int>>) {
    forall u :: u in adj ==> |adj[u]| == 1 && -32768 <= adj[u][0] < 32768
  }

  lemma OneOk(val: int, adj: map<nat, seq<int>>)
    requires val >= 0 && Single(adj)
    ensures Ok(One(val, adj)) && Updated(One(val, adj), 0) == One(val, adj)
  {
  }

  /** An operation that is to be undone, by a process that may have others to undo already. */
  lemma UndoStep(val: int, adj: map<nat, seq<int>>, pid: nat, op: int, due: int)
    requires val >= 0 && 0 <= val + op <= SEMVMX && op != 0 && Single(adj)
    requires due == Short((if pid in adj then adj[pid][0] else 0) - op)
    ensures StepTo(One(val, adj), Semop(pid, [Op(0, op, true, false)]), One(val + op, adj[pid := [due]]))
  {
    var o := Op(0, op, true, false);
    var s, s' := One(val, adj), One(val + op, adj[pid := [due]]);
    OneOk(val, adj);
    OneOk(val + op, adj[pid := [due]]);
    OneResult(s.vals, o);
    assert [o][0].undo && [o][0].op != 0 && HasUndo([o]) && Alters([o]);
    WithUndoOk(s, pid, [o]);
    var s1 := WithUndo(s, pid, [o]);
    assert Sum([o], 0, 1) == op
      && UndoSum([o], 0, 1) == op by { assert Sum([o], 0, 0) == 0 && UndoSum([o], 0, 0) == 0; }
    assert ValsAfter(s1.vals, [o], 1) == [val + op];
    assert AdjAfter(s1.adj[pid], [o], 1) == [due];
    assert s1.adj[pid := [due]] == adj[pid := [due]];
    assert Done(s1, pid, [o]) == s';
    assert !Sleeping(s, pid);
  }

  lemma ExitStep(val: int, adj: map<nat, seq<int>>, pid: nat)
    requires val >= 0 && pid in adj && Single(adj) && val + adj[pid][0] >= 0
    ensures StepTo(One(val, adj), Exit(pid), One(val + adj[pid][0], adj - {pid}))
  {
    var s := One(val, adj);
    OneOk(val, adj);
    assert !Sleeping(s, pid);
    ExitOk(s, pid);
    OneOk(val + adj[pid][0], adj - {pid});
    assert Adjusted(s.vals, adj[pid]) == [val + adj[pid][0]];
  }

  const STEPS := [Semop(1, [Op(0, 32767, true, false)]), Semop(2, [Op(0, -32767, true, false)]),
                  Semop(1, [Op(0, 2, true, false)]), Exit(1), Exit(2)]

  const STATES := [One(0, map[]), One(32767, map[1 := [-32767]]), One(0, map[1 := [-32767], 2 := [32767]]),
                   One(2, map[1 := [32767], 2 := [32767]]), One(32769, map[2 := [32767]]), One(65536, map[])]

  lemma Steps()
    ensures forall k :: 0 <= k < 5 ==> StepTo(STATES[k], STEPS[k], STATES[k + 1])
  {
    hide StepTo;
    UndoStep(0, map[], 1, 32767, -32767);
    UndoStep(32767, map[1 := [-32767]], 2, -32767, 32767);
    UndoStep(0, map[1 := [-32767], 2 := [32767]], 1, 2, 32767);
    assert map[1 := [-32767]][2 := [32767]] == map[1 := [-32767], 2 := [32767]];
    assert map[1 := [-32767], 2 := [32767]][1 := [32767]] == map[1 := [32767], 2 := [32767]];
    ExitStep(2, map[1 := [32767], 2 := [32767]], 1);
    assert map[1 := [32767], 2 := [32767]] - {1} == map[2 := [32767]];
    ExitStep(32769, map[2 := [32767]], 2);
    assert map[2 := [32767]] - {2} == map[];
  }

  /** Every operation is undone and nothing is cut off at zero; yet when both processes have gone
      the semaphore has not the value it had before they came. The adjustment that was cut is that
      of the third step. */
  lemma Wraps()
    ensures var s := One(0, map[]);
      && Ok(s) && Runnable(s, STEPS) && AllUndoing(s, STEPS) && Run(s, STEPS) == One(65536, map[]) && !AllFit(s, STEPS)
  {
    hide Next, Enabled, Ok, StepTo, AllFit;
    var s := One(0, map[]);
    OneOk(0, map[]);
    Steps();
    RunsTo(STEPS, STATES);
    assert Undoes(STEPS, STATES) by { UndoesAll(); }
    UndoingRun(STEPS, STATES);
    if AllFit(s, STEPS) {
      AllReturned(s, STEPS, 0);
    }
  }

  ghost predicate Undoes(steps: seq<Step>, states: seq<Sems>) {
    |states| == |steps| + 1 && forall k :: 0 <= k < |steps| ==> Undoing(states[k], steps[k])
  }

  lemma UndoesAll()
    ensures Undoes(STEPS, STATES)
  {
  }

  lemma {:induction false} UndoingRun(steps: seq<Step>, states: seq<Sems>)
    requires Undoes(steps, states) && Ok(states[0])
    requires forall k :: 0 <= k < |steps| ==> StepTo(states[k], steps[k], states[k + 1])
    ensures Runnable(states[0], steps) && AllUndoing(states[0], steps)
    decreases |steps|
  {
    hide Next, Enabled, Ok, Undoing;
    RunsTo(steps, states);
    if steps != [] {
      assert StepTo(states[0], steps[0], states[1]) && Undoing(states[0], steps[0]);
      forall k | 0 <= k < |steps| - 1
        ensures StepTo(states[1..][k], steps[1..][k], states[1..][k + 1]) && Undoing(states[1..][k], steps[1..][k])
      {
        assert StepTo(states[k + 1], steps[k + 1], states[k + 2]) && Undoing(states[k + 1], steps[k + 1]);
      }
      UndoingRun(steps[1..], states[1..]);
    }
  }
}
