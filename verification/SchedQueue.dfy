/** The run queue as a ring of tasks through the idle task. */
module SchedQueue {
  import opened Lists
  import opened Rings
  import opened SchedSpec

  /** No task has pointers but those on the queue and the idle task. */
  ghost predicate OnlyThese(run: Wires, queue: seq<nat>) {
    forall p :: p in run.next || p in run.prev ==> p == IDLE || p in queue
  }

  /** The run queue is what next_run leads through from the idle task back to it. */
  ghost predicate RunQueue(run: Wires, queue: seq<nat>) {
    Ring(run, [IDLE] + queue) && OnlyThese(run, queue)
  }

  lemma TailDistinct(x: nat, queue: seq<nat>)
    requires Distinct([x] + queue)
    ensures Distinct(queue) && x !in queue
  {
    var s := [x] + queue;
    assert forall j :: 0 <= j < |queue| ==> queue[j] == s[j + 1];
    forall j | 0 <= j < |queue| ensures queue[j] != x { assert s[0] != s[j + 1]; }
  }

  lemma OnRing(w: Wires, s: seq<nat>, y: nat)
    requires Ring(w, s) && y in s
    ensures y in w.next && w.next[y] in s && y in w.prev && w.prev[y] in s
    ensures |s| > 1 ==> w.next[y] != y && w.prev[y] != y
  {
    var i := IndexOf(s, y);
    assert Wired(w, s[i], Pred(s, i), Succ(s, i));
  }

  /** A task has a pointer to the next one just when it is on the queue. */
  lemma OnQueue(run: Wires, queue: seq<nat>, p: nat)
    requires RunQueue(run, queue) && p != IDLE
    ensures p in run.next <==> p in queue
  {
    hide Ring;
    if p in queue { OnRing(run, [IDLE] + queue, p); }
  }

  lemma QueueFirst(run: Wires, queue: seq<nat>, p: nat)
    requires RunQueue(run, queue) && p != IDLE && p !in queue
    ensures IDLE in run.next && run.next[IDLE] != p && RunQueue(LinkedAfter(run, IDLE, p), [p] + queue)
  {
    hide Ring, LinkedAfter, Same;
    var s := [IDLE] + queue;
    LinkAfterFirst(run, IDLE, queue, p);
    OnRing(run, s, IDLE);
    LinkKeys(run, s, IDLE, p);
    assert [IDLE, p] + queue == [IDLE] + ([p] + queue);
    MoreKeys(run, queue, p, LinkedAfter(run, IDLE, p), [p] + queue);
  }

  lemma MoreKeys(run: Wires, queue: seq<nat>, p: nat, run': Wires, queue': seq<nat>)
    requires OnlyThese(run, queue) && run'.next.Keys == run.next.Keys + {p} && run'.prev.Keys == run.prev.Keys + {p}
    requires p in queue' && forall x :: x in queue ==> x in queue'
    ensures OnlyThese(run', queue')
  {
    forall x | x in run'.next || x in run'.prev ensures x == IDLE || x in queue' {
      assert x in run.next.Keys + {p} || x in run.prev.Keys + {p};
    }
  }

  lemma QueueLast(run: Wires, queue: seq<nat>, p: nat)
    requires RunQueue(run, queue) && p != IDLE && p !in queue
    ensures IDLE in run.prev && run.prev[IDLE] in run.next && run.next[run.prev[IDLE]] == IDLE && run.prev[IDLE] != p
    ensures RunQueue(LinkedAfter(run, run.prev[IDLE], p), queue + [p])
  {
    hide Ring, LinkedAfter, Same;
    var s := [IDLE] + queue;
    LastBeforeFirst(run, s);
    OnRing(run, s, IDLE);
    LinkLastRing(run, s, p);
    LinkKeys(run, s, s[|s| - 1], p);
    assert s + [p] == [IDLE] + (queue + [p]);
    MoreKeys(run, queue, p, LinkedAfter(run, s[|s| - 1], p), queue + [p]);
  }

  lemma QueueLess(run: Wires, queue: seq<nat>, p: nat)
    requires RunQueue(run, queue) && p in queue && p != IDLE
    ensures p in run.next && p in run.prev && run.next[p] != p && run.prev[p] != p
    ensures RunQueue(Unlinked(run, p), Remove(queue, p)) && Distinct(Remove(queue, p))
    ensures |Remove(queue, p)| == |queue| - 1 && forall x :: x in Remove(queue, p) <==> x in queue && x != p
  {
    hide Ring, Unlinked, Same, Distinct;
    var s := [IDLE] + queue;
    UnlinkRing(run, s, p);
    UnlinkKeys(run, s, p);
    OnRing(run, s, p);
    RingDistinct(run, s);
    TailDistinct(IDLE, queue);
    RemoveIs(queue, p);
    assert s[0] == IDLE && s[1..] == queue;
    assert Remove(s, p) == [IDLE] + Remove(queue, p);
    LessKeys(run, queue, p, Unlinked(run, p), Remove(queue, p));
  }

  lemma LessKeys(run: Wires, queue: seq<nat>, p: nat, run': Wires, queue': seq<nat>)
    requires OnlyThese(run, queue) && run'.next.Keys == run.next.Keys - {p} && run'.prev.Keys == run.prev.Keys - {p}
    requires forall x :: x in queue && x != p ==> x in queue'
    ensures OnlyThese(run', queue')
  {
    forall x | x in run'.next || x in run'.prev ensures x == IDLE || x in queue' {
      assert x in run.next.Keys - {p} || x in run.prev.Keys - {p};
    }
  }

  /** Following the pointers goes through the queue. */
  lemma QueueNext(run: Wires, queue: seq<nat>, i: nat)
    requires RunQueue(run, queue) && i <= |queue|
    ensures var p := if i == 0 then IDLE else queue[i - 1];
      p in run.next && run.next[p] == if i < |queue| then queue[i] else IDLE
  {
    var s := [IDLE] + queue;
    assert Wired(run, s[i], Pred(s, i), Succ(s, i));
  }
}
