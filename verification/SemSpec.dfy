/** System V semaphores: what a vector of operations means, and what becomes of the queue of
    sleeping operations. */
module SemSpec {
  const SEMVMX := 32767
  const SEMOPM := 32
  const EINTR := -4
  const E2BIG := -7
  const EAGAIN := -11
  const EINVAL := -22
  const EFBIG := -27
  const ERANGE := -34

  /** A struct sembuf. */
  datatype Op = Op(num: nat, op: int, undo: bool, nowait: bool)

  /** An entry of the pending queue. `decrease` is its alter field; status 1 asks it to retry. */
  datatype Pending = Pending(pid: nat, sops: seq<Op>, decrease: bool, status: int)

  /** A semaphore set: values, the adjustments due when each process exits, and the queue. */
  datatype Sems = Sems(vals: seq<int>, adj: map<nat, seq<int>>, queue: seq<Pending>)

  // ---- Sixteen-bit adjustments

  /** Conversion to a short. */
  function Short(x: int): (r: int)
    ensures -32768 <= r < 32768 && (-32768 <= x < 32768 ==> r == x) && (r - x) % 65536 == 0
  {
    (x + 32768) % 65536 - 32768
  }

  lemma ShortShort(x: int, y: int)
    ensures Short(Short(x) + y) == Short(x + y)
  {
  }

  // ---- A vector of operations

  ghost predicate OpsOk(sops: seq<Op>, n: nat) {
    forall k :: 0 <= k < |sops| ==> sops[k].num < n
  }

  predicate HasUndo(sops: seq<Op>) {
    exists k :: 0 <= k < |sops| && sops[k].undo
  }

  /** What the first k operations add to semaphore i. */
  ghost function Sum(sops: seq<Op>, i: nat, k: nat): int
    requires k <= |sops|
  {
    if k == 0 then 0 else Sum(sops, i, k - 1) + (if sops[k - 1].num == i then sops[k - 1].op else 0)
  }

  /** And what of it is to be undone at exit. */
  ghost function UndoSum(sops: seq<Op>, i: nat, k: nat): int
    requires k <= |sops|
  {
    if k == 0 then 0
      else UndoSum(sops, i, k - 1) + (if sops[k - 1].num == i && sops[k - 1].undo then sops[k - 1].op else 0)
  }

  ghost function ValsAfter(vals: seq<int>, sops: seq<Op>, k: nat): seq<int>
    requires k <= |sops|
  {
    seq(|vals|, i requires 0 <= i < |vals| => vals[i] + Sum(sops, i, k))
  }

  ghost function AdjAfter(adj: seq<int>, sops: seq<Op>, k: nat): seq<int>
    requires k <= |sops|
  {
    seq(|adj|, i requires 0 <= i < |adj| => Short(adj[i] - UndoSum(sops, i, k)))
  }

  /** Operation k can be done after those before it: a wait for zero finds zero, and the value
      stays in range. */
  ghost predicate OpOk(vals: seq<int>, sops: seq<Op>, k: nat)
    requires k < |sops| && OpsOk(sops, |vals|)
  {
    var o := sops[k];
    var v := vals[o.num] + Sum(sops, o.num, k);
    (o.op == 0 ==> v == 0) && 0 <= v + o.op <= SEMVMX
  }

  ghost predicate Succeeds(vals: seq<int>, sops: seq<Op>)
    requires OpsOk(sops, |vals|)
  {
    forall k :: 0 <= k < |sops| ==> OpOk(vals, sops, k)
  }

  /** Whether to sleep, to give up, or to fail is decided by the first operation that cannot
      be done. */
  ghost function Verdict(vals: seq<int>, sops: seq<Op>, k: nat): int
    requires k < |sops| && OpsOk(sops, |vals|)
  {
    var o := sops[k];
    var v := vals[o.num] + Sum(sops, o.num, k);
    if (o.op == 0 && v != 0) || v + o.op < 0 then (if o.nowait then EAGAIN else 1) else ERANGE
  }

  ghost function ResultFrom(vals: seq<int>, sops: seq<Op>, k: nat): int
    requires k <= |sops| && OpsOk(sops, |vals|)
    decreases |sops| - k
  {
    if k == |sops| then 0 else if OpOk(vals, sops, k) then ResultFrom(vals, sops, k + 1) else Verdict(vals, sops, k)
  }

  ghost function Result(vals: seq<int>, sops: seq<Op>): int
    requires OpsOk(sops, |vals|)
  {
    ResultFrom(vals, sops, 0)
  }

  lemma {:induction false} ResultFirst(vals: seq<int>, sops: seq<Op>, j: nat, k: nat)
    requires j <= k <= |sops| && OpsOk(sops, |vals|) && forall m :: j <= m < k ==> OpOk(vals, sops, m)
    ensures ResultFrom(vals, sops, j) == ResultFrom(vals, sops, k)
    decreases k - j
  {
    if j < k {
      ResultFirst(vals, sops, j + 1, k);
    }
  }

  lemma {:induction false} ResultZero(vals: seq<int>, sops: seq<Op>, j: nat)
    requires j <= |sops| && OpsOk(sops, |vals|)
    ensures ResultFrom(vals, sops, j) == 0 <==> forall m :: j <= m < |sops| ==> OpOk(vals, sops, m)
    decreases |sops| - j
  {
    if j < |sops| {
      ResultZero(vals, sops, j + 1);
    }
  }

  /** Zero means all of them can be done. */
  lemma ZeroIsSuccess(vals: seq<int>, sops: seq<Op>)
    requires OpsOk(sops, |vals|)
    ensures Result(vals, sops) == 0 <==> Succeeds(vals, sops)
  {
    ResultZero(vals, sops, 0);
  }

  /** Otherwise it is the first operation that cannot be done that says why: it would have to wait,
      which it may or may not, or the value would be too large. */
  lemma FirstFailure(vals: seq<int>, sops: seq<Op>, k: nat)
    requires OpsOk(sops, |vals|) && k < |sops| && (forall m :: 0 <= m < k ==> OpOk(vals, sops, m))
    requires !OpOk(vals, sops, k)
    ensures var v := vals[sops[k].num] + Sum(sops, sops[k].num, k);
      && (v + sops[k].op > SEMVMX && (sops[k].op == 0 ==> v == 0) ==> Result(vals, sops) == ERANGE)
      && (v + sops[k].op < 0 || (sops[k].op == 0 && v != 0) ==>
        Result(vals, sops) == if sops[k].nowait then EAGAIN else 1)
  {
    ResultFirst(vals, sops, 0, k);
  }

  lemma {:induction false} SumNothing(sops: seq<Op>, i: nat, k: nat)
    requires k <= |sops| && forall j :: 0 <= j < k ==> sops[j].op == 0
    ensures Sum(sops, i, k) == 0 && UndoSum(sops, i, k) == 0
  {
    if k > 0 {
      SumNothing(sops, i, k - 1);
    }
  }

  // ---- The state

  ghost predicate EntryOk(s: Sems, q: Pending) {
    OpsOk(q.sops, |s.vals|) && (HasUndo(q.sops) ==> q.pid in s.adj)
      && (q.decrease <==> exists k :: 0 <= k < |q.sops| && q.sops[k].op < 0)
  }

  ghost predicate AdjOk(adj: seq<int>, n: nat) {
    |adj| == n && forall i :: 0 <= i < n ==> -32768 <= adj[i] < 32768
  }

  ghost predicate Ok(s: Sems) {
    && (forall i :: 0 <= i < |s.vals| ==> s.vals[i] >= 0)
    && (forall u :: u in s.adj ==> AdjOk(s.adj[u], |s.vals|))
    && (forall j :: 0 <= j < |s.queue| ==> EntryOk(s, s.queue[j]))
    && (forall j, k :: 0 <= j < k < |s.queue| ==> s.queue[j].pid != s.queue[k].pid)
  }

  /** All the operations done at once. */
  ghost function Done(s: Sems, pid: nat, sops: seq<Op>): Sems {
    s.(vals := ValsAfter(s.vals, sops, |sops|), adj := if pid in s.adj && HasUndo(sops)
      then s.adj[pid := AdjAfter(s.adj[pid], sops, |sops|)] else s.adj)
  }

  function Without(queue: seq<Pending>, i: nat): seq<Pending>
    requires i < |queue|
  {
    queue[..i] + queue[i + 1..]
  }

  /** update_queue, from entry i on. */
  ghost function Updated(s: Sems, i: nat): Sems
    requires Ok(s) && i <= |s.queue|
    decreases |s.queue| - i
  {
    if i == |s.queue| || s.queue[i].status == 1 then s
    else
      var q := s.queue[i];
      var r := Result(s.vals, q.sops);
      if r > 0 then Updated(s, i + 1)
      else if r == 0 && q.decrease then s.(queue := s.queue[i := q.(status := 1)])
      else
        var s' := if r == 0 then Done(s, q.pid, q.sops) else s;
        StepOk(s, i);
        Updated(s'.(queue := Without(s.queue, i)), i)
  }

  lemma DoneVals(vals: seq<int>, sops: seq<Op>, i: nat, k: nat)
    requires OpsOk(sops, |vals|) && Succeeds(vals, sops) && k <= |sops| && i < |vals| && vals[i] >= 0
    ensures ValsAfter(vals, sops, k)[i] >= 0
    decreases k
  {
    if k > 0 {
      DoneVals(vals, sops, i, k - 1);
      assert OpOk(vals, sops, k - 1);
    }
  }

  lemma DoneOk(s: Sems, pid: nat, sops: seq<Op>)
    requires Ok(s) && OpsOk(sops, |s.vals|) && Result(s.vals, sops) == 0 && (HasUndo(sops) ==> pid in s.adj)
    ensures Ok(Done(s, pid, sops))
  {
    ZeroIsSuccess(s.vals, sops);
    var s' := Done(s, pid, sops);
    forall i | 0 <= i < |s'.vals| ensures s'.vals[i] >= 0 { DoneVals(s.vals, sops, i, |sops|); }
    forall j | 0 <= j < |s'.queue| ensures EntryOk(s', s'.queue[j]) { assert EntryOk(s, s.queue[j]); }
  }

  lemma FewerOk(s: Sems, i: nat)
    requires Ok(s) && i < |s.queue|
    ensures Ok(s.(queue := Without(s.queue, i)))
  {
    var s' := s.(queue := Without(s.queue, i));
    forall j | 0 <= j < |s'.queue| ensures EntryOk(s', s'.queue[j]) {
      assert EntryOk(s, s.queue[if j < i then j else j + 1]);
    }
  }

  lemma StepOk(s: Sems, i: nat)
    requires Ok(s) && i < |s.queue|
    ensures Ok(s.(queue := Without(s.queue, i)))
    ensures var q := s.queue[i];
      && OpsOk(q.sops, |s.vals|)
      && (Result(s.vals, q.sops) == 0 ==> Ok(Done(s, q.pid, q.sops).(queue := Without(s.queue, i))))
  {
    var q := s.queue[i];
    assert EntryOk(s, q);
    FewerOk(s, i);
    if Result(s.vals, q.sops) == 0 {
      DoneOk(s, q.pid, q.sops);
      FewerOk(Done(s, q.pid, q.sops), i);
    }
  }

  lemma {:induction false} UpdatedOk(s: Sems, i: nat)
    requires Ok(s) && i <= |s.queue|
    ensures Ok(Updated(s, i))
    decreases |s.queue| - i
  {
    if i < |s.queue| && s.queue[i].status != 1 {
      var q := s.queue[i];
      assert EntryOk(s, q);
      var r := Result(s.vals, q.sops);
      if r > 0 {
        UpdatedOk(s, i + 1);
      } else if r == 0 && q.decrease {
        var s' := s.(queue := s.queue[i := q.(status := 1)]);
        forall j | 0 <= j < |s'.queue| ensures EntryOk(s', s'.queue[j]) { assert EntryOk(s, s.queue[j]); }
      } else {
        StepOk(s, i);
        UpdatedOk((if r == 0 then Done(s, q.pid, q.sops) else s).(queue := Without(s.queue, i)), i);
      }
    }
  }
}
