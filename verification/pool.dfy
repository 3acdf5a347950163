/**
  The worker pool (Pool/pool.go) as a slot table: one busy flag per worker,
  the number of dispatched tasks each worker still has outstanding, and the
  enabled flag. Dispatching goroutines and the wait group are replaced by
  the outstanding counts and an explicit `Finish` step for one task of a
  worker completing, which stands for the deferred reset in a task's
  goroutine.
 */
module WorkerPool {
  import opened Values

  /** A zero-argument task, by identity. */
  type Task = nat

  /** The slot table: `busy[i]` is worker `i`'s assigned flag, `pending[i]`
      how many tasks dispatched to it have not finished. */
  datatype Pool = Pool(busy: seq<bool>, pending: seq<nat>, live: bool) {
    predicate Wf() {
      |busy| == |pending|
    }
  }

  /** `New`: no pool for a capacity of zero or less; otherwise `cap` idle
      workers and an enabled pool. */
  function New(cap: int): (r: Option<Pool>)
    ensures cap <= 0 <==> r.None?
    ensures r.Some? ==> var p := r.value;
      && p.Wf() && p.live && |p.busy| == cap
      && (forall i :: 0 <= i < cap ==> !p.busy[i] && p.pending[i] == 0)
  {
    if cap <= 0 then None
    else Some(Pool(seq(cap, _ => false), seq(cap, _ => 0), true))
  }

  /** The lowest-index idle worker, as `Assign`'s scan finds it. */
  function FirstIdle(busy: seq<bool>): (r: Option<nat>)
    ensures r.None? <==> forall i :: 0 <= i < |busy| ==> busy[i]
    ensures r.Some? ==> r.value < |busy| && !busy[r.value]
                        && forall i :: 0 <= i < r.value ==> busy[i]
  {
    if |busy| == 0 then None
    else if !busy[0] then Some(0)
    else match FirstIdle(busy[1..])
      case None => None
      case Some(i) => Some(i + 1)
  }

  /** `Assign`: a disabled pool or a pool with no idle worker drops the
      tasks; otherwise the first idle worker is marked assigned and all the
      tasks are dispatched to it. */
  function Assign(p: Pool, fs: seq<Task>): (r: Pool)
    requires p.Wf()
    ensures r.Wf() && |r.busy| == |p.busy| && r.live == p.live
  {
    if !p.live then p
    else match FirstIdle(p.busy)
      case None => p
      case Some(i) => p.(busy := p.busy[i := true], pending := p.pending[i := p.pending[i] + |fs|])
  }

  /** One task dispatched to worker `i` finishes, and its deferred reset
      clears the worker's flag, even when other tasks of the worker are still
      running. A worker with nothing outstanding has no task to finish. */
  function Finish(p: Pool, i: int): (r: Pool)
    requires p.Wf()
    ensures r.Wf() && |r.busy| == |p.busy| && r.live == p.live
  {
    if 0 <= i < |p.busy| && p.pending[i] > 0
    then p.(busy := p.busy[i := false], pending := p.pending[i := p.pending[i] - 1])
    else p
  }

  /** `Trigger`: an enabled pool is disabled and a disabled one enabled; the
      workers are untouched. */
  function Trigger(p: Pool): (r: Pool)
    ensures r.live != p.live
    ensures r.busy == p.busy && r.pending == p.pending
  {
    if p.live then p.(live := false) else p.(live := true)
  }

  /** `Len`: the number of workers. */
  function Len(p: Pool): (n: nat)
    ensures n == |p.busy|
  {
    |p.busy|
  }

  /** The number of assigned workers, counted from the front. */
  function CountBusy(s: seq<bool>): nat
  {
    if |s| == 0 then 0 else CountBusy(s[..|s| - 1]) + (if s[|s| - 1] then 1 else 0)
  }

  /** `Now`: counts the assigned workers in one scan. Despite the interface
      comment, which speaks of idle workers, it is the busy ones it counts. */
  method Now(p: Pool) returns (count: int)
    ensures count == |set i | 0 <= i < |p.busy| && p.busy[i]|
    ensures 0 <= count <= Len(p)
  {
    count := 0;
    var k := 0;
    while k < |p.busy|
      invariant 0 <= k <= |p.busy|
      invariant count == CountBusy(p.busy[..k])
    {
      assert p.busy[..k + 1][..k] == p.busy[..k];
      if p.busy[k] {
        count := count + 1;
      }
      k := k + 1;
    }
    assert p.busy[..k] == p.busy;
    CountBusyIsSetSize(p.busy);
  }

  /** Counting from the front agrees with the size of the set of busy
      positions, which is at most the number of workers. */
  lemma {:induction false} CountBusyIsSetSize(s: seq<bool>)
    ensures CountBusy(s) == |set i | 0 <= i < |s| && s[i]|
    ensures CountBusy(s) <= |s|
    decreases |s|
  {
    if |s| > 0 {
      var t := s[..|s| - 1];
      CountBusyIsSetSize(t);
      var st := set i | 0 <= i < |t| && t[i];
      var ss := set i | 0 <= i < |s| && s[i];
      assert ss == st + (if s[|s| - 1] then {|s| - 1} else {}) by {
        forall i | i in ss ensures i in st + (if s[|s| - 1] then {|s| - 1} else {}) {
          if i < |t| { assert t[i] == s[i]; }
        }
        forall i | i in st ensures i in ss {
          assert t[i] == s[i];
        }
      }
      assert |s| - 1 !in st;
    }
  }

  /** Flipping one flag of `s` changes the count by exactly one. */
  lemma {:induction false} CountBusyUpdate(s: seq<bool>, i: nat, b: bool)
    requires i < |s|
    ensures CountBusy(s[i := b]) == CountBusy(s) - (if s[i] then 1 else 0) + (if b then 1 else 0)
    decreases |s|
  {
    var n := |s| - 1;
    if i < n {
      assert s[i := b][..n] == s[..n][i := b];
      CountBusyUpdate(s[..n], i, b);
    } else {
      assert s[i := b][..n] == s[..n];
    }
  }

  /** One step a pool can take: an `Assign` call, a finishing task, or a
      `Trigger` call. */
  datatype Action = AssignA(fs: seq<Task>) | FinishA(i: int) | TriggerA

  function Step(p: Pool, a: Action): (r: Pool)
    requires p.Wf()
    ensures r.Wf()
  {
    match a
    case AssignA(fs) => Assign(p, fs)
    case FinishA(i) => Finish(p, i)
    case TriggerA => Trigger(p)
  }

  function Steps(p: Pool, acts: seq<Action>): (r: Pool)
    requires p.Wf()
    ensures r.Wf()
    decreases |acts|
  {
    if |acts| == 0 then p else Steps(Step(p, acts[0]), acts[1..])
  }

  /** `Assign` on an enabled pool marks exactly the lowest idle worker busy,
      adds every given task to its outstanding ones and leaves every other worker
      as it was; the busy count grows by one. With no idle worker, or on a
      disabled pool, nothing changes. */
  lemma AssignFirstFit(p: Pool, fs: seq<Task>)
    requires p.Wf()
    ensures !p.live || FirstIdle(p.busy).None? ==> Assign(p, fs) == p
    ensures p.live && FirstIdle(p.busy).Some? ==>
      var i := FirstIdle(p.busy).value;
      var r := Assign(p, fs);
      && !p.busy[i] && r.busy[i] && r.pending[i] == p.pending[i] + |fs|
      && (forall j :: 0 <= j < i ==> p.busy[j])
      && (forall j :: 0 <= j < |p.busy| && j != i ==> r.busy[j] == p.busy[j] && r.pending[j] == p.pending[j])
      && CountBusy(r.busy) == CountBusy(p.busy) + 1
  {
    if p.live && FirstIdle(p.busy).Some? {
      CountBusyUpdate(p.busy, FirstIdle(p.busy).value, true);
    }
  }

  /** A finishing task frees its worker, whatever else is outstanding there. */
  lemma FinishFrees(p: Pool, i: int)
    requires p.Wf() && 0 <= i < |p.busy| && p.pending[i] > 0
    ensures !Finish(p, i).busy[i] && Finish(p, i).pending[i] == p.pending[i] - 1
    ensures CountBusy(Finish(p, i).busy) == CountBusy(p.busy) - (if p.busy[i] then 1 else 0)
  {
    CountBusyUpdate(p.busy, i, false);
  }

  /** Two `Trigger`s in a row restore the pool. */
  lemma TriggerTwice(p: Pool)
    ensures Trigger(Trigger(p)) == p
  {
  }

  /** No step changes the number of workers. */
  lemma {:induction false} LenInvariant(p: Pool, acts: seq<Action>)
    requires p.Wf()
    ensures Len(Steps(p, acts)) == Len(p)
    decreases |acts|
  {
    if |acts| > 0 {
      LenInvariant(Step(p, acts[0]), acts[1..]);
    }
  }

  /** A worker marked assigned with no outstanding task can never be freed:
      later `Assign`s skip it, no task of it can finish and `Trigger` does
      not touch the workers. */
  lemma {:induction false} StuckStaysStuck(p: Pool, acts: seq<Action>, j: nat)
    requires p.Wf() && j < |p.busy| && p.busy[j] && p.pending[j] == 0
    ensures j < |Steps(p, acts).busy| && Steps(p, acts).busy[j] && Steps(p, acts).pending[j] == 0
    decreases |acts|
  {
    if |acts| > 0 {
      var q := Step(p, acts[0]);
      if acts[0].AssignA? && p.live && FirstIdle(p.busy).Some? {
        assert FirstIdle(p.busy).value != j;
      }
      assert q.busy[j] && q.pending[j] == 0;
      StuckStaysStuck(q, acts[1..], j);
    }
  }

  /** `Assign` with no tasks on an enabled pool marks a worker busy that no
      later step frees. */
  lemma EmptyAssignSticks(p: Pool, acts: seq<Action>)
    requires p.Wf() && p.live
    requires FirstIdle(p.busy).Some? && p.pending[FirstIdle(p.busy).value] == 0
    ensures
      var j := FirstIdle(p.busy).value;
      var q := Steps(Assign(p, []), acts);
      && j < |q.busy| && q.busy[j]
  {
    StuckStaysStuck(Assign(p, []), acts, FirstIdle(p.busy).value);
  }
}
