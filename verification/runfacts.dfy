/**
  What the synchronous `Run` does, pattern by pattern: how many passes,
  where the cancel checks and sleeps fall, what the mailbox holds after
  the run and which error it returns.
 */
module RunFacts {
  import opened Values
  import opened Delegator
  import opened RunLoop

  /** A pass from `i` dispatches delays and calls only. */
  lemma {:induction false} PassFromDispatchOnly(e: Engine, i: nat)
    requires e.Wf() && i <= |e.fs|
    ensures forall ev :: ev in PassFrom(e, i) ==> ev.Sleep? || ev.Call?
    decreases |e.fs| - i
  {
    if i < |e.fs| {
      PassFromDispatchOnly(e, i + 1);
    }
  }

  /** A pass that never checks for cancellation, publishes, drains or makes
      a pattern-level pause. */
  predicate Quiet(p: PassOut) {
    multiset(p.dispatch)[CancelCheck] == 0
    && multiset(p.dispatch)[Publish] == 0
    && multiset(p.dispatch)[Drain] == 0
    && forall ev :: ev in p.dispatch ==> !ev.Pause?
  }

  /** The engine's pass is quiet. */
  lemma PassIsQuiet(e: Engine)
    requires e.Wf()
    ensures Quiet(OnePass(e))
  {
    PassFromDispatchOnly(e, 0);
    assert CancelCheck !in PassTrace(e) && Publish !in PassTrace(e) && Drain !in PassTrace(e);
  }

  /** Running `x`, then `prog` if `x` completed. */
  function Then(p: PassOut, x: ExecResult, prog: seq<Instr>, cancel: Option<nat>): ExecResult {
    if x.stop != Completed then x
    else
      var y := Exec(p, prog, x.m, cancel);
      ExecResult(x.trace + y.trace, y.m, y.stop)
  }

  /** Executing a concatenation is executing its parts in turn. */
  lemma {:induction false} ExecAppend(p: PassOut, p1: seq<Instr>, p2: seq<Instr>, m: Machine, cancel: Option<nat>)
    ensures Exec(p, p1 + p2, m, cancel) == Then(p, Exec(p, p1, m, cancel), p2, cancel)
    decreases |p1|
  {
    if |p1| == 0 {
      assert p1 + p2 == p2;
      var y := Exec(p, p2, m, cancel);
      assert [] + y.trace == y.trace;
    } else {
      var s := Step(p, p1[0], m, cancel);
      assert (p1 + p2)[0] == p1[0];
      assert (p1 + p2)[1..] == p1[1..] + p2;
      if s.stop == Completed {
        ExecAppend(p, p1[1..], p2, s.m, cancel);
        var a := Exec(p, p1[1..], s.m, cancel);
        var whole := Exec(p, p1[1..] + p2, s.m, cancel);
        assert Exec(p, p1 + p2, m, cancel) == ExecResult(s.trace + whole.trace, whole.m, whole.stop);
        assert Exec(p, p1, m, cancel) == ExecResult(s.trace + a.trace, a.m, a.stop);
        if a.stop == Completed {
          var y := Exec(p, p2, a.m, cancel);
          assert s.trace + (a.trace + y.trace) == (s.trace + a.trace) + y.trace;
        }
      }
    }
  }

  /** Executing `[ins] + prog` is one step, then `prog`. */
  lemma ExecCons(p: PassOut, ins: Instr, prog: seq<Instr>, m: Machine, cancel: Option<nat>)
    ensures Exec(p, [ins] + prog, m, cancel) == Then(p, Step(p, ins, m, cancel), prog, cancel)
  {
    assert ([ins] + prog)[0] == ins;
    assert ([ins] + prog)[1..] == prog;
  }

  /** A single instruction. */
  lemma ExecOne(p: PassOut, ins: Instr, m: Machine, cancel: Option<nat>)
    ensures Exec(p, [ins], m, cancel) == Step(p, ins, m, cancel)
  {
    ExecCons(p, ins, [], m, cancel);
    assert [ins] + [] == [ins];
    assert Step(p, ins, m, cancel).trace + [] == Step(p, ins, m, cancel).trace;
  }

  /** A run whose pattern has a finite program is that program's execution. */
  lemma SyncFinite(e: Engine, cancel: Option<nat>, prog: seq<Instr>)
    requires e.Wf() && e.err.None? && SyncPlan(e.ptn) == Finite(prog)
    ensures SyncRun(e, cancel) == Finish(e, Exec(OnePass(e), prog, Machine(e.mailbox, e.err, 0), cancel))
  {
  }

  /** The passes a bounded `Cycle` of count `n` makes under the oracle `cancel`. */
  function CyclePasses(n: int, cancel: Option<nat>): nat {
    var total := if n > 0 then n else 0;
    if cancel.Some? && cancel.value < total then cancel.value else total
  }

  /** The oracle cancels a bounded `Cycle` of count `n` before it ends. */
  predicate CycleCut(n: int, cancel: Option<nat>) {
    cancel.Some? && cancel.value < n
  }

  /** What one iteration of the bounded `Cycle` loop records when its check
      does not observe the cancel. */
  function CycleIterTrace(p: PassOut, i: nat): seq<Event> {
    (if i != 0 then [CancelCheck, Drain] else [CancelCheck]) + p.dispatch + [Publish]
  }

  /** An iteration checks once, publishes once, and drains unless it is the first. */
  lemma CycleIterCounts(p: PassOut, i: nat)
    requires Quiet(p)
    ensures multiset(CycleIterTrace(p, i))[Publish] == 1
    ensures multiset(CycleIterTrace(p, i))[CancelCheck] == 1
    ensures multiset(CycleIterTrace(p, i))[Drain] == (if i != 0 then 1 else 0)
  {
    var head: seq<Event> := if i != 0 then [CancelCheck, Drain] else [CancelCheck];
    assert multiset(CycleIterTrace(p, i)) == multiset(head) + multiset(p.dispatch) + multiset([Publish]);
  }

  /** One uncancelled iteration of the bounded `Cycle` loop. */
  lemma CycleIter(p: PassOut, i: nat, n: int, m: Machine, cancel: Option<nat>)
    requires i < n && m.checks == i && cancel != Some(i)
    requires i == 0 ==> m.mailbox.None?
    requires i > 0 ==> m.mailbox.Some?
    ensures
      var y := Exec(p, CycleProg(i + 1, n), Machine(Some(p.ret), m.err, i + 1), cancel);
      Exec(p, CycleProg(i, n), m, cancel) == ExecResult(CycleIterTrace(p, i) + y.trace, y.m, y.stop)
  {
    var head := [ICheck] + (if i != 0 then [IDrain] else []) + [IPass];
    ExecAppend(p, head, CycleProg(i + 1, n), m, cancel);
    CycleHead(p, i, m, cancel);
  }

  /** The check, drain and pass that open an iteration of the bounded loop. */
  lemma CycleHead(p: PassOut, i: nat, m: Machine, cancel: Option<nat>)
    requires m.checks == i && cancel != Some(i)
    requires i == 0 ==> m.mailbox.None?
    requires i > 0 ==> m.mailbox.Some?
    ensures Exec(p, [ICheck] + (if i != 0 then [IDrain] else []) + [IPass], m, cancel)
         == ExecResult(CycleIterTrace(p, i), Machine(Some(p.ret), m.err, i + 1), Completed)
  {
    var m1 := m.(checks := i + 1);
    var m2 := m1.(mailbox := None);
    if i == 0 {
      assert [ICheck] + [] + [IPass] == [ICheck] + [IPass];
      ExecCons(p, ICheck, [IPass], m, cancel);
      ExecOne(p, IPass, m2, cancel);
    } else {
      assert [ICheck] + [IDrain] + [IPass] == [ICheck] + ([IDrain] + [IPass]);
      ExecCons(p, ICheck, [IDrain] + [IPass], m, cancel);
      ExecCons(p, IDrain, [IPass], m1, cancel);
      ExecOne(p, IPass, m2, cancel);
      assert [CancelCheck] + ([Drain] + (p.dispatch + [Publish])) == CycleIterTrace(p, i);
    }
  }

  /** A check that observes the cancel ends the bounded `Cycle` loop at once. */
  lemma CycleCancelled(p: PassOut, i: nat, n: int, m: Machine)
    requires i < n && m.checks == i
    ensures Exec(p, CycleProg(i, n), m, Some(i)) == ExecResult([CancelCheck], m, CancelSeen)
  {
    var tail := CycleProg(i, n)[1..];
    assert CycleProg(i, n) == [ICheck] + tail;
    ExecCons(p, ICheck, tail, m, Some(i));
  }

  /** Where the bounded `Cycle` loop from iteration `i` on stops, and the
      state it leaves. */
  lemma {:induction false} CycleLoopState(p: PassOut, i: nat, n: int, m: Machine, cancel: Option<nat>)
    requires m.checks == i
    requires i == 0 || i <= n
    requires cancel.Some? ==> cancel.value >= i
    requires i == 0 ==> m.mailbox.None?
    requires i > 0 ==> m.mailbox == Some(p.ret)
    ensures CyclePasses(n, cancel) >= i
    ensures
      var x := Exec(p, CycleProg(i, n), m, cancel);
      && x.stop == (if CycleCut(n, cancel) then CancelSeen else Completed)
      && x.m.mailbox == (if CyclePasses(n, cancel) > i then Some(p.ret) else m.mailbox)
      && x.m.err == m.err
    decreases n - i
  {
    if i < n {
      if cancel == Some(i) {
        CycleCancelled(p, i, n, m);
      } else {
        CycleIter(p, i, n, m, cancel);
        CycleLoopState(p, i + 1, n, Machine(Some(p.ret), m.err, i + 1), cancel);
      }
    }
  }

  /** The trace of the bounded `Cycle` loop from iteration `i`, when `cut`
      passes run in all and `short` says whether a check then observed the
      cancel. */
  function CycleTraceFrom(p: PassOut, i: nat, cut: nat, short: bool): seq<Event>
    decreases cut - i
  {
    if i >= cut then (if short then [CancelCheck] else [])
    else CycleIterTrace(p, i) + CycleTraceFrom(p, i + 1, cut, short)
  }

  /** The bounded `Cycle` loop from iteration `i` on records its iterations,
      then the observing check if it was cancelled. */
  lemma {:induction false} CycleLoopTrace(p: PassOut, i: nat, n: int, m: Machine, cancel: Option<nat>)
    requires m.checks == i
    requires i == 0 || i <= n
    requires cancel.Some? ==> cancel.value >= i
    requires i == 0 ==> m.mailbox.None?
    requires i > 0 ==> m.mailbox == Some(p.ret)
    ensures Exec(p, CycleProg(i, n), m, cancel).trace
         == CycleTraceFrom(p, i, CyclePasses(n, cancel), CycleCut(n, cancel))
    decreases n - i
  {
    if i < n {
      if cancel == Some(i) {
        CycleCancelled(p, i, n, m);
      } else {
        CycleIter(p, i, n, m, cancel);
        CycleLoopTrace(p, i + 1, n, Machine(Some(p.ret), m.err, i + 1), cancel);
      }
    }
  }

  /** How often the loop's trace from iteration `i` publishes, checks and drains. */
  lemma {:induction false} CycleTraceCounts(p: PassOut, i: nat, cut: nat, short: bool)
    requires Quiet(p) && i <= cut
    ensures
      var t := CycleTraceFrom(p, i, cut, short);
      && multiset(t)[Publish] == cut - i
      && multiset(t)[CancelCheck] == cut - i + (if short then 1 else 0)
      && multiset(t)[Drain] == (if cut > i && i == 0 then cut - 1 else cut - i)
    decreases cut - i
  {
    if i < cut {
      CycleTraceCounts(p, i + 1, cut, short);
      CycleIterCounts(p, i);
      CountsCombine(CycleIterTrace(p, i), CycleTraceFrom(p, i + 1, cut, short), i, cut, short);
    }
  }

  /** The counts of one iteration followed by the rest of the loop. */
  lemma CountsCombine(t: seq<Event>, y: seq<Event>, i: nat, cut: nat, cutShort: bool)
    requires cut >= i + 1
    requires multiset(t)[Publish] == 1 && multiset(t)[CancelCheck] == 1
    requires multiset(t)[Drain] == (if i != 0 then 1 else 0)
    requires multiset(y)[Publish] == cut - (i + 1)
    requires multiset(y)[CancelCheck] == cut - (i + 1) + (if cutShort then 1 else 0)
    requires multiset(y)[Drain] == cut - (i + 1)
    ensures multiset(t + y)[Publish] == cut - i
    ensures multiset(t + y)[CancelCheck] == cut - i + (if cutShort then 1 else 0)
    ensures multiset(t + y)[Drain] == (if i == 0 then cut - 1 else cut - i)
  {
    assert multiset(t + y) == multiset(t) + multiset(y);
  }

  /** The count a bounded `Cycle` uses: an int argument, or 1 for any other. */
  function BoundedCount(e: Engine): int
    requires |e.ptn.args| > 0
  {
    if e.ptn.args[0].IntV? then e.ptn.args[0].i else 1
  }

  /** A bounded `Cycle` from an empty mailbox runs `CyclePasses` iterations,
      returns nil unless a check observed the cancel, and leaves one snapshot
      buffered when any pass ran. */
  lemma CycleRun(e: Engine, cancel: Option<nat>)
    requires e.Wf() && e.err.None? && e.mailbox.None?
    requires e.ptn.code == Cycle && |e.ptn.args| > 0
    ensures
      var n := BoundedCount(e);
      var r := SyncRun(e, cancel);
      var cut := CyclePasses(n, cancel);
      && r.trace == CycleTraceFrom(OnePass(e), 0, cut, CycleCut(n, cancel))
      && r.status == (if CycleCut(n, cancel) then Cancelled else Returned(None))
      && r.engine == e.(mailbox := if cut > 0 then Some(PassReturner(e)) else None)
  {
    var n := BoundedCount(e);
    var p := OnePass(e);
    var m0 := Machine(e.mailbox, e.err, 0);
    assert SyncPlan(e.ptn) == Finite(CycleProg(0, n));
    SyncFinite(e, cancel, CycleProg(0, n));
    CycleLoopState(p, 0, n, m0, cancel);
    CycleLoopTrace(p, 0, n, m0, cancel);
  }

  /** A bounded `Cycle` (an int argument `n`, or a non-int argument meaning 1)
      from an empty mailbox makes `max(n, 0)` passes unless cancelled
      earlier, checks for cancellation before every pass, and drains before
      every pass but the first. */
  lemma CycleRunCounts(e: Engine, cancel: Option<nat>)
    requires e.Wf() && e.err.None? && e.mailbox.None?
    requires e.ptn.code == Cycle && |e.ptn.args| > 0
    ensures
      var t := SyncRun(e, cancel).trace;
      var cut := CyclePasses(BoundedCount(e), cancel);
      && multiset(t)[Publish] == cut
      && multiset(t)[CancelCheck] == cut + (if CycleCut(BoundedCount(e), cancel) then 1 else 0)
      && multiset(t)[Drain] == (if cut > 0 then cut - 1 else 0)
  {
    CycleRun(e, cancel);
    PassIsQuiet(e);
    CycleTraceCounts(OnePass(e), 0, CyclePasses(BoundedCount(e), cancel), CycleCut(BoundedCount(e), cancel));
  }

  /** The period of an unbounded `Cycle`, as recorded. */
  function CyclePeriod(e: Engine): seq<Event>
    requires e.Wf()
  {
    [CancelCheck] + PassTrace(e) + [Publish, Drain]
  }

  /** One period of an unbounded `Cycle` from an empty mailbox, not cancelled. */
  lemma PeriodRun(p: PassOut, m: Machine, cancel: Option<nat>)
    requires m.mailbox.None? && cancel != Some(m.checks)
    ensures Exec(p, [ICheck, IPass, IDrain], m, cancel)
         == ExecResult([CancelCheck] + p.dispatch + [Publish, Drain], m.(checks := m.checks + 1), Completed)
  {
    var m1 := m.(checks := m.checks + 1);
    var m2 := m1.(mailbox := Some(p.ret));
    assert [ICheck, IPass, IDrain] == [ICheck] + ([IPass] + [IDrain]);
    ExecCons(p, ICheck, [IPass] + [IDrain], m, cancel);
    ExecCons(p, IPass, [IDrain], m1, cancel);
    ExecOne(p, IDrain, m2, cancel);
    assert [CancelCheck] + ((p.dispatch + [Publish]) + [Drain]) == [CancelCheck] + p.dispatch + [Publish, Drain];
  }

  /** `k + 1` periods when the check of the last one observes the cancel. */
  lemma {:induction false} RepeatRun(p: PassOut, j: nat, k: nat, err: Option<Error>)
    ensures Exec(p, Repeat([ICheck, IPass, IDrain], k + 1), Machine(None, err, j), Some(j + k))
         == ExecResult(Repeat([CancelCheck] + p.dispatch + [Publish, Drain], k) + [CancelCheck],
                       Machine(None, err, j + k), CancelSeen)
    decreases k
  {
    var period := [ICheck, IPass, IDrain];
    var pt := [CancelCheck] + p.dispatch + [Publish, Drain];
    var m := Machine(None, err, j);
    ExecAppend(p, period, Repeat(period, k), m, Some(j + k));
    if k == 0 {
      ExecCons(p, ICheck, [IPass, IDrain], m, Some(j));
      assert [ICheck] + [IPass, IDrain] == period;
    } else {
      PeriodRun(p, m, Some(j + k));
      RepeatRun(p, j + 1, k - 1, err);
      assert pt + (Repeat(pt, k - 1) + [CancelCheck]) == Repeat(pt, k) + [CancelCheck];
    }
  }

  /** An unbounded `Cycle` (no argument) cancelled at check `k` from an empty
      mailbox: `k` full periods, each draining its own snapshot, then the
      observing check; nothing stays buffered and nil is returned. */
  lemma UnboundedCycleRun(e: Engine, k: nat)
    requires e.Wf() && e.err.None? && e.mailbox.None?
    requires e.ptn.code == Cycle && |e.ptn.args| == 0
    ensures SyncRun(e, Some(k)) == RunOutcome(Repeat(CyclePeriod(e), k) + [CancelCheck], e, Cancelled)
  {
    RepeatRun(OnePass(e), 0, k, None);
  }

  /** An unbounded `Cycle` that is never cancelled does not return. */
  lemma UnboundedCycleDiverges(e: Engine)
    requires e.Wf() && e.err.None? && e.mailbox.None?
    requires e.ptn.code == Cycle && |e.ptn.args| == 0
    ensures SyncRun(e, None) == RunOutcome(CyclePeriod(e), e, Diverges)
  {
    PeriodRun(OnePass(e), Machine(None, None, 0), None);
  }
}
