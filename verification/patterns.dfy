/**
  What the synchronous `Run` does for the Normal, TimeOut and Tick patterns,
  for pattern codes that match no case, and how a latched fault interacts
  with the snapshot a run leaves behind.
 */
module RunPatterns {
  import opened Values
  import opened Delegator
  import opened RunLoop
  import opened RunFacts

  /** A program without cancel checks does not consult the oracle. */
  predicate CheckFree(prog: seq<Instr>) {
    forall k :: 0 <= k < |prog| ==> !prog[k].ICheck?
  }

  /** Executing a check-free program is the same under every oracle. */
  lemma {:induction false} CheckFreeOblivious(p: PassOut, prog: seq<Instr>, m: Machine, c1: Option<nat>, c2: Option<nat>)
    requires CheckFree(prog)
    ensures Exec(p, prog, m, c1) == Exec(p, prog, m, c2)
    decreases |prog|
  {
    if |prog| > 0 {
      assert !prog[0].ICheck?;
      var s := Step(p, prog[0], m, c1);
      assert s == Step(p, prog[0], m, c2);
      assert CheckFree(prog[1..]) by {
        forall k | 0 <= k < |prog[1..]| ensures !prog[1..][k].ICheck? {
          assert prog[1..][k] == prog[k + 1];
        }
      }
      CheckFreeOblivious(p, prog[1..], s.m, c1, c2);
    }
  }

  /** The valid `Tick` loop has no cancel checks. */
  lemma {:induction false} TickProgCheckFree(i: nat, n: int, t: int)
    ensures CheckFree(TickProg(i, n, t))
    decreases n - i
  {
    if i < n {
      TickProgCheckFree(i + 1, n, t);
      var head: seq<Instr> := [IPass, IDrain] + (if i != n - 1 then [ISleep(t)] else []);
      var rest := TickProg(i + 1, n, t);
      assert TickProg(i, n, t) == head + rest;
      forall k | 0 <= k < |head + rest| ensures !(head + rest)[k].ICheck? {
        if k >= |head| {
          assert (head + rest)[k] == rest[k - |head|];
        }
      }
    }
  }

  /** The patterns that check for cancellation once, at entry. */
  predicate ChecksOnce(code: int) {
    code == Normal || code == TimeOut || code == Tick
  }

  /** The programs of the Normal, TimeOut and Tick patterns: one check, then
      nothing that consults the oracle. */
  lemma EntryCheckPlan(ptn: Pattern)
    requires ChecksOnce(ptn.code)
    ensures SyncPlan(ptn).Finite?
    ensures |SyncPlan(ptn).prog| > 0 && SyncPlan(ptn).prog[0] == ICheck
    ensures CheckFree(SyncPlan(ptn).prog[1..])
  {
    var prog := SyncPlan(ptn).prog;
    if ptn.code == Tick && |ptn.args| >= 2 && ptn.args[0].DurV? && ptn.args[1].IntV? {
      TickProgCheckFree(0, ptn.args[1].i, ptn.args[0].ns);
      assert prog[1..] == TickProg(0, ptn.args[1].i, ptn.args[0].ns);
    } else {
      assert forall k :: 1 <= k < |prog| ==> !prog[k].ICheck?;
    }
  }

  /** Normal, TimeOut and Tick check for cancellation exactly once, before
      anything else: a cancel seen there returns nil with nothing run, and a
      cancel arriving later is never observed. */
  lemma CancelAtEntry(e: Engine, k: nat)
    requires e.Wf() && e.err.None? && ChecksOnce(e.ptn.code)
    ensures SyncRun(e, Some(0)) == RunOutcome([CancelCheck], e, Cancelled)
    ensures k > 0 ==> SyncRun(e, Some(k)) == SyncRun(e, None)
  {
    EntryCheckPlan(e.ptn);
    var prog := SyncPlan(e.ptn).prog;
    var p := OnePass(e);
    var m0 := Machine(e.mailbox, e.err, 0);
    assert prog == [ICheck] + prog[1..];
    SyncFinite(e, Some(0), prog);
    SyncFinite(e, Some(k), prog);
    SyncFinite(e, None, prog);
    ExecCons(p, ICheck, prog[1..], m0, Some(0));
    ExecCons(p, ICheck, prog[1..], m0, Some(k));
    ExecCons(p, ICheck, prog[1..], m0, None);
    CheckFreeOblivious(p, prog[1..], m0.(checks := 1), Some(k), None);
  }

  /** One check that is passed, then one pass, from an empty mailbox. */
  lemma CheckThenPass(p: PassOut, m: Machine, cancel: Option<nat>)
    requires m.mailbox.None? && cancel != Some(m.checks)
    ensures Exec(p, [ICheck, IPass], m, cancel)
         == ExecResult([CancelCheck] + p.dispatch + [Publish],
                       Machine(Some(p.ret), m.err, m.checks + 1), Completed)
  {
    ExecCons(p, ICheck, [IPass], m, cancel);
    ExecOne(p, IPass, m.(checks := m.checks + 1), cancel);
  }

  /** `Normal` from an empty mailbox: one checked pass, its snapshot left
      buffered, nil returned. */
  lemma NormalRun(e: Engine, cancel: Option<nat>)
    requires e.Wf() && e.err.None? && e.mailbox.None? && e.ptn.code == Normal
    requires cancel != Some(0)
    ensures SyncRun(e, cancel)
         == RunOutcome([CancelCheck] + PassTrace(e) + [Publish],
                       e.(mailbox := Some(PassReturner(e))), Returned(None))
  {
    assert SyncPlan(e.ptn) == Finite([ICheck, IPass]);
    SyncFinite(e, cancel, [ICheck, IPass]);
    CheckThenPass(OnePass(e), Machine(None, None, 0), cancel);
  }

  /** `Normal` with a snapshot still buffered from an earlier run: the pass
      dispatches every task and then blocks forever on the publish. */
  lemma NormalBlocked(e: Engine, cancel: Option<nat>)
    requires e.Wf() && e.err.None? && e.mailbox.Some? && e.ptn.code == Normal
    requires cancel != Some(0)
    ensures SyncRun(e, cancel) == RunOutcome([CancelCheck] + PassTrace(e), e, Blocked)
  {
    var p := OnePass(e);
    var m0 := Machine(e.mailbox, e.err, 0);
    assert SyncPlan(e.ptn) == Finite([ICheck, IPass]);
    SyncFinite(e, cancel, [ICheck, IPass]);
    ExecCons(p, ICheck, [IPass], m0, cancel);
    ExecOne(p, IPass, m0.(checks := 1), cancel);
  }

  /** Two `Normal` runs in a row without a `GetReturns` in between: the second
      blocks, because the first left its snapshot in the one-slot mailbox. */
  lemma NormalTwiceBlocks(e: Engine, c1: Option<nat>, c2: Option<nat>)
    requires e.Wf() && e.err.None? && e.mailbox.None? && e.ptn.code == Normal
    requires c1 != Some(0) && c2 != Some(0)
    ensures SyncRun(SyncRun(e, c1).engine, c2).status == Blocked
  {
    NormalRun(e, c1);
    NormalBlocked(e.(mailbox := Some(PassReturner(e))), c2);
  }

  /** A pass with the error field set after it. */
  lemma FaultAfterPass(p: PassOut, m: Machine, cancel: Option<nat>, x: Error)
    requires m.mailbox.None? && cancel != Some(m.checks)
    ensures Exec(p, [ICheck, IPass, IFault(x)], m, cancel)
         == ExecResult([CancelCheck] + p.dispatch + [Publish],
                       Machine(Some(p.ret), Some(x), m.checks + 1), Completed)
  {
    var m1 := m.(checks := m.checks + 1);
    assert [ICheck, IPass, IFault(x)] == [ICheck] + ([IPass] + [IFault(x)]);
    ExecCons(p, ICheck, [IPass] + [IFault(x)], m, cancel);
    ExecCons(p, IPass, [IFault(x)], m1, cancel);
    ExecOne(p, IFault(x), m1.(mailbox := Some(p.ret)), cancel);
    assert [CancelCheck] + ((p.dispatch + [Publish]) + []) == [CancelCheck] + p.dispatch + [Publish];
  }

  /** A pass with the error field set before it. */
  lemma FaultBeforePass(p: PassOut, m: Machine, cancel: Option<nat>, x: Error)
    requires m.mailbox.None? && cancel != Some(m.checks)
    ensures Exec(p, [ICheck, IFault(x), IPass], m, cancel)
         == ExecResult([CancelCheck] + p.dispatch + [Publish],
                       Machine(Some(p.ret), Some(x), m.checks + 1), Completed)
  {
    var m1 := m.(checks := m.checks + 1);
    assert [ICheck, IFault(x), IPass] == [ICheck] + ([IFault(x)] + [IPass]);
    ExecCons(p, ICheck, [IFault(x)] + [IPass], m, cancel);
    ExecCons(p, IFault(x), [IPass], m1, cancel);
    ExecOne(p, IPass, m1.(err := Some(x)), cancel);
    assert [CancelCheck] + ([] + (p.dispatch + [Publish])) == [CancelCheck] + p.dispatch + [Publish];
  }

  /** The outcome of a single pass followed, or preceded, by a fault. */
  function FaultedPass(e: Engine, x: Error): RunOutcome
    requires e.Wf()
  {
    RunOutcome([CancelCheck] + PassTrace(e) + [Publish],
               e.(mailbox := Some(PassReturner(e)), err := Some(x)), Returned(Some(x)))
  }

  /** `TimeOut` from an empty mailbox: with a `Duration` argument it sleeps
      that long before the pass and returns nil; without arguments it runs
      the pass and then latches the time-parameter fault; with an argument of
      another type it latches the fault first and still runs the pass. In
      every case the pass's snapshot is left buffered. */
  lemma TimeOutRun(e: Engine, cancel: Option<nat>)
    requires e.Wf() && e.err.None? && e.mailbox.None? && e.ptn.code == TimeOut
    requires cancel != Some(0)
    ensures |e.ptn.args| > 0 && e.ptn.args[0].DurV? ==>
      SyncRun(e, cancel)
        == RunOutcome([CancelCheck, Pause(e.ptn.args[0].ns)] + PassTrace(e) + [Publish],
                      e.(mailbox := Some(PassReturner(e))), Returned(None))
    ensures !(|e.ptn.args| > 0 && e.ptn.args[0].DurV?) ==>
      SyncRun(e, cancel) == FaultedPass(e, TimeParamFault)
  {
    var p := OnePass(e);
    var m0 := Machine(None, None, 0);
    var prog := SyncPlan(e.ptn).prog;
    SyncFinite(e, cancel, prog);
    if |e.ptn.args| > 0 && e.ptn.args[0].DurV? {
      var d := e.ptn.args[0].ns;
      var m1 := m0.(checks := 1);
      assert prog == [ICheck] + ([ISleep(d)] + [IPass]);
      ExecCons(p, ICheck, [ISleep(d)] + [IPass], m0, cancel);
      ExecCons(p, ISleep(d), [IPass], m1, cancel);
      ExecOne(p, IPass, m1, cancel);
      assert [CancelCheck] + ([Pause(d)] + (p.dispatch + [Publish]))
          == [CancelCheck, Pause(d)] + p.dispatch + [Publish];
    } else {
      if |e.ptn.args| == 0 {
        FaultAfterPass(p, m0, cancel, TimeParamFault);
      } else {
        FaultBeforePass(p, m0, cancel, TimeParamFault);
      }
    }
  }

  /** The events of the valid `Tick` loop from iteration `i`: each pass is
      published and drained at once, with the interval slept between passes. */
  function TickTraceFrom(p: PassOut, i: nat, n: int, t: int): seq<Event>
    decreases n - i
  {
    if i >= n then []
    else p.dispatch + [Publish, Drain] + (if i != n - 1 then [Pause(t)] else []) + TickTraceFrom(p, i + 1, n, t)
  }

  /** One iteration of the valid `Tick` loop from an empty mailbox: publish,
      drain, and the interval unless `last`. */
  lemma TickIter(p: PassOut, t: int, last: bool, m: Machine, cancel: Option<nat>)
    requires m.mailbox.None?
    ensures Exec(p, [IPass, IDrain] + (if last then [] else [ISleep(t)]), m, cancel)
         == ExecResult(p.dispatch + [Publish, Drain] + (if last then [] else [Pause(t)]), m, Completed)
  {
    var sl: seq<Instr> := if last then [] else [ISleep(t)];
    var m1 := m.(mailbox := Some(p.ret));
    assert [IPass, IDrain] + sl == [IPass] + ([IDrain] + sl);
    ExecCons(p, IPass, [IDrain] + sl, m, cancel);
    ExecCons(p, IDrain, sl, m1, cancel);
    if !last {
      ExecOne(p, ISleep(t), m, cancel);
    }
  }

  /** The valid `Tick` loop from an empty mailbox never blocks, leaves the
      mailbox empty, and records its passes in order. */
  lemma {:induction false} TickLoop(p: PassOut, i: nat, n: int, t: int, m: Machine, cancel: Option<nat>)
    requires m.mailbox.None?
    ensures Exec(p, TickProg(i, n, t), m, cancel) == ExecResult(TickTraceFrom(p, i, n, t), m, Completed)
    decreases n - i
  {
    if i < n {
      var head: seq<Instr> := [IPass, IDrain] + (if i != n - 1 then [ISleep(t)] else []);
      ExecAppend(p, head, TickProg(i + 1, n, t), m, cancel);
      TickIter(p, t, i == n - 1, m, cancel);
      TickLoop(p, i + 1, n, t, m, cancel);
    }
  }

  /** Whether a `Tick` pattern has its (Duration, int) argument pair. */
  predicate ValidTick(ptn: Pattern) {
    |ptn.args| >= 2 && ptn.args[0].DurV? && ptn.args[1].IntV?
  }

  /** `Tick` from an empty mailbox: with a (Duration, int) pair it runs the
      loop, leaving the engine as it was and returning nil; otherwise it runs
      one pass and then latches the tick-parameter fault. */
  lemma TickRun(e: Engine, cancel: Option<nat>)
    requires e.Wf() && e.err.None? && e.mailbox.None? && e.ptn.code == Tick
    requires cancel != Some(0)
    ensures ValidTick(e.ptn) ==>
      SyncRun(e, cancel)
        == RunOutcome([CancelCheck] + TickTraceFrom(OnePass(e), 0, e.ptn.args[1].i, e.ptn.args[0].ns),
                      e, Returned(None))
    ensures !ValidTick(e.ptn) ==> SyncRun(e, cancel) == FaultedPass(e, TickParamFault)
  {
    var p := OnePass(e);
    var m0 := Machine(None, None, 0);
    var prog := SyncPlan(e.ptn).prog;
    SyncFinite(e, cancel, prog);
    if ValidTick(e.ptn) {
      var n := e.ptn.args[1].i;
      var t := e.ptn.args[0].ns;
      ExecCons(p, ICheck, TickProg(0, n, t), m0, cancel);
      TickLoop(p, 0, n, t, m0.(checks := 1), cancel);
    } else {
      FaultAfterPass(p, m0, cancel, TickParamFault);
    }
  }

  /** How often the `Tick` loop's events from iteration `i` publish, drain,
      pause between iterations and check for cancellation. */
  lemma {:induction false} TickTraceCounts(p: PassOut, i: nat, n: int, t: int)
    requires Quiet(p)
    ensures
      var k := if n > i then n - i else 0;
      && multiset(TickTraceFrom(p, i, n, t))[Publish] == k
      && multiset(TickTraceFrom(p, i, n, t))[Drain] == k
      && multiset(TickTraceFrom(p, i, n, t))[CancelCheck] == 0
      && multiset(TickTraceFrom(p, i, n, t))[Pause(t)] == (if k > 0 then k - 1 else 0)
    decreases n - i
  {
    if i < n {
      TickTraceCounts(p, i + 1, n, t);
      var head := p.dispatch + [Publish, Drain] + (if i != n - 1 then [Pause(t)] else []);
      TickHeadCounts(p, i != n - 1, t);
      assert TickTraceFrom(p, i, n, t) == head + TickTraceFrom(p, i + 1, n, t);
      assert multiset(head + TickTraceFrom(p, i + 1, n, t))
          == multiset(head) + multiset(TickTraceFrom(p, i + 1, n, t));
    }
  }

  /** One iteration of the `Tick` loop publishes and drains once, pauses
      once unless it is the last, and never checks for cancellation. */
  lemma TickHeadCounts(p: PassOut, sleeps: bool, t: int)
    requires Quiet(p)
    ensures
      var head := p.dispatch + [Publish, Drain] + (if sleeps then [Pause(t)] else []);
      && multiset(head)[Publish] == 1
      && multiset(head)[Drain] == 1
      && multiset(head)[CancelCheck] == 0
      && multiset(head)[Pause(t)] == (if sleeps then 1 else 0)
  {
    var slt: seq<Event> := if sleeps then [Pause(t)] else [];
    assert Pause(t) !in p.dispatch;
    assert multiset(p.dispatch + [Publish, Drain] + slt)
        == multiset(p.dispatch) + multiset([Publish, Drain]) + multiset(slt);
  }

  /** What a valid `Tick` with count `n` and interval `t` records: `max(n, 0)`
      publishes and drains, one cancel check, a pause of `t` between each two
      passes, and a drain at the end when any pass ran. */
  predicate TickCounts(tr: seq<Event>, n: int, t: int) {
    && multiset(tr)[Publish] == (if n > 0 then n else 0)
    && multiset(tr)[Drain] == (if n > 0 then n else 0)
    && multiset(tr)[CancelCheck] == 1
    && multiset(tr)[Pause(t)] == (if n > 1 then n - 1 else 0)
    && (n > 0 ==> |tr| > 0 && tr[|tr| - 1] == Drain)
  }

  /** How often the whole `Tick` trace, entry check included, publishes,
      drains, checks and pauses. */
  lemma TickTotalMultiset(p: PassOut, n: int, t: int, tr: seq<Event>)
    requires Quiet(p) && tr == [CancelCheck] + TickTraceFrom(p, 0, n, t)
    ensures multiset(tr)[Publish] == (if n > 0 then n else 0)
    ensures multiset(tr)[Drain] == (if n > 0 then n else 0)
    ensures multiset(tr)[CancelCheck] == 1
    ensures multiset(tr)[Pause(t)] == (if n > 1 then n - 1 else 0)
  {
    TickTraceCounts(p, 0, n, t);
    assert multiset(tr) == multiset([CancelCheck]) + multiset(TickTraceFrom(p, 0, n, t));
  }

  /** The whole `Tick` trace ends on a drain when any pass ran. */
  lemma TickTotalLast(p: PassOut, n: int, t: int, tr: seq<Event>)
    requires tr == [CancelCheck] + TickTraceFrom(p, 0, n, t)
    ensures n > 0 ==> |tr| > 0 && tr[|tr| - 1] == Drain
  {
    if n > 0 {
      TickTraceLast(p, 0, n, t);
      var tt := TickTraceFrom(p, 0, n, t);
      assert tr[|tr| - 1] == tt[|tt| - 1];
    }
  }

  /** The whole `Tick` trace, entry check included, has those counts. */
  lemma TickTotal(p: PassOut, n: int, t: int, tr: seq<Event>)
    requires Quiet(p) && tr == [CancelCheck] + TickTraceFrom(p, 0, n, t)
    ensures TickCounts(tr, n, t)
  {
    TickTotalMultiset(p, n, t, tr);
    TickTotalLast(p, n, t, tr);
  }

  /** A valid `Tick` with count `n` publishes and drains `max(n, 0)`
      snapshots, checks for cancellation once, pauses for the interval
      between each two passes, and ends on a drain when it ran at all. */
  lemma TickRunCounts(e: Engine, cancel: Option<nat>)
    requires e.Wf() && e.err.None? && e.mailbox.None? && e.ptn.code == Tick
    requires cancel != Some(0) && ValidTick(e.ptn)
    ensures TickCounts(SyncRun(e, cancel).trace, e.ptn.args[1].i, e.ptn.args[0].ns)
  {
    TickRun(e, cancel);
    PassIsQuiet(e);
    TickTotal(OnePass(e), e.ptn.args[1].i, e.ptn.args[0].ns, SyncRun(e, cancel).trace);
  }

  /** The `Tick` loop ends on a drain. */
  lemma {:induction false} TickTraceLast(p: PassOut, i: nat, n: int, t: int)
    requires i < n
    ensures |TickTraceFrom(p, i, n, t)| > 0
    ensures TickTraceFrom(p, i, n, t)[|TickTraceFrom(p, i, n, t)| - 1] == Drain
    decreases n - i
  {
    var rest := TickTraceFrom(p, i + 1, n, t);
    var head := p.dispatch + [Publish, Drain];
    if i == n - 1 {
      assert TickTraceFrom(p, i, n, t) == head + [] + rest;
      assert rest == [];
    } else {
      TickTraceLast(p, i + 1, n, t);
      var whole := head + [Pause(t)] + rest;
      assert TickTraceFrom(p, i, n, t) == whole;
      assert whole[|whole| - 1] == rest[|rest| - 1];
    }
  }

  /** Codes that match no case of the pattern `switch` (the placeholder
      `Max`, `Ineffective`, or any other) run nothing and return nil. */
  lemma IneffectiveRun(e: Engine, cancel: Option<nat>)
    requires e.Wf() && e.err.None?
    requires e.ptn.code < Normal || e.ptn.code > Tick
    ensures SyncRun(e, cancel) == RunOutcome([], e, Returned(None))
  {
    SyncFinite(e, cancel, []);
  }

  /** After a TimeOut run without arguments, the snapshot it published sits in
      the mailbox but can never be fetched: `GetReturns` reports the latched
      fault, and so does every later `Run`, without running anything. */
  lemma FaultHidesSnapshot(e: Engine, cancel: Option<nat>, params: seq<Value>, later: Option<nat>)
    requires e.Wf() && e.err.None? && e.mailbox.None? && e.ptn.code == TimeOut
    requires |e.ptn.args| == 0 && cancel != Some(0)
    ensures
      var after := SyncRun(e, cancel).engine;
      && after.mailbox == Some(PassReturner(e))
      && GetReturns(after) == Refused(TimeParamFault)
      && Run(after, params, later) == RunOutcome([], after, Returned(Some(TimeParamFault)))
  {
    TimeOutRun(e, cancel);
  }

  /** A Normal run followed by `GetReturns` hands back the pass's returner
      and empties the mailbox again; on that returner `Get` succeeds exactly
      for a queue position and one of that task's output positions, with the
      task's output, and `BackError` blocks because a synchronous run
      deposits no error. */
  lemma NormalRunReturns(e: Engine, cancel: Option<nat>, fid: int, pid: int)
    requires e.Wf() && e.err.None? && e.mailbox.None? && e.ptn.code == Normal
    requires cancel != Some(0)
    ensures
      var g := GetReturns(SyncRun(e, cancel).engine);
      && g.Got? && g.engine == e
      && (Get(g.r, fid, pid).Ok? <==> 0 <= fid < |e.fs| && 0 <= pid < |e.fs[fid].f.outputs|)
      && (Get(g.r, fid, pid).Ok? ==> Get(g.r, fid, pid).value == e.fs[fid].f.outputs[pid])
      && (Get(g.r, fid, pid).Fail? ==> Get(g.r, fid, pid).err == NotFound)
      && BackError(g.r).WouldBlock?
  {
    NormalRun(e, cancel);
    SnapshotShape(e, |e.fs|);
  }
}
