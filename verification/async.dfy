/**
  The asynchronous branch of `Run` (Delegator/Delegator.go), as far as it
  differs from the synchronous one: how the `Cycle` count is coerced, and
  the error deposit on every TimeOut path and on the Tick fault paths,
  which afterwards take the buffered returner, send the error field on its
  error channel and put it back. The goroutine itself, its pause gate and
  the completion signal are not modelled; `AsyncBody` is what the goroutine does to the engine.
 */
module AsyncRun {
  import opened Values
  import opened Delegator
  import opened RunLoop
  import opened RunFacts
  import opened RunPatterns
  import opened GoAtoi

  /** The asynchronous `Cycle` coercion: no argument, or the int -1, is the
      unbounded loop; a string is read with `Atoi` (0 when it does not
      parse); an int is the count; anything else means a single pass. */
  function AsyncCycleCount(args: seq<Value>): (c: Count)
    ensures c.Unbounded? <==> |args| == 0 || args[0] == IntV(-1)
    ensures c.Times? && args[0].IntV? ==> c.n == args[0].i
    ensures c.Times? && args[0].StrV? ==> c.n == Atoi(args[0].s)
    ensures c.Times? && !args[0].IntV? && !args[0].StrV? ==> c.n == 1
  {
    if |args| == 0 || args[0] == IntV(-1) then Unbounded
    else match args[0]
      case StrV(s) => Times(Atoi(s))
      case IntV(n) => Times(n)
      case _ => Times(1)
  }

  /** The patterns whose asynchronous fault path deposits the error field. */
  predicate Deposits(p: Pattern) {
    p.code == TimeOut || (p.code == Tick && !ValidTick(p))
  }

  /** The pattern `switch` of the asynchronous branch: it runs forever
      exactly for an unbounded `Cycle`, and a depositing pattern's program
      ends with the deposit. */
  function AsyncPlan(p: Pattern): (r: Plan)
    ensures r.Forever? <==> p.code == Cycle && AsyncCycleCount(p.args).Unbounded?
    ensures Deposits(p) ==> r.Finite? && |r.prog| > 0 && r.prog[|r.prog| - 1] == IDeposit
  {
    if p.code == Cycle then CyclePlan(AsyncCycleCount(p.args))
    else if Deposits(p) then Finite(SyncPlan(p).prog + [IDeposit])
    else SyncPlan(p)
  }

  /** What the launched goroutine does to the engine: it changes only the
      mailbox and the error field, and it launches nothing further. */
  function AsyncBody(e: Engine, cancel: Option<nat>): (r: RunOutcome)
    requires e.Wf() && e.err.None?
    ensures r.engine.(mailbox := e.mailbox, err := e.err) == e
    ensures r.status.Returned? ==> r.status.err == r.engine.err
    ensures !r.status.Launched?
  {
    RunPlan(e, AsyncPlan(e.ptn), cancel)
  }

  /** The two coercions differ on exactly two kinds of argument: the int -1,
      which is zero passes synchronously and unbounded asynchronously, and a
      string, which is one pass synchronously and its `Atoi` value
      asynchronously. On every other argument list they agree. */
  lemma CycleCountsDiffer(args: seq<Value>)
    ensures |args| > 0 && args[0] == IntV(-1) ==>
      SyncCycleCount(args) == Times(-1) && PassesOf(SyncCycleCount(args)) == 0
      && AsyncCycleCount(args) == Unbounded
    ensures |args| > 0 && args[0].StrV? ==>
      SyncCycleCount(args) == Times(1) && AsyncCycleCount(args) == Times(Atoi(args[0].s))
    ensures !(|args| > 0 && (args[0] == IntV(-1) || args[0].StrV?)) ==>
      AsyncCycleCount(args) == SyncCycleCount(args)
  {
  }

  /** A count written as a decimal string gives the same number of passes as
      the int itself, except for -1: the string "-1" runs nothing, while the
      int -1 selects the unbounded loop. */
  lemma StringCountMatchesInt(n: int)
    requires MinInt64 <= n <= MaxInt64
    ensures AsyncCycleCount([StrV(ShowInt(n))]) == Times(n)
    ensures n != -1 ==> AsyncCycleCount([IntV(n)]) == Times(n)
    ensures AsyncCycleCount([IntV(-1)]) == Unbounded
  {
    AtoiShow(n);
  }

  /** Apart from `Cycle`, the asynchronous switch runs the synchronous
      program, followed by a deposit on every TimeOut path and on Tick's
      fault paths. */
  lemma PlansAgree(p: Pattern)
    ensures p.code != Cycle && !Deposits(p) ==> AsyncPlan(p) == SyncPlan(p)
    ensures Deposits(p) ==> SyncPlan(p).Finite? && AsyncPlan(p) == Finite(SyncPlan(p).prog + [IDeposit])
    ensures p.code == Cycle ==>
      SyncPlan(p) == CyclePlan(SyncCycleCount(p.args)) && AsyncPlan(p) == CyclePlan(AsyncCycleCount(p.args))
  {
  }

  /** On a depositing pattern the goroutine does what the synchronous run
      does and then, if that run returned, takes the buffered returner and
      puts it back with the error field in its error channel. */
  lemma DepositFollowsSync(e: Engine, cancel: Option<nat>)
    requires e.Wf() && e.err.None? && Deposits(e.ptn)
    ensures
      var s := SyncRun(e, cancel);
      var a := AsyncBody(e, cancel);
      && (s.status.Returned? && s.engine.mailbox.Some? ==>
            a == RunOutcome(s.trace + [Drain, Publish],
                            s.engine.(mailbox := Some(s.engine.mailbox.value.(errSlot := Some(s.engine.err)))),
                            s.status))
      && (s.status.Returned? && s.engine.mailbox.None? ==> a.status == Blocked)
      && (!s.status.Returned? ==> a == s)
  {
    var prog := SyncPlan(e.ptn).prog;
    var p := OnePass(e);
    var m0 := Machine(e.mailbox, e.err, 0);
    SyncFinite(e, cancel, prog);
    ExecAppend(p, prog, [IDeposit], m0, cancel);
    var x := Exec(p, prog, m0, cancel);
    ExecOne(p, IDeposit, x.m, cancel);
  }

  /** The asynchronous TimeOut from an empty mailbox leaves the pass's
      returner buffered with an error deposited: nil after a valid
      `Duration`, the time-parameter fault otherwise. */
  lemma AsyncTimeOutDeposit(e: Engine, cancel: Option<nat>)
    requires e.Wf() && e.err.None? && e.mailbox.None? && e.ptn.code == TimeOut
    requires cancel != Some(0)
    ensures
      var a := AsyncBody(e, cancel);
      var valid := |e.ptn.args| > 0 && e.ptn.args[0].DurV?;
      && a.engine.mailbox == Some(PassReturner(e).(errSlot := Some(if valid then None else Some(TimeParamFault))))
      && a.engine.err == (if valid then None else Some(TimeParamFault))
  {
    TimeOutRun(e, cancel);
    DepositFollowsSync(e, cancel);
  }

  /** `GetReturns` entered after the goroutine reached its final `signal`
      send (which the `Wait` inside `GetReturns` receives when no error is
      latched): a deposited
      fault is latched as well, so `GetReturns` reports it instead of handing
      out the returner that carries it; after a valid `Duration` the
      returner is handed out and `BackError` receives nil. */
  lemma FetchAfterRun(e: Engine, cancel: Option<nat>)
    requires e.Wf() && e.err.None? && e.mailbox.None? && e.ptn.code == TimeOut
    requires cancel != Some(0)
    ensures
      var a := AsyncBody(e, cancel);
      var valid := |e.ptn.args| > 0 && e.ptn.args[0].DurV?;
      && (!valid ==> GetReturns(a.engine) == Refused(TimeParamFault))
      && (valid ==> GetReturns(a.engine).Got? && BackError(GetReturns(a.engine).r) == Received(None, PassReturner(e)))
  {
    AsyncTimeOutDeposit(e, cancel);
  }

  /** `GetReturns` entered while the goroutine still runs. Its error check,
      and the one `Wait` repeats, read the error field as the caller found
      it; `Wait` then blocks until the goroutine's completion signal, and
      the receive takes the returner from the mailbox the goroutine left.
      This is the interleaving in which both checks run before the
      goroutine writes the error field. */
  function GetReturnsDuring(atEntry: Engine, after: Engine): (f: Fetch)
    ensures f.Refused? <==> atEntry.err.Some?
    ensures f.Got? ==> Some(f.r) == after.mailbox && f.engine == after.(mailbox := None)
    ensures f.Waits? <==> atEntry.err.None? && after.mailbox.None?
    ensures atEntry.err == after.err ==> f == GetReturns(after)
  {
    if atEntry.err.Some? then Refused(atEntry.err.value)
    else match after.mailbox
      case None => Waits
      case Some(r) => Got(r, after.(mailbox := None))
  }

  /** A `GetReturns` entered while an asynchronous TimeOut still runs passes
      its check, waits for the goroutine and hands out the pass's returner
      with the deposited error on it: the time-parameter fault, when the
      argument is not a `Duration`, is then received by `BackError`. */
  lemma FetchDuringRun(e: Engine, cancel: Option<nat>)
    requires e.Wf() && e.err.None? && e.mailbox.None? && e.ptn.code == TimeOut
    requires cancel != Some(0)
    ensures
      var f := GetReturnsDuring(e, AsyncBody(e, cancel).engine);
      var valid := |e.ptn.args| > 0 && e.ptn.args[0].DurV?;
      && f.Got? && f.r.vals == PassReturner(e).vals
      && BackError(f.r) == Received(if valid then None else Some(TimeParamFault), PassReturner(e))
  {
    AsyncTimeOutDeposit(e, cancel);
  }
}
