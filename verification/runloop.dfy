/**
  The synchronous branch of `Run` (Delegator/Delegator.go). Each pattern's
  control flow is written out as a short instruction program, which a
  machine executes against the capacity-one return mailbox and a
  cancellation oracle: `cancel == Some(k)` means that the cancel check
  numbered `k` (counting from 0 within this run) observes the `over` signal,
  and `None` means that no check ever does.
 */
module RunLoop {
  import opened Values
  import opened Delegator

  /** One step of a pattern's control flow. */
  datatype Instr =
    | ICheck              // the non-blocking `select` on the `over` channel
    | ISleep(d: int)      // a pattern-level `time.Sleep`
    | IPass               // one call of `run`: the pass, then its publish
    | IDrain              // a receive from the `returns` channel
    | IFault(err: Error)  // an assignment to `d.err`
    | IDeposit            // asynchronous branch only: take the buffered returner,
                          // send `d.err` on its error channel, and put it back

  /** What a `Cycle` count argument means. */
  datatype Count = Unbounded | Times(n: int)

  /** The number of passes a count allows when nothing cancels. */
  function PassesOf(c: Count): nat
    requires c.Times?
  {
    if c.n > 0 then c.n else 0
  }

  /** The synchronous `Cycle` coercion: no argument repeats forever, an int is
      the count, and any other argument means a single pass. */
  function SyncCycleCount(args: seq<Value>): (c: Count)
    ensures c.Unbounded? <==> |args| == 0
    ensures c.Times? && args[0].IntV? ==> c.n == args[0].i
    ensures c.Times? && !args[0].IntV? ==> c.n == 1
  {
    if |args| == 0 then Unbounded
    else match args[0]
      case IntV(n) => Times(n)
      case _ => Times(1)
  }

  /** The bounded `Cycle` loop from iteration `i`: check, drain the previous
      snapshot unless this is the first iteration, then pass. */
  function CycleProg(i: nat, n: int): seq<Instr>
    decreases n - i
  {
    if i >= n then []
    else [ICheck] + (if i != 0 then [IDrain] else []) + [IPass] + CycleProg(i + 1, n)
  }

  /** The valid `Tick` loop from iteration `i`: pass, drain, and sleep unless
      this was the last iteration. */
  function TickProg(i: nat, n: int, t: int): seq<Instr>
    decreases n - i
  {
    if i >= n then []
    else [IPass, IDrain] + (if i != n - 1 then [ISleep(t)] else []) + TickProg(i + 1, n, t)
  }

  /** A pattern's program: finite, or a period repeated until cancelled. */
  datatype Plan = Finite(prog: seq<Instr>) | Forever(period: seq<Instr>)

  /** The `Cycle` plan for a coerced count: repeat until cancelled, or the
      bounded loop. */
  function CyclePlan(c: Count): Plan {
    match c
    case Unbounded => Forever([ICheck, IPass, IDrain])
    case Times(n) => Finite(CycleProg(0, n))
  }

  /** The body of the pattern `switch` of the synchronous branch. Only a
      `Cycle` without arguments runs forever; Normal, TimeOut and Tick open
      with a cancel check; TimeOut latches its fault exactly when its
      argument is not a `Duration`; codes 4 and 5 match no case. */
  function SyncPlan(p: Pattern): (r: Plan)
    ensures r.Forever? <==> p.code == Cycle && |p.args| == 0
    ensures p.code in {Normal, TimeOut, Tick} ==> r.Finite? && |r.prog| > 0 && r.prog[0] == ICheck
    ensures p.code == TimeOut ==> r.Finite? && (IFault(TimeParamFault) in r.prog <==> !(|p.args| > 0 && p.args[0].DurV?))
    ensures !(Normal <= p.code <= Tick) ==> r == Finite([])
  {
    if p.code == Normal then Finite([ICheck, IPass])
    else if p.code == Cycle then CyclePlan(SyncCycleCount(p.args))
    else if p.code == TimeOut then
      if |p.args| == 0 then Finite([ICheck, IPass, IFault(TimeParamFault)])
      else if p.args[0].DurV? then Finite([ICheck, ISleep(p.args[0].ns), IPass])
      else Finite([ICheck, IFault(TimeParamFault), IPass])
    else if p.code == Tick then
      if |p.args| < 2 then Finite([ICheck, IPass, IFault(TickParamFault)])
      else if p.args[0].DurV? && p.args[1].IntV? then
        Finite([ICheck] + TickProg(0, p.args[1].i, p.args[0].ns))
      else Finite([ICheck, IPass, IFault(TickParamFault)])
    else Finite([])
  }

  /** The run-time state a program changes: the mailbox, the error field, and
      how many cancel checks have been made. */
  datatype Machine = Machine(mailbox: Option<Returner>, err: Option<Error>, checks: nat)

  /** How a program stopped: at its end, at an observed cancel, or blocked on
      the mailbox (a put into a full one or a take from an empty one). */
  datatype Stop = Completed | CancelSeen | BlockedAt

  datatype ExecResult = ExecResult(trace: seq<Event>, m: Machine, stop: Stop)

  /** What one call of `run` dispatches and then publishes. */
  datatype PassOut = PassOut(dispatch: seq<Event>, ret: Returner)

  /** The pass of engine `e`. */
  function OnePass(e: Engine): PassOut
    requires e.Wf()
  {
    PassOut(PassTrace(e), PassReturner(e))
  }

  /** One instruction, where `p` is what a pass does. */
  function Step(p: PassOut, ins: Instr, m: Machine, cancel: Option<nat>): ExecResult
  {
    match ins
    case ICheck =>
      if cancel == Some(m.checks) then ExecResult([CancelCheck], m, CancelSeen)
      else ExecResult([CancelCheck], m.(checks := m.checks + 1), Completed)
    case ISleep(d) => ExecResult([Pause(d)], m, Completed)
    case IPass =>
      if m.mailbox.Some? then ExecResult(p.dispatch, m, BlockedAt)
      else ExecResult(p.dispatch + [Publish], m.(mailbox := Some(p.ret)), Completed)
    case IDrain =>
      if m.mailbox.None? then ExecResult([], m, BlockedAt)
      else ExecResult([Drain], m.(mailbox := None), Completed)
    case IFault(x) => ExecResult([], m.(err := Some(x)), Completed)
    case IDeposit =>
      if m.mailbox.None? then ExecResult([], m, BlockedAt)
      else ExecResult([Drain, Publish], m.(mailbox := Some(m.mailbox.value.(errSlot := Some(m.err)))), Completed)
  }

  /** A check stops the run exactly when the oracle names it; a put into the
      full one-slot mailbox and a take from the empty one block; only a check
      that lets the run go on advances the check count; a publish leaves the
      pass's returner buffered and a drain empties the mailbox. */
  lemma StepChannels(p: PassOut, ins: Instr, m: Machine, cancel: Option<nat>)
    ensures var x := Step(p, ins, m, cancel);
      && (x.stop == CancelSeen <==> ins == ICheck && cancel == Some(m.checks))
      && (x.stop == BlockedAt <==>
            (ins == IPass && m.mailbox.Some?) || ((ins == IDrain || ins == IDeposit) && m.mailbox.None?))
      && x.m.checks == m.checks + (if ins == ICheck && x.stop == Completed then 1 else 0)
      && (x.stop == Completed && ins == IPass ==> x.m.mailbox == Some(p.ret))
      && (x.stop == Completed && ins == IDrain ==> x.m.mailbox.None?)
  {
  }

  /** A program, instruction by instruction, until it ends, is cancelled or
      blocks; a cancelled one stopped at the check the oracle names. */
  function Exec(p: PassOut, prog: seq<Instr>, m: Machine, cancel: Option<nat>): (x: ExecResult)
    ensures x.m.checks >= m.checks
    ensures x.stop == CancelSeen ==> cancel == Some(x.m.checks)
    decreases |prog|
  {
    if |prog| == 0 then ExecResult([], m, Completed)
    else
      var s := Step(p, prog[0], m, cancel);
      if s.stop != Completed then s
      else
        var rest := Exec(p, prog[1..], s.m, cancel);
        ExecResult(s.trace + rest.trace, rest.m, rest.stop)
  }

  /** `k` copies of `s`, one after another. */
  function Repeat<T>(s: seq<T>, k: nat): (r: seq<T>)
    ensures |r| == k * |s|
  {
    if k == 0 then [] else s + Repeat(s, k - 1)
  }

  /** What `Run` did. `Cancelled` runs return nil; `Blocked` ones never return;
      `Diverges` is an unbounded `Cycle` that is never cancelled, whose trace
      holds the period it repeats; `Launched` is the asynchronous branch. */
  datatype Status = Returned(err: Option<Error>) | Cancelled | Blocked | Diverges | Launched

  datatype RunOutcome = RunOutcome(trace: seq<Event>, engine: Engine, status: Status)

  /** The engine and status after a program has run. */
  function Finish(e: Engine, x: ExecResult): RunOutcome {
    RunOutcome(
      x.trace,
      e.(mailbox := x.m.mailbox, err := x.m.err),
      match x.stop
      case Completed => Returned(x.m.err)
      case CancelSeen => Cancelled
      case BlockedAt => Blocked)
  }

  /** A pattern's plan run against `e`'s pass, mailbox and error field. */
  function RunPlan(e: Engine, plan: Plan, cancel: Option<nat>): (r: RunOutcome)
    requires e.Wf()
    ensures r.engine.(mailbox := e.mailbox, err := e.err) == e
    ensures r.status.Returned? ==> r.status.err == r.engine.err
    ensures !r.status.Launched?
  {
    var m0 := Machine(e.mailbox, e.err, 0);
    var p := OnePass(e);
    match plan
    case Finite(prog) => Finish(e, Exec(p, prog, m0, cancel))
    case Forever(period) =>
      match cancel
      case Some(k) => Finish(e, Exec(p, Repeat(period, k + 1), m0, cancel))
      case None =>
        var x := Exec(p, period, m0, cancel);
        if x.stop == BlockedAt then Finish(e, x)
        else RunOutcome(x.trace, e.(mailbox := x.m.mailbox), Diverges)
  }

  /** The synchronous branch of `Run`. */
  function SyncRun(e: Engine, cancel: Option<nat>): (r: RunOutcome)
    requires e.Wf() && e.err.None?
    ensures r.engine.(mailbox := e.mailbox, err := e.err) == e
    ensures r.status.Returned? ==> r.status.err == r.engine.err
    ensures !r.status.Launched?
  {
    RunPlan(e, SyncPlan(e.ptn), cancel)
  }

  /** `Run`: a latched error is returned at once; no parameters, or an engine
      built without arguments, runs synchronously; otherwise the run is
      launched on a detached goroutine, which is not modelled here beyond
      the `goRun` flag. */
  function Run(e: Engine, params: seq<Value>, cancel: Option<nat>): (r: RunOutcome)
    requires e.Wf()
    ensures e.err.Some? ==> r == RunOutcome([], e, Returned(e.err))
    ensures e.err.None? && (|params| == 0 || !e.typ) ==> r == SyncRun(e, cancel)
    ensures e.err.None? && |params| > 0 && e.typ ==>
      r.trace == [] && r.engine == e.(goRun := true) && r.status == Launched
  {
    if e.err.Some? then RunOutcome([], e, Returned(e.err))
    else if |params| == 0 || !e.typ then SyncRun(e, cancel)
    else RunOutcome([], e.(goRun := true), Launched)
  }

  /** The result of `GetReturns`. `Waits` is a receive from an empty mailbox. */
  datatype Fetch = Got(r: Returner, engine: Engine) | Refused(err: Error) | Waits

  /** `GetReturns`: a latched error wins over any buffered snapshot; otherwise
      the buffered returner is taken out of the mailbox. The `Wait` it performs
      once an asynchronous run has been launched is not modelled: this is the
      fetch that does not block on the completion signal. */
  function GetReturns(e: Engine): (f: Fetch)
    ensures f.Refused? <==> e.err.Some?
    ensures f.Got? ==> Some(f.r) == e.mailbox && f.engine == e.(mailbox := None)
    ensures f.Waits? <==> e.err.None? && e.mailbox.None?
  {
    if e.err.Some? then Refused(e.err.value)
    else match e.mailbox
      case None => Waits
      case Some(r) => Got(r, e.(mailbox := None))
  }
}
