# Didi: delegation engine, proxy registry and worker pool in Dafny

Didi is a small Go library. Its `Delegator` queues callables together with
bound arguments and per-task delays, and runs the queue under one of four
carry patterns:

- `Normal`: one pass.
- `Cycle`: repeated passes, a given number of them or without end. As written, `Over` cannot stop the unbounded loop (see Findings).
- `TimeOut`: one pass after a delay.
- `Tick`: a fixed number of passes with an interval between them.

Each pass publishes a snapshot of every task's outputs into a one-slot
return mailbox. `GetReturns` takes that snapshot out, and `returner.Get`
reads single values from it. A `Proxy` keeps named delegators in a map and
in a list, and dispatches to them by name or by position. The `Pool`
package is a fixed table of worker slots that tasks are assigned to first
fit.

The model is functional:

- Engines, registries and pools are immutable records.
- Builder calls (`Load`, `Quick`, `Same`, `Join`, `SetTime`, `SetPattern`) are pure functions.
- A synchronous `Run` is a pattern-specific instruction program (`RunLoop.SyncPlan`). A machine executes it against the mailbox and a cancellation oracle. The oracle is the index of the `over` check that sees a cancel, or none. `OverChannel` derives the oracle from the timing of the channel operations; as written it is always none.
- A run yields an event trace, the new engine and a status. The status is returned with an error, cancelled, blocked on the mailbox, diverging or launched.

The asynchronous branch of `Run` is modelled through what its goroutine
does to the engine (`AsyncRun.AsyncBody`). That covers its own `Cycle`
count coercion and the error deposit on every `TimeOut` path and on the
`Tick` fault paths. Go's `strconv.Atoi` is part of that coercion. The standard library
is not part of this repository, so `GoAtoi` models Atoi from its documented
behaviour on a 64-bit platform.

Files:

- `values.dfy`: shared value, kind and error types.
- `delegator.dfy`: the engine and its builder calls, one pass, and the returner.
- `builder.dfy`: chains of builder calls.
- `runloop.dfy`: the synchronous run, `Run` and `GetReturns`.
- `runfacts.dfy`: the machine and the `Cycle` pattern.
- `patterns.dfy`: the other patterns.
- `atoi.dfy`: `strconv.Atoi`.
- `async.dfy`: the asynchronous branch.
- `over.dfy`: the `over` channel and the cancellation oracle.
- `proxy.dfy`: the registry.
- `pool.dfy`: the worker pool.

Two behaviours worth knowing:

- An asynchronous `TimeOut` deposits the error field on the returner's error
  channel on every path, including after a valid `Duration`, where the
  deposit is nil (Delegator/Delegator.go:502-506). A `GetReturns` called after
  the goroutine reached its final `signal` send reports a latched fault
  instead of the returner (`AsyncRun.FetchAfterRun`). One called while the goroutine runs passes its
  error check, waits for the goroutine and hands out the returner, and
  `BackError` then receives the fault (`AsyncRun.FetchDuringRun`).
- `Pool.Now` counts assigned workers, although the interface comment at
  Pool/pool.go:17 speaks of idle ones.

## Model

| member | source | states |
|---|---|---|
| Delegator.New | Delegator/Delegator.go:97-136 | a new engine has empty and aligned queues, no error, an empty mailbox, the Normal pattern with no arguments, and is asynchronous-capable exactly when `New` got arguments |
| Delegator.Bind | Delegator/Delegator.go:146-166 | each parameter with a supplied argument binds that argument, extra arguments are ignored, and a missing parameter gets its kind's zero default (none for kinds without one) |
| Delegator.LoadUnchecked | Delegator/Delegator.go:138-178 | `load` appends one task, a zero delay and the name to the three queues; it latches the load fault exactly when a missing parameter has no default, and appends that task anyway |
| Delegator.Load | Delegator/Delegator.go:181-187 | `Load` does nothing once an error is latched, and is `load` otherwise |
| Delegator.LoadTimes | Delegator/Delegator.go:205-207 | `k` calls of `load` append `k` copies of the bound task, `k` zero delays and `k` names, and latch the load fault when `k > 0` and the callable cannot be filled |
| Delegator.Same | Delegator/Delegator.go:201-209 | `Same` appends `max(num, 0)` copies of the bound task after the existing ones and keeps the queues aligned; it latches an error iff `num > 0` and a parameter cannot be filled, and does nothing once an error is latched |
| Delegator.FirstUnfillable | Delegator/Delegator.go:190-198 | the position where `Quick` meets its first callable with a parameter that has no default: every earlier callable is fillable, and none means all are |
| Delegator.LoadEach | Delegator/Delegator.go:190-198 | `Quick`'s loop grows the three queues by the same amount and changes no configuration field |
| Delegator.LoadEachStopsAtFault | Delegator/Delegator.go:190-198 | `Quick` loads the callables in order, with no arguments, up to and including the first unfillable one, and latches the load fault exactly when there is one |
| Delegator.Quick | Delegator/Delegator.go:190-198 | a latched error makes `Quick` a no-op |
| Delegator.Join | Delegator/Delegator.go:581-591 | `Join` appends the other engine's tasks, delays and names after the receiver's, in order, keeps them aligned and changes nothing else; a latched error makes it a no-op |
| Delegator.SetTime | Delegator/Delegator.go:594-607 | an index outside the name list sets every delay to `t`, an index inside sets only that delay; nothing else changes, and a latched error makes it a no-op |
| Delegator.SetPattern | Delegator/Delegator.go:609-620 | codes 0 to 4 store the code and its arguments; any other code becomes the ineffective code and keeps the previous arguments; queues and error unchanged |
| Delegator.DefaultIsZero | Delegator/Delegator.go:151-162 | a missing argument gets the zero value of its parameter's kind, and a kind outside the table gets none |
| Delegator.PassShape | Delegator/Delegator.go:294-307 | one pass alternates each task's delay and its call, in queue order, so it makes exactly one call per queued task |
| Delegator.OutputMapShape | Delegator/Delegator.go:303-306 | a task's inner output map holds exactly its output positions, each bound to its output |
| Delegator.SnapshotShape | Delegator/Delegator.go:289-311 | after a pass the snapshot has exactly one entry per queue position, and the entry of a task holds its outputs by position (empty for a task with none) |
| Builder.Apply | Delegator/Delegator.go:181-209 | every builder call keeps the three queues aligned, never touches the mailbox, the asynchronous flag or `typ`, and is a no-op once an error is latched |
| Builder.JoinCarriesUnfilled | Delegator/Delegator.go:581-591 | `Join` checks only the receiver's error: the joined engine keeps no error and holds a task with an unfilled slot exactly when either engine does |
| Builder.JoinBypassesLatch | Delegator/Delegator.go:581-591 | an engine that latched the load fault hands its unfillable task to a fresh receiver, which keeps no error |
| Builder.ApplyAll | Delegator/Delegator.go:138-178 | any chain of builder calls keeps the queues aligned and the run-time fields unchanged |
| Builder.ErrorSticks | Delegator/Delegator.go:181-187 | once a chain latches an error, every later call in the chain changes nothing |
| Builder.LatchedChain | Delegator/Delegator.go:582-584 | a chain of builder calls on an engine with a latched error returns it unchanged |
| Builder.JoinedPass | Delegator/Delegator.go:586-588 | a pass over a joined engine is the receiver's pass followed by the other engine's pass, with its positions shifted past the receiver's queue |
| RunLoop.SyncCycleCount | Delegator/Delegator.go:331-350 | the synchronous `Cycle` loop is unbounded exactly without arguments; an int argument is the count and any other argument means one pass |
| RunLoop.SyncPlan | Delegator/Delegator.go:320-417 | only a `Cycle` without arguments runs forever; Normal, TimeOut and Tick open with a cancel check; TimeOut latches its fault exactly when its argument is not a `Duration`; codes 4 and 5 run nothing |
| RunLoop.StepChannels | Delegator/Delegator.go:289-417 | a check stops the run exactly when the oracle names it; a publish into the full one-slot mailbox, and a drain or deposit from the empty one, block; a publish leaves the pass's returner buffered and a drain empties the mailbox |
| RunLoop.Exec | Delegator/Delegator.go:320-417 | a program never takes back a check, and a cancelled one stopped at the check the oracle names |
| RunLoop.RunPlan | Delegator/Delegator.go:320-417 | running a pattern changes only the mailbox and the error field, a returned error is the latched one, and a pattern run is never a launch |
| RunLoop.SyncRun | Delegator/Delegator.go:318-418 | the synchronous branch changes only the mailbox and the error field, and returns the latched error when it returns |
| RunLoop.Run | Delegator/Delegator.go:314-421 | a latched error is returned at once with nothing run; no parameters or an engine without `typ` runs synchronously; otherwise the run is only launched, the asynchronous flag is set and the latched error (none) is returned |
| RunLoop.GetReturns | Delegator/Delegator.go:563-574 | a latched error is reported instead of any buffered snapshot; otherwise the buffered returner is taken out of the mailbox, and an empty mailbox waits |
| RunPatterns.CancelAtEntry | Delegator/Delegator.go:320-390 | Normal, TimeOut and Tick check for cancellation exactly once, first: a cancel seen there returns nil having run nothing, and a later cancel is never seen |
| RunPatterns.NormalRun | Delegator/Delegator.go:321-327 | Normal from an empty mailbox runs one pass after the check, leaves its snapshot buffered and returns nil |
| RunPatterns.NormalBlocked | Delegator/Delegator.go:289-311 | a pass into a mailbox still holding a snapshot dispatches every task and then blocks on the publish |
| RunPatterns.NormalTwiceBlocks | Delegator/Delegator.go:321-327 | two Normal runs without a `GetReturns` in between: the second blocks |
| RunFacts.CycleRun | Delegator/Delegator.go:341-364 | a bounded Cycle from an empty mailbox makes passes until its count is reached or a check sees the cancel, returns nil unless cancelled, and leaves the last snapshot buffered when any pass ran |
| RunFacts.CycleRunCounts | Delegator/Delegator.go:342-364 | a bounded Cycle with an int count `n` (a non-int argument meaning 1) publishes `max(n, 0)` snapshots unless cancelled earlier, checks before every pass, and drains before every pass but the first |
| RunFacts.UnboundedCycleRun | Delegator/Delegator.go:331-340 | a Cycle without arguments cancelled at check `k` runs `k` full periods of check, pass and drain, then returns nil with the mailbox empty |
| RunFacts.UnboundedCycleDiverges | Delegator/Delegator.go:331-340 | a Cycle without arguments that is never cancelled does not return |
| RunPatterns.TimeOutRun | Delegator/Delegator.go:365-383 | TimeOut sleeps a `Duration` argument before the pass and returns nil; without arguments it runs the pass and then latches the time-parameter fault; with a non-Duration argument it latches the fault first and still runs the pass |
| RunPatterns.TickRun | Delegator/Delegator.go:385-416 | Tick with a (Duration, int) pair runs its loop and returns nil with the mailbox as it found it; otherwise it runs one pass and then latches the tick-parameter fault |
| RunPatterns.TickRunCounts | Delegator/Delegator.go:400-408 | a valid Tick with count `n` publishes and drains `max(n, 0)` snapshots, pauses its `Duration` between consecutive passes (`max(n - 1, 0)` times), checks for cancellation once, and ends on a drain |
| RunPatterns.TickTotal | Delegator/Delegator.go:398-408 | for a pass without pauses of its own, the Tick loop's trace after its one cancel check holds `max(n, 0)` publishes and drains, `max(n - 1, 0)` pauses of the tick `Duration`, and ends on a drain when `n > 0` |
| RunPatterns.IneffectiveRun | Delegator/Delegator.go:320-417 | a pattern code outside 0 to 3 matches no case: nothing runs and nil is returned |
| RunPatterns.FaultHidesSnapshot | Delegator/Delegator.go:372-375 | after a TimeOut without arguments the published snapshot stays buffered but cannot be fetched: `GetReturns` and every later `Run` report the latched fault |
| RunPatterns.NormalRunReturns | Delegator/Delegator.go:623-635 | on the returner a Normal run publishes, `Get` succeeds exactly for a queue position and one of that task's output positions, gives that output, fails with NotFound otherwise, and no error is deposited |
| AsyncRun.AsyncCycleCount | Delegator/Delegator.go:435-458 | the asynchronous `Cycle` loop is unbounded exactly without arguments or with the int -1; an int is the count, a string its `Atoi` value, and anything else one pass |
| AsyncRun.AsyncPlan | Delegator/Delegator.go:424-554 | the goroutine runs forever exactly for an unbounded `Cycle`, and the program of a depositing pattern ends with the deposit |
| AsyncRun.AsyncBody | Delegator/Delegator.go:422-557 | the goroutine changes only the mailbox and the error field, and returns the latched error when it ends |
| AsyncRun.CycleCountsDiffer | Delegator/Delegator.go:435-458 | the two Cycle coercions differ only on the int -1 (zero passes synchronously, unbounded asynchronously) and on a string (one pass synchronously, its Atoi value asynchronously) |
| AsyncRun.StringCountMatchesInt | Delegator/Delegator.go:450-454 | a count written as a decimal string gives the same passes as the int itself, except -1, whose int form selects the unbounded loop |
| AsyncRun.PlansAgree | Delegator/Delegator.go:424-554 | apart from Cycle, the goroutine runs the synchronous program, followed by a deposit on every TimeOut path and on Tick's fault paths |
| AsyncRun.DepositFollowsSync | Delegator/Delegator.go:502-506 | a deposit takes the buffered returner and puts it back with the error field on its error channel; with no returner buffered it blocks |
| AsyncRun.AsyncTimeOutDeposit | Delegator/Delegator.go:475-506 | an asynchronous TimeOut leaves the pass's returner buffered with nil deposited after a valid Duration, and with the time-parameter fault deposited and latched otherwise |
| AsyncRun.FetchAfterRun | Delegator/Delegator.go:563-574 | a `GetReturns` that starts after an asynchronous TimeOut reached its final `signal` send (and receives it) reports the latched fault instead of the returner carrying it; after a valid `Duration` it hands out the returner, on which `BackError` receives nil |
| AsyncRun.GetReturnsDuring | Delegator/Delegator.go:563-574 | a `GetReturns` that passes its error check (and the one in `Wait`, Delegator.go:249-256) before the goroutine writes the error field is refused exactly when the caller saw an error, and otherwise takes the returner the goroutine left in the mailbox; when the error field did not change it is the plain `GetReturns` |
| AsyncRun.FetchDuringRun | Delegator/Delegator.go:502-506 | a `GetReturns` entered while an asynchronous TimeOut runs hands out the pass's returner, and `BackError` on it receives the time-parameter fault when the argument is not a `Duration`, nil otherwise |
| OverChannel.UnbufferedOracle | Delegator/Delegator.go:261-272 | on the unbuffered `over` the first check that meets a send is observed; none is observed exactly when no check meets any send |
| OverChannel.OverNeverObserved | Delegator/Delegator.go:267-270 | a send that does not wait never meets a check that does not wait, so the oracle is none |
| OverChannel.UnboundedCycleNeverStops | Delegator/Delegator.go:331-340 | a `Cycle` without arguments diverges in both branches of `Run`, whatever `Over` calls are made |
| OverChannel.BufferedOracle | Delegator/Delegator.go:267-270 | with a one-slot buffer the first check issued at or after the send observes it, and none is observed exactly when every check comes earlier |
| OverChannel.BufferedOverStopsCycle | Delegator/Delegator.go:331-340 | with a buffered `over`, a `Cycle` without arguments stops at the first check after the `Over` call, after the periods before it, in both branches of `Run` |
| GoAtoi.Atoi | Delegator/Delegator.go:452 | the count read from a string always lies within int64 |
| GoAtoi.FastPathAgrees | Delegator/Delegator.go:452 | Atoi's fast path for inputs shorter than 19 bytes gives the same value as the general path |
| GoAtoi.AtoiShow | Delegator/Delegator.go:452 | Atoi reads back every int64 written in decimal |
| GoAtoi.AtoiOverflowFirst | Delegator/Delegator.go:452 | digits that overflow uint64 give the largest int64, even when other characters follow |
| GoAtoi.AtoiOverflowFirstNeg | Delegator/Delegator.go:452 | the same after a minus sign gives the smallest int64 |
| GoAtoi.AtoiSyntax | Delegator/Delegator.go:452 | every string that does not parse gives 0: the empty string, a lone sign, and digits within uint64 after the optional sign followed by any character that is not a digit |
| Delegator.Get | Delegator/Delegator.go:623-635 | `Get` succeeds exactly when both keys are present, with the stored value, and fails with NotFound otherwise |
| Delegator.BackError | Delegator/Delegator.go:637-639 | `BackError` blocks exactly when nothing is deposited; otherwise it receives the deposit and leaves the channel empty and the values unchanged |
| Delegator.DepositThenBackError | Delegator/Delegator.go:502-506 | a deposit into an empty error channel is received by the next `BackError`, which restores the returner, and a second `BackError` blocks |
| Proxy.NewRegistry | Delegator/Proxy.go:31-33 | a new registry is empty and consistent |
| Proxy.Register | Delegator/Proxy.go:39-49 | a name already in the map is refused with nothing changed; a fresh name gets a unit numbered by the counter, in the map and at the end of the list, and the counter grows by one |
| Proxy.RegisterConsistent | Delegator/Proxy.go:39-49 | registering keeps the map, the list and the counter in agreement |
| Proxy.RegisterAllNumbers | Delegator/Proxy.go:43-46 | from an empty registry, any sequence of registrations numbers every unit by its list position |
| Proxy.Get | Delegator/Proxy.go:51-57 | `Get` succeeds exactly for a name in the map, with that unit's engine, and fails with target-not-found otherwise |
| Proxy.LastMatch | Delegator/Proxy.go:60-67 | the scan finds no position iff no unit has the name, and otherwise the last unit with it |
| Proxy.Delete | Delegator/Proxy.go:59-77 | an unknown name is an error with nothing changed; otherwise the name leaves the map, the counter drops by one, and the list becomes its first `pos` units followed by its first `pos + 1` units |
| Proxy.DeleteKeepsDeletedUnit | Delegator/Proxy.go:73 | after a successful literal delete the deleted unit is still the last list entry, the list has `2 * pos + 1` entries, and the registry is never consistent |
| Proxy.DeleteCounterexample | Delegator/Proxy.go:73 | deleting "a" from ["a", "b"] leaves ["a"]; deleting "b" leaves ["a", "a", "b"], so a later full `Flow` dispatches to "a" twice and to the deleted "b" too; the intended removal leaves ["b"] and ["a"]. Here an engine's run is a parameter without state; a real engine's second synchronous Normal run blocks unless `GetReturns` was called in between (`RunPatterns.NormalTwiceBlocks`) |
| Proxy.DeleteRepeats | Delegator/Proxy.go:62-74 | the deleted name can be deleted again and again, driving the counter below zero |
| Proxy.DeleteIntended | Delegator/Proxy.go:59-77 | the intended delete removes the last unit with the name and nothing else |
| Proxy.DeleteIntendedConsistent | Delegator/Proxy.go:72-74 | the intended delete keeps a consistent registry consistent, and the name leaves both the map and the list |
| Proxy.Execute | Delegator/Proxy.go:98-108 | an unknown name is an error; otherwise the named engine runs, with no parameter or with the first argument only |
| Proxy.ExecuteMatchesGet | Delegator/Proxy.go:98-108 | `Execute` runs exactly the engine `Get` returns for the name |
| Proxy.RunEach | Delegator/Proxy.go:119-125 | running the list stops at the first error and returns it; nil means every engine ran, in list order |
| Proxy.Flow | Delegator/Proxy.go:111-151 | an index past the counter runs nothing and is an error; a negative index runs the list in order until the first error; any other index runs that entry, and panics past the list's end |
| Proxy.FlowConsistent | Delegator/Proxy.go:111-151 | on a consistent registry `Flow` never panics, and an accepted index runs the unit at that position |
| Proxy.BackReturn | Delegator/Proxy.go:79-95 | an int selects by list position and a string by name; an unknown position or name panics; no argument or another type is the wrong-first-parameter error |
| Proxy.BackReturnSelectorsAgree | Delegator/Proxy.go:85-91 | on a consistent registry, selecting by position and by the name at that position fetch the same returns |
| Proxy.BackReturnErrorPaths | Delegator/Proxy.go:80-94 | the error paths of `BackReturn` never consult an engine |
| WorkerPool.New | Pool/pool.go:38-52 | no pool for a capacity of zero or less; otherwise `cap` idle workers and an enabled pool |
| WorkerPool.FirstIdle | Pool/pool.go:59-63 | the scan finds the lowest-index idle worker, and none iff every worker is assigned |
| WorkerPool.Assign | Pool/pool.go:54-85 | `Assign` never changes the number of workers or the enabled flag |
| WorkerPool.AssignFirstFit | Pool/pool.go:54-85 | a disabled pool or one without an idle worker drops its tasks; otherwise exactly the lowest idle worker becomes assigned with all of them, the others are untouched, and the busy count grows by one |
| WorkerPool.Finish | Pool/pool.go:72-75 | a task finishing never changes the number of workers or the enabled flag |
| WorkerPool.FinishFrees | Pool/pool.go:72-75 | a finishing task clears its worker's flag even while other tasks of that worker run |
| WorkerPool.Trigger | Pool/pool.go:93-99 | `Trigger` flips the enabled flag and leaves the workers untouched |
| WorkerPool.TriggerTwice | Pool/pool.go:93-99 | two `Trigger`s in a row restore the pool |
| WorkerPool.LenInvariant | Pool/pool.go:101-103 | no sequence of assignments, completions and toggles changes `Len` |
| WorkerPool.Now | Pool/pool.go:105-113 | `Now` returns the number of assigned workers, between 0 and `Len` |
| WorkerPool.CountBusyIsSetSize | Pool/pool.go:105-113 | counting the flags in one scan gives the size of the set of assigned workers, at most the number of workers |
| WorkerPool.StuckStaysStuck | Pool/pool.go:63-80 | a worker marked assigned with no outstanding task stays assigned whatever happens later |
| WorkerPool.EmptyAssignSticks | Pool/pool.go:63-80 | `Assign` with no tasks on an enabled pool marks a worker assigned that nothing ever frees |

## Left out

- Goroutines and channels: the one-slot `returns` mailbox and the returner's error channel are modelled. `over` is modelled only through the timing of its operations (`OverChannel`). The other channels are not: `stop`/`start` (the pause gate in `run`) and `signal` (the completion signal). Of the asynchronous goroutine's interleavings with the caller, only the one `AsyncRun.GetReturnsDuring` describes is modelled.
- RunLoop.RunPlan: the cancellation oracle over-approximates the program. A `Some` oracle stands for a cancel that, as written, no check can ever receive (`OverChannel.OverNeverObserved`); the Cancelled outcomes of the run lemmas are those of the buffered channel the code evidently intends.
- The control methods `Stop`, `Start`, `Wait`, `Over` and `Sleep`, and the console helpers `ShowMembers` and `Genshin`, are not part of this model.
- Reflection: a callable is its name, its parameter kinds and fixed outputs. A call with mistyped arguments panics in the source; the model does not model that panic. Stored names are the callable's name, not the formatted name-and-signature string.
- Builder.JoinedPass: a task with an unfilled slot is called like any other, while the source's call panics (Delegator/Delegator.go:169). `Join` can bring such a task into an engine with no latched error (`Builder.JoinCarriesUnfilled`).
- Delegator.SetPattern: the source stores the caller's variadic slice itself (Delegator/Delegator.go:617), so a caller that later changes that slice changes the pattern's arguments. The model copies the arguments.
- Delegator.Bind: a missing float32 parameter gets a float64 zero in the source. The later reflective call would then panic. The model gives the same float zero to both float widths.
- Time: durations are plain integers, and sleeps are events in the trace. Nothing measures time.
- RunLoop.Run: Go distinguishes a nil variadic list from an empty one. The model treats no parameters as the synchronous case.
- RunLoop.Run: after a launch the source returns `d.err`, which the goroutine may be writing at the same moment. The model returns the error latched at launch time, which is none.
- Monitor/monitor.go is not part of this model. It is a timer-driven background goroutine with channel handshakes and no sequential logic worth stating.
- RunLoop.GetReturns: does not model the `Wait` that `GetReturns` performs once `goRun` is set. `goRun` is set when an asynchronous run launches (Delegator/Delegator.go:421) and never reset, so every later `GetReturns` that passes its error check calls `Wait`, which receives from the unbuffered `signal` (Delegator/Delegator.go:249-256). Each goroutine sends on `signal` once, so only the first such receive after a launch returns. After `New(1)`, `Load(f)`, `Run(1)`, `GetReturns`, a synchronous `Run()` and a second `GetReturns`, the source blocks for ever in the second call while the model returns `Got`; a user `Wait` followed by `GetReturns` blocks likewise. `AsyncRun.GetReturnsDuring` and `AsyncRun.FetchAfterRun` model the one fetch that receives the signal. The interleaving in which the error field changes between the check in `GetReturns` and the one in `Wait` is left out.
- RunLoop.RunPlan: an unbounded Cycle that is never cancelled is reported as `Diverges`, with one period as its trace. The infinite trace is not built.
- Integers: Go's `int` is 64 bits. Counts, indices and delays are unbounded here. Only the Atoi coercion models the 64-bit bounds.
- GoAtoi.Atoi: the error value is not modelled, because the caller discards it. Go's standard library is not part of this model. The definition follows its documented behaviour for base 10 with a 64-bit `int`.
- Proxy: engines are abstract identifiers, and their `Run` and `GetReturns` are function parameters. The message `Flow` prints on an error is not modelled. The returner field of a unit is never set in the source, so it is left out.
- Pool: the message `New` prints for a capacity of zero or less is not modelled (Pool/pool.go:40-41), only the nil result. The wait group and `Wait` are not modelled, and neither is the running of a task itself. The data race between a finishing task and a concurrent `Assign` is also left out. A finishing task is an explicit step instead.

## Findings

| source | as written | input that shows it | evidently intended | confidence | as-written member | corrected member |
|---|---|---|---|---|---|---|
| Delegator/Proxy.go:73 | the list becomes `dArr[:pos]` followed by `dArr[:pos+1]`, which keeps the deleted unit and drops everything after it | register "a" then "b" and delete "b": the list becomes ["a", "a", "b"] while the map and the counter say one member | `dArr[:pos]` followed by `dArr[pos+1:]`, removing the unit | high; not executed | Proxy.DeleteKeepsDeletedUnit | Proxy.DeleteIntendedConsistent |
| Delegator/Delegator.go:267-270 | `Over` sends on the unbuffered `over` channel (made at lines 106 and 124) inside a `select` with a `default` case, and every cancel check receives the same way, so neither side waits and no cancel is ever received | start an asynchronous `Cycle` without arguments and call `Over`: the loop never stops | a cancel that the next check receives, for instance with `over` buffered to one slot | high; not executed | OverChannel.UnboundedCycleNeverStops | OverChannel.BufferedOverStopsCycle |
