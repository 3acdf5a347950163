/**
  The `over` channel, through which `Over` asks a running engine to stop
  (Delegator/Delegator.go). Every cancel check of the run loops is a
  receive from it, and the cancellation oracle of the run model is the
  index of the first check that receives. As written, `over` is unbuffered
  and both sides use a `select` with a `default` case: neither side ever
  waits for the other, so no check can receive and the oracle is always
  none. With a one-slot buffer the send would stay until the next check.
 */
module OverChannel {
  import opened Values
  import opened Delegator
  import opened RunLoop
  import opened RunFacts
  import opened AsyncRun

  /** One operation on `over`: the instant it is issued, and whether it waits
      for a partner (a plain send or receive) or gives up at once (a `select`
      with a `default` case). */
  datatype ChanOp = ChanOp(at: nat, waits: bool)

  /** On an unbuffered channel a send and a receive meet only when one of
      them is already waiting when the other is issued. */
  predicate Meet(send: ChanOp, recv: ChanOp) {
    (send.waits && send.at <= recv.at) || (recv.waits && recv.at <= send.at)
  }

  /** The oracle an unbuffered `over` yields: the first check from index `k`
      on that meets one of the sends. */
  function UnbufferedOracle(sends: seq<ChanOp>, checks: seq<ChanOp>, k: nat): (r: Option<nat>)
    ensures r.Some? ==> k <= r.value < |checks| && exists s :: s in sends && Meet(s, checks[r.value])
    ensures r.Some? ==> forall j, s :: k <= j < r.value && s in sends ==> !Meet(s, checks[j])
    ensures r.None? <==> forall j, s :: k <= j < |checks| && s in sends ==> !Meet(s, checks[j])
    decreases |checks| - k
  {
    if k >= |checks| then None
    else if exists s :: s in sends && Meet(s, checks[k]) then Some(k)
    else UnbufferedOracle(sends, checks, k + 1)
  }

  /** As written: `Over` sends without waiting (Delegator.go:267-270) and
      every check receives without waiting, so no send meets any check. */
  lemma {:induction false} OverNeverObserved(sends: seq<ChanOp>, checks: seq<ChanOp>, k: nat)
    requires forall s :: s in sends ==> !s.waits
    requires forall j :: 0 <= j < |checks| ==> !checks[j].waits
    ensures UnbufferedOracle(sends, checks, k) == None
    decreases |checks| - k
  {
    if k < |checks| {
      OverNeverObserved(sends, checks, k + 1);
    }
  }

  /** Hence a `Cycle` without arguments never stops, in either branch of
      `Run`, whatever `Over` calls are made while it runs. */
  lemma UnboundedCycleNeverStops(e: Engine, sends: seq<ChanOp>, checks: seq<ChanOp>)
    requires e.Wf() && e.err.None? && e.mailbox.None? && e.ptn == Pattern(Cycle, [])
    requires forall s :: s in sends ==> !s.waits
    requires forall j :: 0 <= j < |checks| ==> !checks[j].waits
    ensures SyncRun(e, UnbufferedOracle(sends, checks, 0)).status == Diverges
    ensures AsyncBody(e, UnbufferedOracle(sends, checks, 0)).status == Diverges
  {
    OverNeverObserved(sends, checks, 0);
    UnboundedCycleDiverges(e);
  }

  /** The oracle of a one-slot buffered `over`: `Over`'s send at instant `t`
      leaves its value in the buffer, and the first check from index `k` on
      that is issued at or after `t` receives it. */
  function BufferedOracle(t: nat, checks: seq<nat>, k: nat): (r: Option<nat>)
    ensures r.Some? ==> k <= r.value < |checks| && checks[r.value] >= t
    ensures r.Some? ==> forall j :: k <= j < r.value ==> checks[j] < t
    ensures r.None? <==> forall j :: k <= j < |checks| ==> checks[j] < t
    decreases |checks| - k
  {
    if k >= |checks| then None
    else if checks[k] >= t then Some(k)
    else BufferedOracle(t, checks, k + 1)
  }

  /** As intended: with a buffered `over`, an `Over` call made before some
      check stops a `Cycle` without arguments at the first check issued
      after it, once the periods before that check have run; both branches
      of `Run` do the same. */
  lemma BufferedOverStopsCycle(e: Engine, t: nat, checks: seq<nat>)
    requires e.Wf() && e.err.None? && e.mailbox.None? && e.ptn == Pattern(Cycle, [])
    requires exists j :: 0 <= j < |checks| && checks[j] >= t
    ensures BufferedOracle(t, checks, 0).Some?
    ensures
      var k := BufferedOracle(t, checks, 0).value;
      && SyncRun(e, Some(k)) == RunOutcome(Repeat(CyclePeriod(e), k) + [CancelCheck], e, Cancelled)
      && AsyncBody(e, Some(k)) == SyncRun(e, Some(k))
  {
    UnboundedCycleRun(e, BufferedOracle(t, checks, 0).value);
  }
}
