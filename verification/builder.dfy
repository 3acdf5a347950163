/**
  Facts about sequences of queue-building calls on one engine: the three
  queue sequences stay aligned, the run-time fields are never touched, a
  latched error turns every later call into a no-op, and `Join`
  concatenates passes.
 */
module Builder {
  import opened Values
  import opened Delegator

  /** One chained builder call. */
  datatype BuildOp =
    | LoadOp(f: Func, args: seq<Value>)
    | QuickOp(fs: seq<Func>)
    | SameOp(f: Func, num: int, args: seq<Value>)
    | JoinOp(other: Engine)
    | SetTimeOp(t: int, index: int)
    | SetPatternOp(code: int, pargs: seq<Value>)

  /** A joined engine must itself be well formed. */
  predicate OpOk(op: BuildOp) {
    op.JoinOp? ==> op.other.Wf()
  }

  /** One builder call on `e`: it keeps the queue sequences aligned, never
      touches the mailbox, the asynchronous flags or the configured typ, and
      is a no-op once an error is latched. */
  function Apply(e: Engine, op: BuildOp): (r: Engine)
    requires e.Wf() && OpOk(op)
    ensures r.Wf()
    ensures e.err.Some? ==> r == e
    ensures r.mailbox == e.mailbox && r.goRun == e.goRun && r.typ == e.typ
  {
    match op
    case LoadOp(f, args) => Load(e, f, args)
    case QuickOp(fs) => Quick(e, fs)
    case SameOp(f, num, args) => Same(e, f, num, args)
    case JoinOp(other) => Join(e, other)
    case SetTimeOp(t, index) => SetTime(e, t, index)
    case SetPatternOp(code, pargs) => SetPattern(e, code, pargs)
  }

  /** A chain of builder calls, left to right. */
  function ApplyAll(e: Engine, ops: seq<BuildOp>): (r: Engine)
    requires e.Wf() && forall k :: 0 <= k < |ops| ==> OpOk(ops[k])
    ensures r.Wf()
    ensures r.mailbox == e.mailbox && r.goRun == e.goRun && r.typ == e.typ
    decreases |ops|
  {
    if |ops| == 0 then e else ApplyAll(Apply(e, ops[0]), ops[1..])
  }

  /** Once the chain latches an error, the rest of the chain changes nothing;
      in particular an engine that starts with an error is returned as is. */
  lemma {:induction false} ErrorSticks(e: Engine, ops1: seq<BuildOp>, ops2: seq<BuildOp>)
    requires e.Wf()
    requires forall k :: 0 <= k < |ops1| ==> OpOk(ops1[k])
    requires forall k :: 0 <= k < |ops2| ==> OpOk(ops2[k])
    ensures forall k :: 0 <= k < |ops1 + ops2| ==> OpOk((ops1 + ops2)[k])
    ensures ApplyAll(e, ops1).err.Some? ==>
      ApplyAll(e, ops1 + ops2) == ApplyAll(e, ops1) && ApplyAll(ApplyAll(e, ops1), ops2) == ApplyAll(e, ops1)
    decreases |ops1|
  {
    assert forall k :: 0 <= k < |ops1 + ops2| ==> OpOk((ops1 + ops2)[k]) by {
      forall k | 0 <= k < |ops1 + ops2| ensures OpOk((ops1 + ops2)[k]) {
        if k >= |ops1| {
          assert (ops1 + ops2)[k] == ops2[k - |ops1|];
        }
      }
    }
    if |ops1| == 0 {
      assert ops1 + ops2 == ops2;
      if e.err.Some? {
        LatchedChain(e, ops2);
      }
    } else {
      assert (ops1 + ops2)[0] == ops1[0];
      assert (ops1 + ops2)[1..] == ops1[1..] + ops2;
      ErrorSticks(Apply(e, ops1[0]), ops1[1..], ops2);
    }
  }

  /** A chain on an engine with a latched error returns it unchanged. */
  lemma {:induction false} LatchedChain(e: Engine, ops: seq<BuildOp>)
    requires e.Wf() && e.err.Some?
    requires forall k :: 0 <= k < |ops| ==> OpOk(ops[k])
    ensures ApplyAll(e, ops) == e
    decreases |ops|
  {
    if |ops| > 0 {
      LatchedChain(Apply(e, ops[0]), ops[1..]);
    }
  }

  /** A dispatch event with queue positions moved up by `k`. */
  function Shift(ev: Event, k: int): Event {
    if ev.Call? then Call(ev.i + k) else ev
  }

  /** A trace with every call's queue position moved up by `k`. */
  function Shifted(t: seq<Event>, k: int): (r: seq<Event>)
    ensures |r| == |t|
    ensures forall j :: 0 <= j < |t| ==> r[j] == Shift(t[j], k)
  {
    seq(|t|, j requires 0 <= j < |t| => Shift(t[j], k))
  }

  /** The second engine's part of a joined pass: its own pass, renumbered. */
  lemma {:induction false} JoinTail(a: Engine, b: Engine, j: nat)
    requires a.Wf() && b.Wf() && a.err.None? && j <= |b.fs|
    ensures Join(a, b).Wf()
    ensures PassFrom(Join(a, b), |a.fs| + j) == Shifted(PassFrom(b, j), |a.fs|)
    decreases |b.fs| - j
  {
    var c := Join(a, b);
    if j < |b.fs| {
      JoinTail(a, b, j + 1);
      var rest := PassFrom(b, j + 1);
      assert PassFrom(b, j) == [Sleep(b.sleeper[j]), Call(j)] + rest;
      assert c.sleeper[|a.fs| + j] == b.sleeper[j];
      assert Shifted([Sleep(b.sleeper[j]), Call(j)] + rest, |a.fs|)
          == [Sleep(b.sleeper[j]), Call(|a.fs| + j)] + Shifted(rest, |a.fs|);
    }
  }

  /** The first engine's part of a joined pass is its own pass. */
  lemma {:induction false} JoinHead(a: Engine, b: Engine, i: nat)
    requires a.Wf() && b.Wf() && a.err.None? && i <= |a.fs|
    ensures Join(a, b).Wf()
    ensures PassFrom(Join(a, b), i) == PassFrom(a, i) + Shifted(PassTrace(b), |a.fs|)
    decreases |a.fs| - i
  {
    if i == |a.fs| {
      JoinTail(a, b, 0);
    } else {
      JoinHead(a, b, i + 1);
      var c := Join(a, b);
      assert c.sleeper[i] == a.sleeper[i];
    }
  }

  /** `Join` runs the receiver's tasks first, then the other engine's, with
      the other engine's delays and positions shifted past the receiver's
      queue. */
  lemma JoinedPass(a: Engine, b: Engine)
    requires a.Wf() && b.Wf() && a.err.None?
    ensures Join(a, b).Wf()
    ensures PassTrace(Join(a, b)) == PassTrace(a) + Shifted(PassTrace(b), |a.fs|)
  {
    JoinHead(a, b, 0);
  }

  /** `Join` consults only the receiver's latch: the joined engine holds a
      task with an unfilled slot exactly when one of the two engines does,
      and it keeps the receiver's error field. */
  lemma JoinCarriesUnfilled(a: Engine, b: Engine)
    requires a.err.None?
    ensures Join(a, b).err.None?
    ensures HasUnfilled(Join(a, b)) <==> HasUnfilled(a) || HasUnfilled(b)
  {
    var c := Join(a, b);
    if HasUnfilled(a) {
      var i :| 0 <= i < |a.fs| && None in a.fs[i].args;
      assert c.fs[i] == a.fs[i];
    }
    if HasUnfilled(b) {
      var i :| 0 <= i < |b.fs| && None in b.fs[i].args;
      assert c.fs[|a.fs| + i] == b.fs[i];
    }
    if HasUnfilled(c) {
      var i :| 0 <= i < |c.fs| && None in c.fs[i].args;
      if i >= |a.fs| {
        assert c.fs[i] == b.fs[i - |a.fs|];
      }
    }
  }

  /** A callable whose only parameter has no default. */
  const Opaque: Func := Func("f", [OtherK], [])

  /** An engine that latched the load fault hands its unfillable task to a
      receiver with no error; the receiver's pass would call it. */
  lemma JoinBypassesLatch()
    ensures Load(New([]), Opaque, []).err == Some(LoadFault)
    ensures Join(New([]), Load(New([]), Opaque, [])).err.None?
    ensures HasUnfilled(Join(New([]), Load(New([]), Opaque, [])))
  {
    var b := Load(New([]), Opaque, []);
    assert Unfillable(Opaque, []) by { assert Opaque.params[0] == OtherK; }
    assert b.fs[0].args[0] == None;
    assert Join(New([]), b).fs[0] == b.fs[0];
  }
}
