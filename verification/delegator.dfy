/**
  The delegation engine's state and its queue-building operations
  (Delegator/Delegator.go). Tasks are abstract: a callable is its name,
  its parameter kinds and the fixed outputs it yields when called.
 */
module Delegator {
  import opened Values

  /** A callable as the engine sees it through reflection. */
  datatype Func = Func(name: string, params: seq<Kind>, outputs: seq<Value>)

  /** A queued task: the callable and one bound slot per parameter. A slot is
      `None` when the argument was missing and its kind has no default; such a
      slot is Go's invalid zero `reflect.Value`. */
  datatype Task = Task(f: Func, args: seq<Option<Value>>)

  /** Pattern codes: the `iota` constants at the head of the source file. */
  const Normal := 0
  const Cycle := 1
  const TimeOut := 2
  const Tick := 3
  const Max := 4          // placeholder, accepted by SetPattern
  const Ineffective := 5

  datatype Pattern = Pattern(code: int, args: seq<Value>)

  /** One pass's outputs: task position -> output position -> value. */
  type Snapshot = map<int, map<int, Value>>

  /** The return store of one pass: its outputs and the one-slot deferred-error
      channel (`None` while nothing has been deposited). */
  datatype Returner = Returner(vals: Snapshot, errSlot: Option<Option<Error>>)

  /** The engine. `mailbox` is the capacity-one `returns` channel. */
  datatype Engine = Engine(
    fs: seq<Task>,
    names: seq<string>,
    sleeper: seq<int>,
    ptn: Pattern,
    err: Option<Error>,
    typ: bool,
    goRun: bool,
    mailbox: Option<Returner>)
  {
    /** The three parallel queue sequences have the same length. */
    predicate Wf() {
      |fs| == |names| && |sleeper| == |fs|
    }
  }

  /** `New`: any argument makes the engine asynchronous-capable. */
  function New(args: seq<Value>): (e: Engine)
    ensures e.Wf() && |e.fs| == 0
    ensures e.err == None && e.mailbox == None && !e.goRun
    ensures e.typ <==> |args| > 0
    ensures e.ptn == Pattern(Normal, [])
  {
    Engine([], [], [], Pattern(Normal, []), None, |args| > 0, false, None)
  }

  /** The values a parameter of kind `k` accepts; no value is taken for an
      `OtherK` parameter, since the binder has no default for it. */
  predicate Fits(v: Value, k: Kind) {
    match k
    case IntK => v.IntV?
    case Float32K => v.FloatV?
    case Float64K => v.FloatV?
    case StringK => v.StrV?
    case BoolK => v.BoolV?
    case OtherK => false
  }

  /** Go's zero value of a basic type. */
  predicate IsZero(v: Value) {
    v == IntV(0) || v == FloatV(0.0) || v == StrV("") || v == BoolV(false)
  }

  /** The default the binder substitutes for a missing argument, by kind. */
  function DefaultFor(k: Kind): Option<Value> {
    match k
    case IntK => Some(IntV(0))
    case Float32K => Some(FloatV(0.0))
    case Float64K => Some(FloatV(0.0))
    case StringK => Some(StrV(""))
    case BoolK => Some(BoolV(false))
    case OtherK => None
  }

  /** The default is the zero value of the parameter's kind, and a kind
      outside the table has none. */
  lemma DefaultIsZero(k: Kind)
    ensures DefaultFor(k).None? <==> k == OtherK
    ensures DefaultFor(k).Some? ==> Fits(DefaultFor(k).value, k) && IsZero(DefaultFor(k).value)
  {
  }

  /** Binding the supplied arguments to the parameters, position by position. */
  function Bind(params: seq<Kind>, args: seq<Value>): (slots: seq<Option<Value>>)
    ensures |slots| == |params|
    ensures forall i :: 0 <= i < |params| && i < |args| ==> slots[i] == Some(args[i])
    ensures forall i :: |args| <= i < |params| ==> slots[i] == DefaultFor(params[i])
    decreases |params|
  {
    if |params| == 0 then []
    else
      var first := if |args| > 0 then Some(args[0]) else DefaultFor(params[0]);
      var rest := Bind(params[1..], if |args| > 0 then args[1..] else []);
      assert forall i :: 1 <= i < |params| ==> params[i] == params[1..][i - 1];
      [first] + rest
  }

  /** Some parameter lacks an argument and has a kind with no default. */
  predicate Unfillable(f: Func, args: seq<Value>) {
    exists i :: |args| <= i < |f.params| && f.params[i] == OtherK
  }

  /** Every parameter can be default-filled when no argument is supplied. */
  predicate Fillable(f: Func) {
    forall i :: 0 <= i < |f.params| ==> f.params[i] != OtherK
  }

  /** What `load` appends for `f` and `args`. */
  function Bound(f: Func, args: seq<Value>): Task {
    Task(f, Bind(f.params, args))
  }

  /** `load`: appends one task, a zero delay and a name, without checking the
      latch; an unfillable parameter latches `LoadFault` but its task is
      appended all the same. */
  function LoadUnchecked(e: Engine, f: Func, args: seq<Value>): (r: Engine)
    ensures r.fs == e.fs + [Bound(f, args)]
    ensures r.sleeper == e.sleeper + [0]
    ensures r.names == e.names + [f.name]
    ensures r.err == (if Unfillable(f, args) then Some(LoadFault) else e.err)
    ensures r.ptn == e.ptn && r.typ == e.typ && r.goRun == e.goRun && r.mailbox == e.mailbox
  {
    var slots := Bind(f.params, args);
    assert None in slots ==> Unfillable(f, args) by {
      if None in slots {
        var i :| 0 <= i < |slots| && slots[i] == None;
        assert |args| <= i && f.params[i] == OtherK;
      }
    }
    assert Unfillable(f, args) ==> None in slots by {
      if Unfillable(f, args) {
        var i :| |args| <= i < |f.params| && f.params[i] == OtherK;
        assert slots[i] == None;
      }
    }
    e.(fs := e.fs + [Task(f, slots)],
       sleeper := e.sleeper + [0],
       names := e.names + [f.name],
       err := if None in slots then Some(LoadFault) else e.err)
  }

  /** `Load`: a no-op once an error is latched. */
  function Load(e: Engine, f: Func, args: seq<Value>): (r: Engine)
    ensures e.err.Some? ==> r == e
    ensures e.err.None? ==> r == LoadUnchecked(e, f, args)
  {
    if e.err.Some? then e else LoadUnchecked(e, f, args)
  }

  /** `k` copies of `x`. */
  function Copies<T>(x: T, k: nat): (s: seq<T>)
    ensures |s| == k
    ensures forall i :: 0 <= i < k ==> s[i] == x
  {
    seq(k, _ => x)
  }

  /** The loop inside `Same`: `load` called `k` times, with no latch check. */
  function LoadTimes(e: Engine, f: Func, args: seq<Value>, k: nat): (r: Engine)
    ensures r.fs == e.fs + Copies(Bound(f, args), k)
    ensures r.sleeper == e.sleeper + Copies(0, k)
    ensures r.names == e.names + Copies(f.name, k)
    ensures r.err == (if k > 0 && Unfillable(f, args) then Some(LoadFault) else e.err)
    ensures r.ptn == e.ptn && r.typ == e.typ && r.goRun == e.goRun && r.mailbox == e.mailbox
    decreases k
  {
    if k == 0 then e
    else
      var prev := LoadTimes(e, f, args, k - 1);
      assert Copies(Bound(f, args), k - 1) + [Bound(f, args)] == Copies(Bound(f, args), k);
      assert Copies(0, k - 1) + [0] == Copies(0, k);
      assert Copies(f.name, k - 1) + [f.name] == Copies(f.name, k);
      LoadUnchecked(prev, f, args)
  }

  /** `Same`: checks the latch once, then loads `num` copies even if the
      first of them latches an error. */
  function Same(e: Engine, f: Func, num: int, args: seq<Value>): (r: Engine)
    ensures e.err.Some? ==> r == e
    ensures e.err.None? ==> |r.fs| == |e.fs| + (if num > 0 then num else 0)
    ensures e.err.None? ==> r.fs[..|e.fs|] == e.fs
    ensures e.err.None? ==> forall i :: |e.fs| <= i < |r.fs| ==> r.fs[i] == Bound(f, args)
    ensures e.err.None? ==> (r.err.Some? <==> num > 0 && Unfillable(f, args))
    ensures e.Wf() ==> r.Wf()
  {
    if e.err.Some? then e
    else LoadTimes(e, f, args, if num > 0 then num else 0)
  }

  /** Where `Quick` meets its first callable that cannot be default-filled. */
  function FirstUnfillable(fs: seq<Func>): (k: Option<nat>)
    ensures k.Some? ==> k.value < |fs| && !Fillable(fs[k.value])
                        && forall i :: 0 <= i < k.value ==> Fillable(fs[i])
    ensures k.None? ==> forall i :: 0 <= i < |fs| ==> Fillable(fs[i])
    decreases |fs|
  {
    if |fs| == 0 then None
    else if !Fillable(fs[0]) then Some(0)
    else
      assert forall i :: 1 <= i < |fs| ==> fs[i] == fs[1..][i - 1];
      match FirstUnfillable(fs[1..])
      case Some(k) => Some(k + 1)
      case None => None
  }

  /** How many callables `Quick` loads: all, or up to and including the first unfillable one. */
  function QuickLoaded(fs: seq<Func>): nat {
    match FirstUnfillable(fs)
    case Some(k) => k + 1
    case None => |fs|
  }

  /** What `Quick` appends for `fs`: each callable bound with no arguments. */
  function ZeroArgTasks(fs: seq<Func>): (ts: seq<Task>)
    ensures |ts| == |fs|
    ensures forall i :: 0 <= i < |fs| ==> ts[i] == Bound(fs[i], [])
  {
    seq(|fs|, i requires 0 <= i < |fs| => Bound(fs[i], []))
  }

  /** The configuration fields a queue operation leaves alone. */
  predicate SameConfig(a: Engine, b: Engine) {
    a.ptn == b.ptn && a.typ == b.typ && a.goRun == b.goRun && a.mailbox == b.mailbox
  }

  /** The loop inside `Quick`: each callable goes through `Load` with no arguments. */
  function LoadEach(e: Engine, fs: seq<Func>): (r: Engine)
    ensures e.err.Some? ==> r == e
    ensures |r.sleeper| - |e.sleeper| == |r.names| - |e.names| == |r.fs| - |e.fs| >= 0
    ensures SameConfig(r, e)
    decreases |fs|
  {
    if |fs| == 0 then e else LoadEach(Load(e, fs[0], []), fs[1..])
  }

  /** Past a fillable first callable, `Quick`'s stopping point moves by one. */
  lemma QuickLoadedTail(fs: seq<Func>)
    requires |fs| > 0 && Fillable(fs[0])
    ensures QuickLoaded(fs) == QuickLoaded(fs[1..]) + 1
    ensures FirstUnfillable(fs).Some? == FirstUnfillable(fs[1..]).Some?
    ensures fs[..QuickLoaded(fs)] == [fs[0]] + fs[1..][..QuickLoaded(fs[1..])]
  {
  }

  /** The zero-argument tasks of a callable followed by others. */
  lemma ZeroArgTasksCons(f: Func, fs: seq<Func>)
    ensures ZeroArgTasks([f] + fs) == [Bound(f, [])] + ZeroArgTasks(fs)
  {
  }

  /** `Quick`'s loop on an unfillable first callable loads it, latches the
      fault and loads nothing more. */
  lemma LoadEachFaultHead(e: Engine, fs: seq<Func>)
    requires e.err.None? && |fs| > 0 && !Fillable(fs[0])
    ensures LoadEach(e, fs).fs == e.fs + ZeroArgTasks(fs[..QuickLoaded(fs)])
    ensures LoadEach(e, fs).err == Some(LoadFault)
  {
    var e1 := LoadUnchecked(e, fs[0], []);
    assert Unfillable(fs[0], []);
    assert fs[..QuickLoaded(fs)] == [fs[0]];
    assert LoadEach(e1, fs[1..]) == e1;
  }

  /** Past a fillable first callable, `Quick`'s tasks are its task followed
      by those of the rest. */
  lemma LoadEachFillableHead(front: seq<Task>, fs: seq<Func>)
    requires |fs| > 0 && Fillable(fs[0])
    ensures front + [Bound(fs[0], [])] + ZeroArgTasks(fs[1..][..QuickLoaded(fs[1..])])
         == front + ZeroArgTasks(fs[..QuickLoaded(fs)])
  {
    QuickLoadedTail(fs);
    var tail := fs[1..][..QuickLoaded(fs[1..])];
    ZeroArgTasksCons(fs[0], tail);
    assert fs[..QuickLoaded(fs)] == [fs[0]] + tail;
  }

  /** `Quick`'s loop loads the callables in order up to and including the first
      one that cannot be default-filled, and latches `LoadFault` exactly then. */
  lemma {:induction false} LoadEachStopsAtFault(e: Engine, fs: seq<Func>)
    requires e.err.None?
    ensures LoadEach(e, fs).fs == e.fs + ZeroArgTasks(fs[..QuickLoaded(fs)])
    ensures LoadEach(e, fs).err == (if FirstUnfillable(fs).Some? then Some(LoadFault) else None)
    decreases |fs|
  {
    if |fs| > 0 {
      if !Fillable(fs[0]) {
        LoadEachFaultHead(e, fs);
      } else {
        var e1 := LoadUnchecked(e, fs[0], []);
        assert !Unfillable(fs[0], []);
        LoadEachStopsAtFault(e1, fs[1..]);
        LoadEachFillableHead(e.fs, fs);
        QuickLoadedTail(fs);
      }
    }
  }

  /** `Quick`: loads each callable with no arguments, stopping at the first fault. */
  function Quick(e: Engine, fs: seq<Func>): (r: Engine)
    ensures e.err.Some? ==> r == e
    ensures e.err.None? ==> r == LoadEach(e, fs)
  {
    if e.err.Some? then e else LoadEach(e, fs)
  }

  /** `Join`: appends the other engine's three queue sequences after the receiver's. */
  function Join(e: Engine, other: Engine): (r: Engine)
    ensures e.err.Some? ==> r == e
    ensures e.err.None? ==>
      && r.fs == e.fs + other.fs
      && r.sleeper == e.sleeper + other.sleeper
      && r.names == e.names + other.names
      && r.ptn == e.ptn && r.err == e.err && r.typ == e.typ && r.goRun == e.goRun && r.mailbox == e.mailbox
    ensures e.Wf() && other.Wf() ==> r.Wf()
  {
    if e.err.Some? then e
    else e.(fs := e.fs + other.fs, sleeper := e.sleeper + other.sleeper, names := e.names + other.names)
  }

  /** `SetTime`: an index outside the queue sets every delay, otherwise only that one.
      The source indexes `sleeper` with a bound taken from `names`, so it relies on
      the two having the same length. */
  function SetTime(e: Engine, t: int, index: int): (r: Engine)
    requires |e.sleeper| == |e.names|
    ensures e.err.Some? ==> r == e
    ensures |r.sleeper| == |e.sleeper| && r.fs == e.fs && r.names == e.names
    ensures r.ptn == e.ptn && r.err == e.err && r.typ == e.typ && r.goRun == e.goRun && r.mailbox == e.mailbox
    ensures e.err.None? ==> forall i :: 0 <= i < |r.sleeper| ==>
      r.sleeper[i] == (if index < 0 || index >= |e.names| || i == index then t else e.sleeper[i])
  {
    if e.err.Some? then e
    else if index < 0 || index > |e.names| - 1 then e.(sleeper := Copies(t, |e.sleeper|))
    else e.(sleeper := e.sleeper[index := t])
  }

  /** `SetPattern`: codes 0..4 are stored with their arguments; any other code
      becomes `Ineffective` and the previous arguments stay. */
  function SetPattern(e: Engine, code: int, args: seq<Value>): (r: Engine)
    ensures e.err.Some? ==> r == e
    ensures e.err.None? && Normal <= code <= Max ==> r.ptn == Pattern(code, args)
    ensures e.err.None? && !(Normal <= code <= Max) ==> r.ptn == Pattern(Ineffective, e.ptn.args)
    ensures r.fs == e.fs && r.sleeper == e.sleeper && r.names == e.names
    ensures r.err == e.err && r.typ == e.typ && r.goRun == e.goRun && r.mailbox == e.mailbox
  {
    if e.err.Some? then e
    else if code < 0 || code > Max then e.(ptn := e.ptn.(code := Ineffective))
    else e.(ptn := Pattern(code, args))
  }

  /** The events a run records. `Sleep(d)` is a task's own delay inside a
      pass, `Pause(d)` a pattern-level sleep of TimeOut or Tick, and `Call(i)`
      invokes queue position `i`. */
  datatype Event = CancelCheck | Sleep(d: int) | Pause(d: int) | Call(i: int) | Publish | Drain

  /** The dispatches of one pass from position `i` on: each task's delay, then its call. */
  function PassFrom(e: Engine, i: nat): seq<Event>
    requires e.Wf() && i <= |e.fs|
    decreases |e.fs| - i
  {
    if i == |e.fs| then [] else [Sleep(e.sleeper[i]), Call(i)] + PassFrom(e, i + 1)
  }

  /** Position by position, a pass from `i` alternates the delay of a task and
      its call, in queue order. */
  lemma {:induction false} PassShape(e: Engine, i: nat)
    requires e.Wf() && i <= |e.fs|
    ensures |PassFrom(e, i)| == 2 * (|e.fs| - i)
    ensures forall j :: 0 <= j < |PassFrom(e, i)| ==>
      PassFrom(e, i)[j] == (if j % 2 == 0 then Sleep(e.sleeper[i + j / 2]) else Call(i + j / 2))
    decreases |e.fs| - i
  {
    if i < |e.fs| {
      PassShape(e, i + 1);
      var rest := PassFrom(e, i + 1);
      var t := PassFrom(e, i);
      assert t == [Sleep(e.sleeper[i]), Call(i)] + rest;
      forall j | 2 <= j < |t|
        ensures t[j] == (if j % 2 == 0 then Sleep(e.sleeper[i + j / 2]) else Call(i + j / 2))
      {
        assert t[j] == rest[j - 2];
        assert (j - 2) / 2 == j / 2 - 1 && (j - 2) % 2 == j % 2;
      }
    }
  }

  /** The dispatches of one whole pass, before its snapshot is published. */
  function PassTrace(e: Engine): seq<Event>
    requires e.Wf()
  {
    PassFrom(e, 0)
  }

  /** The inner map `run` builds from one task's outputs, after the first `n` of them. */
  function OutputMap(vs: seq<Value>, n: nat): map<int, Value>
    requires n <= |vs|
  {
    if n == 0 then map[] else OutputMap(vs, n - 1)[n - 1 := vs[n - 1]]
  }

  /** The snapshot `run` has built after calling the first `n` tasks. */
  function SnapshotUpTo(e: Engine, n: nat): Snapshot
    requires n <= |e.fs|
  {
    if n == 0 then map[]
    else
      var outs := e.fs[n - 1].f.outputs;
      SnapshotUpTo(e, n - 1)[n - 1 := OutputMap(outs, |outs|)]
  }

  /** The inner map holds exactly output positions `0..n-1`, each with its value. */
  lemma {:induction false} OutputMapShape(vs: seq<Value>, n: nat)
    requires n <= |vs|
    ensures forall j :: j in OutputMap(vs, n) <==> 0 <= j < n
    ensures forall j :: 0 <= j < n ==> OutputMap(vs, n)[j] == vs[j]
  {
    if n > 0 {
      OutputMapShape(vs, n - 1);
    }
  }

  /** After `n` calls the snapshot has exactly the keys `0..n-1`, and the entry
      of task `i` is its outputs keyed by position: empty for a task with no
      outputs. */
  lemma {:induction false} SnapshotShape(e: Engine, n: nat)
    requires n <= |e.fs|
    ensures forall i :: i in SnapshotUpTo(e, n) <==> 0 <= i < n
    ensures forall i, j :: 0 <= i < n ==>
      (j in SnapshotUpTo(e, n)[i] <==> 0 <= j < |e.fs[i].f.outputs|)
    ensures forall i, j :: 0 <= i < n && 0 <= j < |e.fs[i].f.outputs| ==>
      SnapshotUpTo(e, n)[i][j] == e.fs[i].f.outputs[j]
  {
    if n > 0 {
      SnapshotShape(e, n - 1);
      var outs := e.fs[n - 1].f.outputs;
      OutputMapShape(outs, |outs|);
    }
  }

  /** The returner one complete pass publishes: its snapshot and an empty error channel. */
  function PassReturner(e: Engine): Returner {
    Returner(SnapshotUpTo(e, |e.fs|), None)
  }

  /** `returner.Get`: the stored value when both keys exist, `NotFound` otherwise. */
  function Get(r: Returner, fid: int, pid: int): (res: Reply<Value>)
    ensures res.Ok? <==> fid in r.vals && pid in r.vals[fid]
    ensures res.Ok? ==> res.value == r.vals[fid][pid]
    ensures !res.Ok? ==> res == Fail(NotFound)
  {
    if fid in r.vals && pid in r.vals[fid] then Ok(r.vals[fid][pid]) else Fail(NotFound)
  }

  /** A receive from a returner's error channel: the deposited error, with the
      channel empty again afterwards, or nothing because the receive blocks. */
  datatype ErrRecv = Received(err: Option<Error>, rest: Returner) | WouldBlock

  /** `BackError`: receives from the one-slot error channel, which empties it;
      with nothing deposited it blocks. */
  function BackError(r: Returner): (x: ErrRecv)
    ensures x.WouldBlock? <==> r.errSlot.None?
    ensures x.Received? ==> Some(x.err) == r.errSlot && x.rest.errSlot.None? && x.rest.vals == r.vals
  {
    match r.errSlot
    case None => WouldBlock
    case Some(e) => Received(e, r.(errSlot := None))
  }

  /** A deposit into an empty error channel is what the next `BackError`
      receives, and the receive leaves the returner as it was before the
      deposit; a second receive then blocks. */
  lemma DepositThenBackError(r: Returner, x: Option<Error>)
    requires r.errSlot.None?
    ensures BackError(r.(errSlot := Some(x))) == Received(x, r)
    ensures BackError(BackError(r.(errSlot := Some(x))).rest).WouldBlock?
  {
  }

  /** A task with a slot the binder could not fill: calling it panics in the
      source, since the call passes Go's invalid zero `reflect.Value`. */
  predicate HasUnfilled(e: Engine) {
    exists i :: 0 <= i < |e.fs| && None in e.fs[i].args
  }
}
