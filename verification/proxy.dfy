/**
  The registry of named engines (Delegator/Proxy.go). Engines are abstract
  identifiers; running one and fetching its returns are supplied as
  functions, since the registry only dispatches to them.
 */
module Proxy {
  import opened Values

  type EngineId = nat

  /** A registered engine: its registration number, its name and the engine. */
  datatype Unit = Unit(id: int, name: string, d: EngineId)

  /** The registry: a map by name, a list in registration order, and a member
      counter. */
  datatype Registry = Registry(dMap: map<string, Unit>, dArr: seq<Unit>, memberNums: int)

  /** The names along a unit list. */
  function Names(arr: seq<Unit>): (ns: seq<string>)
    ensures |ns| == |arr|
    ensures forall i :: 0 <= i < |arr| ==> ns[i] == arr[i].name
  {
    seq(|arr|, i requires 0 <= i < |arr| => arr[i].name)
  }

  /** What the map, the list and the counter are meant to agree on: the list
      has `memberNums` units with distinct names, and the map holds exactly
      those names, each bound to its unit. */
  ghost predicate Consistent(r: Registry) {
    && |r.dArr| == r.memberNums
    && (forall i, j :: 0 <= i < j < |r.dArr| ==> r.dArr[i].name != r.dArr[j].name)
    && (forall n :: n in r.dMap <==> n in Names(r.dArr))
    && (forall i :: 0 <= i < |r.dArr| ==> r.dArr[i].name in r.dMap && r.dMap[r.dArr[i].name] == r.dArr[i])
  }

  /** `New_`: an empty registry. */
  function NewRegistry(): (r: Registry)
    ensures Consistent(r) && |r.dArr| == 0 && r.memberNums == 0 && r.dMap == map[]
  {
    Registry(map[], [], 0)
  }

  /** `Register`: a name already in the map is refused and nothing changes;
      a fresh name gets a unit numbered by the counter, stored in the map and
      appended to the list, and the counter grows by one. */
  function Register(r: Registry, d: EngineId, name: string): (res: (Registry, Option<Error>))
    ensures name in r.dMap ==> res == (r, Some(NameTaken))
    ensures name !in r.dMap ==>
      var u := Unit(r.memberNums, name, d);
      && res.1 == None
      && res.0.dMap == r.dMap[name := u]
      && res.0.dArr == r.dArr + [u]
      && res.0.memberNums == r.memberNums + 1
  {
    if name in r.dMap then (r, Some(NameTaken))
    else
      var u := Unit(r.memberNums, name, d);
      (Registry(r.dMap[name := u], r.dArr + [u], r.memberNums + 1), None)
  }

  /** `Get`: the engine registered under `name`, or an error. */
  function Get(r: Registry, name: string): (res: Reply<EngineId>)
    ensures res.Ok? <==> name in r.dMap
    ensures res.Ok? ==> res.value == r.dMap[name].d
    ensures res.Fail? ==> res.err == TargetNotFound
  {
    if name in r.dMap then Ok(r.dMap[name].d) else Fail(TargetNotFound)
  }

  /** The position of the last unit in `arr` named `name`, as `Delete`'s scan
      leaves it. */
  function LastMatch(arr: seq<Unit>, name: string): (pos: Option<nat>)
    ensures pos.None? <==> name !in Names(arr)
    ensures pos.Some? ==> pos.value < |arr| && arr[pos.value].name == name
                          && forall k :: pos.value < k < |arr| ==> arr[k].name != name
  {
    if |arr| == 0 then None
    else if arr[|arr| - 1].name == name then Some(|arr| - 1)
    else
      var p := LastMatch(arr[..|arr| - 1], name);
      assert Names(arr[..|arr| - 1]) == Names(arr)[..|arr| - 1];
      assert name in Names(arr) ==> name in Names(arr[..|arr| - 1]) by {
        if name in Names(arr) {
          var k :| 0 <= k < |arr| && Names(arr)[k] == name;
          assert k < |arr| - 1;
          assert Names(arr[..|arr| - 1])[k] == name;
        }
      }
      p
  }

  /** `Delete` as written. A name with no unit in the list is an error and
      nothing changes. Otherwise the name leaves the map, the counter drops
      by one, and the list becomes its first `pos` units followed by its
      first `pos + 1` units, `pos` being the last match: the appended slice
      starts at 0 rather than at `pos + 1`. */
  function Delete(r: Registry, name: string): (res: (Registry, Option<Error>))
    ensures LastMatch(r.dArr, name).None? ==> res == (r, Some(TargetNotFound))
    ensures LastMatch(r.dArr, name).Some? ==>
      var pos := LastMatch(r.dArr, name).value;
      && res.1 == None
      && res.0.dMap == r.dMap - {name}
      && res.0.dArr == r.dArr[..pos] + r.dArr[..pos + 1]
      && res.0.memberNums == r.memberNums - 1
  {
    match LastMatch(r.dArr, name)
    case None => (r, Some(TargetNotFound))
    case Some(pos) => (Registry(r.dMap - {name}, r.dArr[..pos] + r.dArr[..pos + 1], r.memberNums - 1), None)
  }

  /** `Delete` as evidently intended: the matching unit is removed from the list. */
  function DeleteIntended(r: Registry, name: string): (res: (Registry, Option<Error>))
    ensures LastMatch(r.dArr, name).None? ==> res == (r, Some(TargetNotFound))
    ensures LastMatch(r.dArr, name).Some? ==>
      var pos := LastMatch(r.dArr, name).value;
      && res.1 == None
      && res.0.dMap == r.dMap - {name}
      && res.0.dArr == r.dArr[..pos] + r.dArr[pos + 1..]
      && res.0.memberNums == r.memberNums - 1
  {
    match LastMatch(r.dArr, name)
    case None => (r, Some(TargetNotFound))
    case Some(pos) => (Registry(r.dMap - {name}, r.dArr[..pos] + r.dArr[pos + 1..], r.memberNums - 1), None)
  }

  /** The argument a dispatch passes on: none, or the first one given. */
  function FirstArg(args: seq<Value>): Option<Value> {
    if |args| == 0 then None else Some(args[0])
  }

  /** `Execute`: an unknown name is an error; otherwise the named engine's
      `Run`, with no parameter or with the first argument only. */
  function Execute(r: Registry, name: string, args: seq<Value>,
                   run: (EngineId, Option<Value>) -> Option<Error>): (res: Option<Error>)
    ensures name !in r.dMap ==> res == Some(NoTarget)
    ensures name in r.dMap ==> res == run(r.dMap[name].d, FirstArg(args))
  {
    if name !in r.dMap then Some(NoTarget) else run(r.dMap[name].d, FirstArg(args))
  }

  /** What a dispatch over the list did: the engines it ran, in order, and
      the error it returned; or a panic on an index past the list. */
  datatype FlowResult = Done(ran: seq<EngineId>, err: Option<Error>) | Panicked

  /** The engines of a unit list. */
  function Engines(arr: seq<Unit>): (ds: seq<EngineId>)
    ensures |ds| == |arr|
    ensures forall i :: 0 <= i < |arr| ==> ds[i] == arr[i].d
  {
    seq(|arr|, i requires 0 <= i < |arr| => arr[i].d)
  }

  /** Running a unit list in order, stopping at the first error. */
  function RunEach(arr: seq<Unit>, arg: Option<Value>,
                   run: (EngineId, Option<Value>) -> Option<Error>): (res: FlowResult)
    ensures res.Done?
    ensures res.ran <= Engines(arr)
    ensures forall k :: 0 <= k < |res.ran| - 1 ==> run(res.ran[k], arg).None?
    ensures res.err.None? <==> res.ran == Engines(arr) && forall k :: 0 <= k < |arr| ==> run(arr[k].d, arg).None?
    ensures res.err.Some? ==> |res.ran| > 0 && res.err == run(res.ran[|res.ran| - 1], arg)
    decreases |arr|
  {
    if |arr| == 0 then Done([], None)
    else
      var e := run(arr[0].d, arg);
      if e.Some? then Done([arr[0].d], e)
      else
        var rest := RunEach(arr[1..], arg, run);
        assert Engines(arr) == [arr[0].d] + Engines(arr[1..]);
        assert forall k :: 1 <= k < |arr| ==> arr[k] == arr[1..][k - 1];
        Done([arr[0].d] + rest.ran, rest.err)
  }

  /** `Flow`: an index past the counter is an error and runs nothing; a
      negative index runs the whole list in order until the first error; any
      other index runs that one entry, and panics past the list's end. */
  function Flow(r: Registry, index: int, args: seq<Value>,
                run: (EngineId, Option<Value>) -> Option<Error>): (res: FlowResult)
    ensures index > r.memberNums - 1 ==> res == Done([], Some(BeyondMembers))
    ensures index <= r.memberNums - 1 && index < 0 ==> res == RunEach(r.dArr, FirstArg(args), run)
    ensures 0 <= index <= r.memberNums - 1 ==>
      if index < |r.dArr| then res == Done([r.dArr[index].d], run(r.dArr[index].d, FirstArg(args)))
      else res == Panicked
  {
    if index > r.memberNums - 1 then Done([], Some(BeyondMembers))
    else if index < 0 then RunEach(r.dArr, FirstArg(args), run)
    else if index < |r.dArr| then Done([r.dArr[index].d], run(r.dArr[index].d, FirstArg(args)))
    else Panicked
  }

  /** `BackReturn`: the returns of the engine selected by an int (a list
      position) or a string (a name). Without arguments, or with a first
      argument of another type, it is an error; an unknown position or name
      panics. */
  function BackReturn<R>(r: Registry, args: seq<Value>, back: EngineId -> Reply<R>): (res: Reply<R>)
    ensures |args| == 0 || !(args[0].IntV? || args[0].StrV?) ==> res == Fail(WrongFirstParam)
    ensures |args| > 0 && args[0].IntV? ==>
      res == if 0 <= args[0].i < |r.dArr| then back(r.dArr[args[0].i].d) else Panic
    ensures |args| > 0 && args[0].StrV? ==>
      res == if args[0].s in r.dMap then back(r.dMap[args[0].s].d) else Panic
  {
    if |args| == 0 then Fail(WrongFirstParam)
    else match args[0]
      case IntV(v) => if 0 <= v < |r.dArr| then back(r.dArr[v].d) else Panic
      case StrV(v) => if v in r.dMap then back(r.dMap[v].d) else Panic
      case _ => Fail(WrongFirstParam)
  }

  /** `Register` keeps the map, the list and the counter in agreement. */
  lemma RegisterConsistent(r: Registry, d: EngineId, name: string)
    requires Consistent(r)
    ensures Consistent(Register(r, d, name).0)
  {
    if name !in r.dMap {
      var r1 := Register(r, d, name).0;
      assert Names(r1.dArr) == Names(r.dArr) + [name];
      forall i | 0 <= i < |r1.dArr| ensures r1.dArr[i].name in r1.dMap && r1.dMap[r1.dArr[i].name] == r1.dArr[i] {
        if i < |r.dArr| {
          assert r1.dArr[i] == r.dArr[i];
        }
      }
    }
  }

  /** Registrations in order, each with its engine and name; refused ones are skipped. */
  function RegisterAll(r: Registry, items: seq<(EngineId, string)>): (res: Registry)
    ensures |res.dArr| >= |r.dArr| && res.dArr[..|r.dArr|] == r.dArr
    decreases |items|
  {
    if |items| == 0 then r
    else RegisterAll(Register(r, items[0].0, items[0].1).0, items[1..])
  }

  /** Starting from a consistent registry whose units are numbered by their
      list positions, any sequence of registrations keeps it consistent and
      keeps every unit numbered by its position. */
  lemma {:induction false} RegisterAllNumbers(r: Registry, items: seq<(EngineId, string)>)
    requires Consistent(r) && forall i :: 0 <= i < |r.dArr| ==> r.dArr[i].id == i
    ensures Consistent(RegisterAll(r, items))
    ensures forall i :: 0 <= i < |RegisterAll(r, items).dArr| ==> RegisterAll(r, items).dArr[i].id == i
    decreases |items|
  {
    if |items| > 0 {
      var r1 := Register(r, items[0].0, items[0].1).0;
      RegisterConsistent(r, items[0].0, items[0].1);
      assert forall i :: 0 <= i < |r1.dArr| ==> r1.dArr[i].id == i;
      RegisterAllNumbers(r1, items[1..]);
    }
  }

  /** `Execute` reaches exactly the engine `Get` returns for the name. */
  lemma ExecuteMatchesGet(r: Registry, name: string, args: seq<Value>,
                          run: (EngineId, Option<Value>) -> Option<Error>)
    ensures Execute(r, name, args, run)
         == match Get(r, name) case Ok(d) => run(d, FirstArg(args)) case _ => Some(NoTarget)
  {
  }

  /** On a consistent registry, `Flow` never panics, and an index it accepts
      runs the unit at that list position. */
  lemma FlowConsistent(r: Registry, index: int, args: seq<Value>,
                       run: (EngineId, Option<Value>) -> Option<Error>)
    requires Consistent(r)
    ensures !Flow(r, index, args, run).Panicked?
    ensures 0 <= index < r.memberNums ==> Flow(r, index, args, run).ran == [r.dArr[index].d]
  {
  }

  /** On a consistent registry, selecting by list position and by the name
      of the unit at that position fetch the same returns. */
  lemma BackReturnSelectorsAgree<R>(r: Registry, i: int, back: EngineId -> Reply<R>)
    requires Consistent(r) && 0 <= i < |r.dArr|
    ensures BackReturn(r, [IntV(i)], back) == BackReturn(r, [StrV(r.dArr[i].name)], back) == back(r.dArr[i].d)
  {
  }

  /** The error paths of `BackReturn` never consult an engine. */
  lemma BackReturnErrorPaths<R>(r: Registry, args: seq<Value>, b1: EngineId -> Reply<R>, b2: EngineId -> Reply<R>)
    requires |args| == 0 || !(args[0].IntV? || args[0].StrV?)
    ensures BackReturn(r, args, b1) == BackReturn(r, args, b2) == Fail(WrongFirstParam)
  {
  }

  /** The list with position `pos` taken out. */
  function Without(a: seq<Unit>, pos: nat): (b: seq<Unit>)
    requires pos < |a|
    ensures |b| == |a| - 1
    ensures forall k :: 0 <= k < |b| ==> b[k] == a[if k < pos then k else k + 1]
  {
    seq(|a| - 1, k requires 0 <= k < |a| - 1 => a[if k < pos then k else k + 1])
  }

  /** Taking a position out is slicing around it. */
  lemma WithoutSlices(a: seq<Unit>, pos: nat)
    requires pos < |a|
    ensures Without(a, pos) == a[..pos] + a[pos + 1..]
  {
    var b := a[..pos] + a[pos + 1..];
    forall k | 0 <= k < |b| ensures b[k] == Without(a, pos)[k] {
      if k < pos { assert b[k] == a[k]; } else { assert b[k] == a[pos + 1..][k - pos]; }
    }
  }

  /** Distinct names stay distinct when a unit is taken out. */
  lemma WithoutDistinct(a: seq<Unit>, pos: nat)
    requires pos < |a|
    requires forall i, j :: 0 <= i < j < |a| ==> a[i].name != a[j].name
    ensures forall i, j :: 0 <= i < j < |Without(a, pos)| ==> Without(a, pos)[i].name != Without(a, pos)[j].name
  {
    var b := Without(a, pos);
    forall i, j | 0 <= i < j < |b| ensures b[i].name != b[j].name {
      var i' := if i < pos then i else i + 1;
      var j' := if j < pos then j else j + 1;
      assert b[i] == a[i'] && b[j] == a[j'];
    }
  }

  /** A name left after taking out a unit was a name of the list, and not
      the removed one. */
  lemma WithoutNamesSub(a: seq<Unit>, pos: nat, name: string)
    requires pos < |a| && a[pos].name == name
    requires forall i, j :: 0 <= i < j < |a| ==> a[i].name != a[j].name
    ensures forall n :: n in Names(Without(a, pos)) ==> n in Names(a) && n != name
  {
    var b := Without(a, pos);
    forall n | n in Names(b) ensures n in Names(a) && n != name {
      var k :| 0 <= k < |b| && Names(b)[k] == n;
      var k' := if k < pos then k else k + 1;
      assert b[k] == a[k'] && k' != pos;
      assert Names(a)[k'] == n;
    }
  }

  /** Every other name of the list survives taking out a unit. */
  lemma WithoutNamesSuper(a: seq<Unit>, pos: nat, name: string)
    requires pos < |a| && a[pos].name == name
    ensures forall n :: n in Names(a) && n != name ==> n in Names(Without(a, pos))
  {
    var b := Without(a, pos);
    forall n | n in Names(a) && n != name ensures n in Names(b) {
      var k :| 0 <= k < |a| && Names(a)[k] == n;
      var k' := if k < pos then k else k - 1;
      assert b[k'] == a[k];
      assert Names(b)[k'] == n;
    }
  }

  /** The names left after taking out the one unit named `name` are exactly
      the other names of the list. */
  lemma WithoutNames(a: seq<Unit>, pos: nat, name: string)
    requires pos < |a| && a[pos].name == name
    requires forall i, j :: 0 <= i < j < |a| ==> a[i].name != a[j].name
    ensures forall n :: n in Names(Without(a, pos)) <==> n in Names(a) && n != name
  {
    WithoutNamesSub(a, pos, name);
    WithoutNamesSuper(a, pos, name);
  }

  /** The intended removal keeps a consistent registry consistent, and the
      name is gone from both the map and the list. */
  lemma DeleteIntendedConsistent(r: Registry, name: string)
    requires Consistent(r)
    ensures Consistent(DeleteIntended(r, name).0)
    ensures DeleteIntended(r, name).1.None? ==>
      name !in DeleteIntended(r, name).0.dMap && name !in Names(DeleteIntended(r, name).0.dArr)
      && |DeleteIntended(r, name).0.dArr| == |r.dArr| - 1
  {
    match LastMatch(r.dArr, name)
    case None =>
    case Some(pos) =>
      WithoutSlices(r.dArr, pos);
      WithoutNames(r.dArr, pos, name);
      WithoutDistinct(r.dArr, pos);
      WithoutEntries(r.dArr, pos, r.dMap, name);
  }

  /** Every unit left after taking out the one named `name` is still bound to
      its name once `name` leaves the map. */
  lemma WithoutEntries(a: seq<Unit>, pos: nat, m: map<string, Unit>, name: string)
    requires pos < |a| && a[pos].name == name
    requires forall i, j :: 0 <= i < j < |a| ==> a[i].name != a[j].name
    requires forall i :: 0 <= i < |a| ==> a[i].name in m && m[a[i].name] == a[i]
    ensures forall i :: 0 <= i < |Without(a, pos)| ==>
      Without(a, pos)[i].name in m - {name} && (m - {name})[Without(a, pos)[i].name] == Without(a, pos)[i]
  {
    var b := Without(a, pos);
    forall i | 0 <= i < |b| ensures b[i].name in m - {name} && (m - {name})[b[i].name] == b[i] {
      var i' := if i < pos then i else i + 1;
      assert b[i] == a[i'] && i' != pos;
    }
  }

  /** As written, a successful `Delete` always leaves the registry
      inconsistent: the deleted unit is still the last entry of the list,
      though its name has left the map, and the list has `2 * pos + 1`
      entries whatever the counter says. */
  lemma DeleteKeepsDeletedUnit(r: Registry, name: string)
    requires Delete(r, name).1.None?
    ensures
      var r1 := Delete(r, name).0;
      && |r1.dArr| == 2 * LastMatch(r.dArr, name).value + 1
      && r1.dArr[|r1.dArr| - 1] == r.dArr[LastMatch(r.dArr, name).value]
      && r1.dArr[|r1.dArr| - 1].name == name
      && name !in r1.dMap
      && !Consistent(r1)
  {
    var r1 := Delete(r, name).0;
    var pos := LastMatch(r.dArr, name).value;
    assert r1.dArr[|r1.dArr| - 1] == r.dArr[pos];
    assert Names(r1.dArr)[|r1.dArr| - 1] == name;
  }

  /** Two registered engines, "a" then "b". */
  function TwoMembers(): Registry {
    RegisterAll(NewRegistry(), [(1, "a"), (2, "b")])
  }

  /** Deleting "a" from ["a", "b"] keeps "a" in the list and drops "b";
      deleting "b" leaves ["a", "a", "b"], so a later `Flow` over the whole
      list runs "a" twice and the deleted "b" as well. The intended removal
      leaves ["b"] and ["a"]. */
  lemma DeleteCounterexample(run: (EngineId, Option<Value>) -> Option<Error>)
    requires forall d, v :: run(d, v).None?
    ensures Delete(TwoMembers(), "a").0.dArr == [Unit(0, "a", 1)]
    ensures Delete(TwoMembers(), "b").0.dArr == [Unit(0, "a", 1), Unit(0, "a", 1), Unit(1, "b", 2)]
    ensures Flow(Delete(TwoMembers(), "b").0, -1, [], run) == Done([1, 1, 2], None)
    ensures DeleteIntended(TwoMembers(), "a").0.dArr == [Unit(1, "b", 2)]
    ensures DeleteIntended(TwoMembers(), "b").0.dArr == [Unit(0, "a", 1)]
  {
    var r := TwoMembers();
    assert r.dArr == [Unit(0, "a", 1), Unit(1, "b", 2)];
    assert Names(r.dArr) == ["a", "b"];
    assert LastMatch(r.dArr, "a") == Some(0);
    assert LastMatch(r.dArr, "b") == Some(1);
    var d := Delete(r, "b").0;
    assert Engines(d.dArr) == [1, 1, 2];
  }

  /** The deleted unit stays in the list, so the same name can be deleted
      again and again, each time driving the counter down, below zero. */
  lemma DeleteRepeats()
    ensures
      var r1 := Delete(TwoMembers(), "b").0;
      var r2 := Delete(r1, "b").0;
      var r3 := Delete(r2, "b").0;
      && Delete(r1, "b").1.None? && Delete(r2, "b").1.None?
      && r3.memberNums == -1
  {
    var r := TwoMembers();
    assert r.dArr == [Unit(0, "a", 1), Unit(1, "b", 2)];
    assert r.memberNums == 2;
    DeleteKeepsDeletedUnit(r, "b");
    var r1 := Delete(r, "b").0;
    assert LastMatch(r1.dArr, "b").Some?;
    DeleteKeepsDeletedUnit(r1, "b");
    var r2 := Delete(r1, "b").0;
    assert LastMatch(r2.dArr, "b").Some?;
  }
}
