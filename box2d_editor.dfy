/** The world editor of src/makeWorld.js (`makeWorldEditor`): the thing table it fills in,
    the engine calls it makes, and the order in which `addThingsToWorld` makes them. */
module Box2DEditor {
  import opened Wrappers
  import opened JsValues
  import opened Box2DBackend
  import opened Box2DThings
  import opened Box2DBuilder

  /** What the editor has done so far: the engine's trace and the table `thingsByName`
      (`encapsulatedThingsByName` holds the same entries behind the thing encapsulator). */
  datatype Editor = Editor(trace: seq<Event>, things: map<string, Thing>)

  /** The editor after a run of calls, and whether the run got through or threw. */
  datatype Built = Built(editor: Editor, outcome: Outcome<Fault>)

  /** `h` names a body the engine was asked to create. */
  predicate IsBody(trace: seq<Event>, h: Handle)
  {
    h < |trace| && trace[h].CreateBody?
  }

  /** The `i`-th call of the trace only names bodies created before it. */
  predicate RefersBack(trace: seq<Event>, i: nat)
    requires i < |trace|
  {
    match trace[i]
    case CreateFixture(owner, _) => owner < i && IsBody(trace, owner)
    case CreateJoint(a, b, _, _) => a < i && IsBody(trace, a) && b < i && IsBody(trace, b)
    case Impulse(target, _, _) => target < i && IsBody(trace, target)
    case _ => true
  }

  /** No call names a body that does not exist yet, and the table only holds bodies. */
  predicate Consistent(e: Editor)
  {
    && (forall i :: 0 <= i < |e.trace| ==> RefersBack(e.trace, i))
    && (forall k :: k in e.things ==> IsBody(e.trace, e.things[k].body))
  }

  /** Appending calls that only name existing bodies keeps a trace consistent. */
  lemma ExtendConsistent(e: Editor, more: seq<Event>, things: map<string, Thing>)
    requires Consistent(e)
    requires forall i :: |e.trace| <= i < |e.trace + more| ==> RefersBack(e.trace + more, i)
    requires forall k :: k in things ==> IsBody(e.trace + more, things[k].body)
    ensures Consistent(Editor(e.trace + more, things))
  {
    var t := e.trace + more;
    forall i | 0 <= i < |e.trace|
      ensures RefersBack(t, i)
    {
      assert RefersBack(e.trace, i);
      assert t[i] == e.trace[i];
      match t[i]
      case CreateFixture(owner, _) => assert t[owner] == e.trace[owner];
      case CreateJoint(a, b, _, _) => assert t[a] == e.trace[a] && t[b] == e.trace[b];
      case Impulse(target, _, _) => assert t[target] == e.trace[target];
      case _ =>
    }
  }

  /** What `addThing` does once a description has passed its checks: a body, then its
      fixture, then the table entry, which replaces any earlier one under the same id. */
  function AddDef(e: Editor, d: ThingDef): (r: Editor)
    ensures r.trace == e.trace + [CreateBody(d.body), CreateFixture(|e.trace|, d.fixture)]
    ensures r.things.Keys == e.things.Keys + {d.id}
    ensures r.things[d.id] == Thing(|e.trace|, d.shape)
    ensures forall k :: k in e.things && k != d.id ==> r.things[k] == e.things[k]
  {
    var h := |e.trace|;
    Editor(e.trace + [CreateBody(d.body), CreateFixture(h, d.fixture)], e.things[d.id := Thing(h, d.shape)])
  }

  /** `addThing`: the checks, then `AddDef`. */
  function AddThingStep(e: Editor, t: Value): (r: Result<Editor, Fault>)
    ensures r.Ok? <==> WellFormedThing(t)
    ensures r.Err? ==> r == Err(CheckThing(t).error)
    ensures r.Ok? ==> r.value == AddDef(e, CheckThing(t).value)
  {
    var d :- CheckThing(t);
    Ok(AddDef(e, d))
  }

  /** `createJoint`: the checks against the current table, then the joint. */
  function CreateJointStep(e: Editor, j: Value): (r: Result<Editor, Fault>)
    ensures r.Ok? <==> WellFormedJoint(j, e.things)
    ensures r.Err? ==> r == Err(CheckJoint(j, e.things).error)
    ensures r.Ok? ==>
      var d := CheckJoint(j, e.things).value;
      && r.value.trace == e.trace + [CreateJoint(d.bodyA, d.bodyB, d.anchorX, d.anchorY)]
      && r.value.things == e.things
  {
    var d :- CheckJoint(j, e.things);
    Ok(Editor(e.trace + [CreateJoint(d.bodyA, d.bodyB, d.anchorX, d.anchorY)], e.things))
  }

  lemma AddDefConsistent(e: Editor, d: ThingDef)
    requires Consistent(e)
    ensures Consistent(AddDef(e, d))
  {
    var e' := AddDef(e, d);
    var more := e'.trace[|e.trace|..];
    assert e'.trace == e.trace + more;
    assert RefersBack(e'.trace, |e.trace| + 1);
    ExtendConsistent(e, more, e'.things);
  }

  lemma CreateJointConsistent(e: Editor, j: Value)
    requires Consistent(e) && CreateJointStep(e, j).Ok?
    ensures Consistent(CreateJointStep(e, j).value)
  {
    var e' := CreateJointStep(e, j).value;
    var more := e'.trace[|e.trace|..];
    assert e'.trace == e.trace + more;
    ExtendConsistent(e, more, e'.things);
  }

  /** Every thing description's checks, one result per description. */
  function CheckAll(ts: seq<Value>): (rs: seq<Result<ThingDef, Fault>>)
    ensures |rs| == |ts| && forall i :: 0 <= i < |ts| ==> rs[i] == CheckThing(ts[i])
  {
    seq(|ts|, i requires 0 <= i < |ts| => CheckThing(ts[i]))
  }

  /** A run of `addThing`s over the check results: the things in order, up to the first
      one that throws. */
  function AddChecked(e: Editor, rs: seq<Result<ThingDef, Fault>>): Built
    decreases |rs|
  {
    if rs == [] then Built(e, Pass)
    else match rs[0]
      case Err(f) => Built(e, Fail(f))
      case Ok(d) => AddChecked(AddDef(e, d), rs[1..])
  }

  /** `things.forEach(addThing)`. */
  function AddThings(e: Editor, ts: seq<Value>): Built
  {
    AddChecked(e, CheckAll(ts))
  }

  /** `joints.forEach(createJoint)`: the joints in array order, up to the first that throws. */
  function CreateJoints(e: Editor, js: seq<Value>): Built
    decreases |js|
  {
    if js == [] then Built(e, Pass)
    else match CreateJointStep(e, js[0])
      case Err(f) => Built(e, Fail(f))
      case Ok(e') => CreateJoints(e', js[1..])
  }

  /** `addThingsToWorld` on a parsed description. A description without `joints` passes
      the check of line 226, and then line 230 throws reading `forEach` of undefined. */
  function Build(e: Editor, w: Value): Built
  {
    match CheckWorld(w)
    case Err(f) => Built(e, Fail(f))
    case Ok(d) => BuildChecked(e, d)
  }

  /** `addThingsToWorld` once the description passed its checks: the things, then, unless
      one of them threw, the joints. */
  function BuildChecked(e: Editor, d: WorldDef): Built
  {
    var b := AddThings(e, d.things);
    if b.outcome.Fail? then b
    else if d.joints.None? then Built(b.editor, Fail(TypeError))
    else CreateJoints(b.editor, d.joints.value)
  }

  /** `addThingsToWorld(text)`: JSON.parse, given as `parse` (`None` when it throws), then
      `Build`. */
  function BuildText(e: Editor, text: string, parse: string -> Option<Value>): Built
  {
    match parse(text)
    case None => Built(e, Fail(NotJson))
    case Some(w) => Build(e, w)
  }

  /** The thing definitions a run of `addThing`s gets through: those before the first
      check that throws. */
  function Accepted(rs: seq<Result<ThingDef, Fault>>): (defs: seq<ThingDef>)
    ensures |defs| <= |rs|
    ensures forall i :: 0 <= i < |defs| ==> rs[i] == Ok(defs[i])
    ensures |defs| < |rs| ==> rs[|defs|].Err?
    decreases |rs|
  {
    if rs == [] then []
    else match rs[0]
      case Err(_) => []
      case Ok(d) => [d] + Accepted(rs[1..])
  }

  /** The engine calls for a list of thing definitions, the first body getting handle `base`:
      a body and then its fixture for every thing, in list order. */
  function ThingCalls(base: nat, defs: seq<ThingDef>): seq<Event>
    decreases |defs|
  {
    if defs == [] then []
    else [CreateBody(defs[0].body), CreateFixture(base, defs[0].fixture)] + ThingCalls(base + 2, defs[1..])
  }

  /** The table after registering a list of thing definitions, in list order. */
  function Register(table: map<string, Thing>, base: nat, defs: seq<ThingDef>): map<string, Thing>
    decreases |defs|
  {
    if defs == [] then table
    else Register(table[defs[0].id := Thing(base, defs[0].shape)], base + 2, defs[1..])
  }

  /** A run of `addThing`s makes the calls of the things it gets through, fills in their
      table entries, and gets through exactly when every thing does. */
  lemma {:induction false} AddCheckedRegisters(e: Editor, rs: seq<Result<ThingDef, Fault>>)
    ensures var b, defs := AddChecked(e, rs), Accepted(rs);
      && b.editor == Editor(e.trace + ThingCalls(|e.trace|, defs), Register(e.things, |e.trace|, defs))
      && (b.outcome.Pass? <==> |defs| == |rs|)
      && (b.outcome.Fail? ==> b.outcome == Fail(rs[|defs|].error))
    decreases |rs|
  {
    if rs != [] && rs[0].Ok? {
      var d := rs[0].value;
      var e' := AddDef(e, d);
      AddCheckedRegisters(e', rs[1..]);
      assert Accepted(rs) == [d] + Accepted(rs[1..]);
      assert e.trace + ThingCalls(|e.trace|, Accepted(rs))
             == e'.trace + ThingCalls(|e'.trace|, Accepted(rs[1..]));
    }
  }

  lemma {:induction false} ThingCallsShape(base: nat, defs: seq<ThingDef>)
    ensures |ThingCalls(base, defs)| == 2 * |defs|
    ensures forall i :: 0 <= i < |defs| ==>
      && ThingCalls(base, defs)[2 * i] == CreateBody(defs[i].body)
      && ThingCalls(base, defs)[2 * i + 1] == CreateFixture(base + 2 * i, defs[i].fixture)
    ensures forall i :: 0 <= i < |ThingCalls(base, defs)| ==>
      ThingCalls(base, defs)[i].CreateBody? || ThingCalls(base, defs)[i].CreateFixture?
    decreases |defs|
  {
    if defs != [] {
      ThingCallsShape(base + 2, defs[1..]);
      var rest := ThingCalls(base + 2, defs[1..]);
      assert ThingCalls(base, defs) == [CreateBody(defs[0].body), CreateFixture(base, defs[0].fixture)] + rest;
      forall i | 1 <= i < |defs|
        ensures && ThingCalls(base, defs)[2 * i] == CreateBody(defs[i].body)
                && ThingCalls(base, defs)[2 * i + 1] == CreateFixture(base + 2 * i, defs[i].fixture)
      {
        assert defs[i] == defs[1..][i - 1];
        assert ThingCalls(base, defs)[2 * i] == rest[2 * (i - 1)];
        assert ThingCalls(base, defs)[2 * i + 1] == rest[2 * (i - 1) + 1];
      }
    }
  }

  /** Registering leaves alone every name the definitions do not use. */
  lemma {:induction false} RegisterKeepsOthers(table: map<string, Thing>, base: nat, defs: seq<ThingDef>, id: string)
    requires forall j :: 0 <= j < |defs| ==> defs[j].id != id
    ensures id in Register(table, base, defs) <==> id in table
    ensures id in table ==> Register(table, base, defs)[id] == table[id]
    decreases |defs|
  {
    if defs != [] {
      forall j | 0 <= j < |defs[1..]|
        ensures defs[1..][j].id != id
      {
        assert defs[1..][j] == defs[j + 1];
      }
      RegisterKeepsOthers(table[defs[0].id := Thing(base, defs[0].shape)], base + 2, defs[1..], id);
    }
  }

  /** The table maps an id to the thing registered last under it: a repeated id silently
      overwrites the earlier entry. */
  lemma {:induction false} RegisterLastWins(table: map<string, Thing>, base: nat, defs: seq<ThingDef>, i: nat)
    requires i < |defs|
    requires forall j :: i < j < |defs| ==> defs[j].id != defs[i].id
    ensures defs[i].id in Register(table, base, defs)
    ensures Register(table, base, defs)[defs[i].id] == Thing(base + 2 * i, defs[i].shape)
    decreases |defs|
  {
    var next := table[defs[0].id := Thing(base, defs[0].shape)];
    if i == 0 {
      RegisterKeepsOthers(next, base + 2, defs[1..], defs[0].id);
    } else {
      forall j | i - 1 < j < |defs[1..]|
        ensures defs[1..][j].id != defs[1..][i - 1].id
      {
        assert defs[1..][j] == defs[j + 1];
      }
      RegisterLastWins(next, base + 2, defs[1..], i - 1);
    }
  }

  /** The table's names after registering: the old ones and the ids of the definitions. */
  lemma {:induction false} RegisterKeys(table: map<string, Thing>, base: nat, defs: seq<ThingDef>)
    ensures Register(table, base, defs).Keys == table.Keys + set j | 0 <= j < |defs| :: defs[j].id
    decreases |defs|
  {
    if defs != [] {
      var next := table[defs[0].id := Thing(base, defs[0].shape)];
      RegisterKeys(next, base + 2, defs[1..]);
      var later := set j | 0 <= j < |defs[1..]| :: defs[1..][j].id;
      var all := set j | 0 <= j < |defs| :: defs[j].id;
      assert all == {defs[0].id} + later by {
        forall x | x in all
          ensures x in {defs[0].id} + later
        {
          var j :| 0 <= j < |defs| && defs[j].id == x;
          if j > 0 { assert defs[j] == defs[1..][j - 1]; }
        }
        forall x | x in later
          ensures x in all
        {
          var j :| 0 <= j < |defs[1..]| && defs[1..][j].id == x;
          assert defs[1..][j] == defs[j + 1];
        }
      }
    }
  }

  /** After a things phase that gets through, the entry under an id is the last description
      with that id: its body is that description's (the `2 * i`-th call of the phase), and
      the thing's `getShape` gives the description's `options.shape`. */
  lemma ThingShapes(e: Editor, ts: seq<Value>, i: nat)
    requires AddThings(e, ts).outcome.Pass?
    requires i < |ts| && forall j :: i < j < |ts| ==> Get(ts[j], "id") != Get(ts[i], "id")
    ensures Get(ts[i], "id").Str?
    ensures var things, id := AddThings(e, ts).editor.things, Get(ts[i], "id").s;
      && id in things
      && things[id].body == |e.trace| + 2 * i
      && GetShape(things[id]) == Get(Get(ts[i], "options"), "shape")
  {
    var rs := CheckAll(ts);
    var defs := Accepted(rs);
    AddCheckedRegisters(e, rs);
    assert CheckThing(ts[i]) == Ok(defs[i]);
    forall j | i < j < |defs|
      ensures defs[j].id != defs[i].id
    {
      assert CheckThing(ts[j]) == Ok(defs[j]);
    }
    RegisterLastWins(e.things, |e.trace|, defs, i);
  }

  /** `addThingsToWorld` that gets through leaves the table as its things phase filled it
      in, so `getShape` of every thing is the `options.shape` of the last description with
      its id. */
  lemma BuildShapes(e: Editor, w: Value, i: nat)
    requires Build(e, w).outcome.Pass?
    requires Get(w, "things").Arr? && i < |Get(w, "things").items|
    requires forall j :: i < j < |Get(w, "things").items| ==>
      Get(Get(w, "things").items[j], "id") != Get(Get(w, "things").items[i], "id")
    ensures var t := Get(w, "things").items[i];
      && Get(t, "id").Str? && Get(t, "id").s in Build(e, w).editor.things
      && GetShape(Build(e, w).editor.things[Get(t, "id").s]) == Get(Get(t, "options"), "shape")
  {
    var d := CheckWorld(w).value;
    var b := AddThings(e, d.things);
    CreateJointsTrace(b.editor, d.joints.value);
    ThingShapes(e, d.things, i);
  }

  /** A run of `createJoint`s leaves the table alone and adds joints only. */
  lemma {:induction false} CreateJointsTrace(e: Editor, js: seq<Value>)
    ensures var b := CreateJoints(e, js);
      && b.editor.things == e.things
      && |e.trace| <= |b.editor.trace| <= |e.trace| + |js|
      && b.editor.trace[..|e.trace|] == e.trace
      && (forall i :: |e.trace| <= i < |b.editor.trace| ==> b.editor.trace[i].CreateJoint?)
      && (b.outcome.Pass? ==> |b.editor.trace| == |e.trace| + |js|)
    decreases |js|
  {
    if js != [] {
      match CreateJointStep(e, js[0])
      case Err(_) =>
      case Ok(e') =>
        CreateJointsTrace(e', js[1..]);
        var b := CreateJoints(e', js[1..]);
        assert b.editor.trace[..|e.trace|] == b.editor.trace[..|e'.trace|][..|e.trace|];
        assert b.editor.trace[|e.trace|] == b.editor.trace[..|e'.trace|][|e.trace|];
    }
  }

  lemma {:induction false} AddCheckedConsistent(e: Editor, rs: seq<Result<ThingDef, Fault>>)
    requires Consistent(e)
    ensures Consistent(AddChecked(e, rs).editor)
    decreases |rs|
  {
    if rs != [] && rs[0].Ok? {
      AddDefConsistent(e, rs[0].value);
      AddCheckedConsistent(AddDef(e, rs[0].value), rs[1..]);
    }
  }

  lemma {:induction false} CreateJointsConsistent(e: Editor, js: seq<Value>)
    requires Consistent(e)
    ensures Consistent(CreateJoints(e, js).editor)
    decreases |js|
  {
    if js != [] && CreateJointStep(e, js[0]).Ok? {
      CreateJointConsistent(e, js[0]);
      CreateJointsConsistent(CreateJointStep(e, js[0]).value, js[1..]);
    }
  }

  /** No joint comes before a body in `s`. */
  predicate BodiesBeforeJoints(s: seq<Event>)
  {
    forall i, j :: 0 <= i < j < |s| && s[j].CreateBody? ==> !s[i].CreateJoint?
  }

  /** `full` extends `base` with creation calls only, every body before every joint. */
  predicate Ordered(base: seq<Event>, full: seq<Event>)
  {
    && |base| <= |full| && full[..|base|] == base
    && BodiesBeforeJoints(full[|base|..])
    && (forall i :: |base| <= i < |full| ==>
          full[i].CreateBody? || full[i].CreateFixture? || full[i].CreateJoint?)
  }

  /** `addThingsToWorld` creates every thing, in array order, before any joint; it only ever
      names bodies that exist; it calls nothing but the creation calls; and it throws
      whenever the description leaves `joints` out. */
  lemma BuildOrder(e: Editor, w: Value)
    requires Consistent(e)
    ensures var b := Build(e, w);
      && Consistent(b.editor)
      && Ordered(e.trace, b.editor.trace)
      && (Get(w, "joints").Undefined? ==> b.outcome.Fail?)
  {
    match CheckWorld(w)
    case Err(_) =>
      PhaseOrder(e.trace, |e.trace|, e.trace);
    case Ok(d) =>
      BuildCheckedOrder(e, d);
  }

  /** `BuildOrder` once the description passed its checks. */
  lemma BuildCheckedOrder(e: Editor, d: WorldDef)
    requires Consistent(e)
    ensures var b := BuildChecked(e, d);
      && Consistent(b.editor)
      && Ordered(e.trace, b.editor.trace)
      && (d.joints.None? ==> b.outcome.Fail?)
  {
    var a := AddThings(e, d.things);
    AddCheckedPhase(e, CheckAll(d.things));
    if a.outcome.Fail? || d.joints.None? {
      PhaseOrder(e.trace, |a.editor.trace|, a.editor.trace);
    } else {
      JointsPhase(e.trace, a.editor, d.joints.value);
    }
  }

  /** The joints after `things`, which extends `base` with body and fixture calls only,
      keep the editor consistent and the trace ordered. */
  lemma JointsPhase(base: seq<Event>, things: Editor, js: seq<Value>)
    requires Consistent(things)
    requires |base| <= |things.trace| && things.trace[..|base|] == base
    requires forall i :: |base| <= i < |things.trace| ==>
      things.trace[i].CreateBody? || things.trace[i].CreateFixture?
    ensures var j := CreateJoints(things, js);
      Consistent(j.editor) && Ordered(base, j.editor.trace)
  {
    var t := CreateJoints(things, js).editor.trace;
    CreateJointsTrace(things, js);
    CreateJointsConsistent(things, js);
    forall i | |base| <= i < |things.trace|
      ensures t[i].CreateBody? || t[i].CreateFixture?
    {
      assert t[i] == t[..|things.trace|][i];
    }
    assert t[..|base|] == t[..|things.trace|][..|base|];
    PhaseOrder(base, |things.trace|, t);
  }

  /** The things phase keeps the editor consistent and adds body and fixture calls only. */
  lemma AddCheckedPhase(e: Editor, rs: seq<Result<ThingDef, Fault>>)
    requires Consistent(e)
    ensures var a := AddChecked(e, rs);
      && Consistent(a.editor)
      && |e.trace| <= |a.editor.trace| && a.editor.trace[..|e.trace|] == e.trace
      && (forall i :: |e.trace| <= i < |a.editor.trace| ==>
            a.editor.trace[i].CreateBody? || a.editor.trace[i].CreateFixture?)
  {
    AddCheckedRegisters(e, rs);
    AddCheckedConsistent(e, rs);
    var calls := ThingCalls(|e.trace|, Accepted(rs));
    ThingCallsShape(|e.trace|, Accepted(rs));
    var t := AddChecked(e, rs).editor.trace;
    assert t == e.trace + calls;
    forall i | |e.trace| <= i < |t|
      ensures t[i].CreateBody? || t[i].CreateFixture?
    {
      assert t[i] == calls[i - |e.trace|];
    }
  }

  /** A trace made of `base`, then body and fixture calls up to `mid`, then joint calls
      only. */
  lemma PhaseOrder(base: seq<Event>, mid: nat, full: seq<Event>)
    requires |base| <= mid <= |full| && full[..|base|] == base
    requires forall i :: |base| <= i < mid ==> full[i].CreateBody? || full[i].CreateFixture?
    requires forall i :: mid <= i < |full| ==> full[i].CreateJoint?
    ensures Ordered(base, full)
  {
  }

  /** The editor's engine calls never include a simulation step. */
  lemma BuildTicksNothing(e: Editor, w: Value)
    requires Consistent(e)
    ensures Ticked(Build(e, w).editor.trace) == Ticked(e.trace)
  {
    BuildOrder(e, w);
    OrderedTicks(e.trace, Build(e, w).editor.trace);
  }

  /** Creation calls add no simulation step. */
  lemma OrderedTicks(base: seq<Event>, full: seq<Event>)
    requires Ordered(base, full)
    ensures Ticked(full) == Ticked(base)
  {
    var more := full[|base|..];
    assert full == base + more;
    TickedAppend(base, more);
    NoSteps(more);
  }

  /** `makeWorldEditor`'s closure state: the engine world and the thing table. */
  class WorldEditor {
    const backend: Backend
    var thingsByName: map<string, Thing>

    function State(): Editor
      reads this, backend
    {
      Editor(backend.trace, thingsByName)
    }

    /** A new engine world and an empty table. */
    constructor ()
      ensures fresh(backend) && State() == Editor([], map[])
    {
      backend := new Backend();
      thingsByName := map[];
    }

    /** `addThing(thingDescription)`: every check comes before the first engine call, so a
        description that throws leaves everything as it was. */
    method AddThing(t: Value) returns (outcome: Outcome<Fault>)
      modifies this, backend
      ensures match AddThingStep(old(State()), t)
        case Ok(e) => State() == e && outcome == Pass
        case Err(f) => State() == old(State()) && outcome == Fail(f)
    {
      var def := CheckThing(t);
      if def.Err? {
        return Fail(def.error);
      }
      var d := def.value;
      var h := |backend.trace|;
      backend.Record(CreateBody(d.body));
      backend.Record(CreateFixture(h, d.fixture));
      thingsByName := thingsByName[d.id := Thing(h, d.shape)];
      return Pass;
    }

    /** `createJoint(jointDescription)`. */
    method CreateJoint(j: Value) returns (outcome: Outcome<Fault>)
      modifies backend
      ensures match CreateJointStep(old(State()), j)
        case Ok(e) => State() == e && outcome == Pass
        case Err(f) => State() == old(State()) && outcome == Fail(f)
    {
      var def := CheckJoint(j, thingsByName);
      if def.Err? {
        return Fail(def.error);
      }
      var d := def.value;
      backend.Record(Event.CreateJoint(d.bodyA, d.bodyB, d.anchorX, d.anchorY));
      return Pass;
    }

    /** `addThingsToWorld(worldDescriptionJSON)`: parse, check, then the two `forEach`
        loops; what was created before a throw stays created. */
    method AddThingsToWorld(text: string, parse: string -> Option<Value>) returns (outcome: Outcome<Fault>)
      modifies this, backend
      ensures var b := BuildText(old(State()), text, parse);
        State() == b.editor && outcome == b.outcome
    {
      var parsed := parse(text);
      if parsed.None? {
        return Fail(NotJson);
      }
      var w := CheckWorld(parsed.value);
      if w.Err? {
        return Fail(w.error);
      }
      var things := w.value.things;
      ghost var rs := CheckAll(things);
      ghost var e0 := State();
      var i := 0;
      while i < |things|
        invariant 0 <= i <= |things|
        invariant AddChecked(e0, rs) == AddChecked(State(), rs[i..])
      {
        assert rs[i..][0] == rs[i] && rs[i..][1..] == rs[i + 1..];
        var o := AddThing(things[i]);
        if o.Fail? {
          return o;
        }
        i := i + 1;
      }
      if w.value.joints.None? {
        return Fail(TypeError);
      }
      var joints := w.value.joints.value;
      ghost var e1 := State();
      i := 0;
      while i < |joints|
        invariant 0 <= i <= |joints|
        invariant CreateJoints(e1, joints) == CreateJoints(State(), joints[i..])
      {
        assert joints[i..][0] == joints[i] && joints[i..][1..] == joints[i + 1..];
        var o := CreateJoint(joints[i]);
        if o.Fail? {
          return o;
        }
        i := i + 1;
      }
      return Pass;
    }
  }
}
