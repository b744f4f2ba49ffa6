/** The world editor of the p2 variant (phyzzie.js, `makeWorldEditor`): the material
    registry, the thing table, and the fixed order in which a description's parts reach
    the engine. Its checks are `console.assert`s, which report and carry on; they are
    modelled as what a caller must guarantee. */
module P2World {
  import opened Wrappers
  import opened JsValues
  import opened P2Backend

  /** A shape of a thing description. `Undefined` stands for a member that is left out. */
  datatype ShapeSpec = ShapeSpec(kind: Value, options: Value, materialID: Value, offset: Value, angle: Value)

  /** A thing description: its id, the options for `new p2.Body`, and its shapes. */
  datatype ThingSpec = ThingSpec(id: string, bodyOptions: Value, shapes: seq<ShapeSpec>)

  datatype ContactSpec = ContactSpec(materialA: Value, materialB: Value, options: Value)

  datatype ConstraintSpec = ConstraintSpec(kind: Value, bodyA: string, bodyB: string, options: Value)

  /** A parsed world description: its four lists. */
  datatype Description = Description(
    materials: seq<Value>, contactMaterials: seq<ContactSpec>,
    things: seq<ThingSpec>, constraints: seq<ConstraintSpec>)

  /** A table entry: the body and the description's shapes. */
  datatype Entry = Entry(body: Handle, shapes: seq<ShapeSpec>)

  /** What the editor has done so far: the engine's trace, `materials` and `thingsByName`. */
  datatype P2Editor = P2Editor(trace: seq<P2Event>, materials: map<int, Handle>, things: map<string, Entry>)

  /** Why a call threw. */
  datatype P2Fault = UnknownBody(name: string)  // `thingsByName[name][0]` of a name not in the table

  /** `typeof id === "number" && !isNaN(id) && id % 1 === 0 && id > 0` (an infinite id
      fails `% 1`). */
  predicate IsMaterialId(id: Value)
  {
    id.Num? && id.n.Finite? && IsWhole(id.n.value) && id.n.value > 0.0
  }

  /** The registry key of a value, for numbers that are whole; other keys are not modelled. */
  function MaterialKey(id: Value): Option<int>
  {
    if id.Num? && id.n.Finite? && IsWhole(id.n.value) then Some(id.n.value.Floor) else None
  }

  /** `materials[id] !== undefined`. */
  predicate Registered(materials: map<int, Handle>, id: Value)
  {
    MaterialKey(id).Some? && MaterialKey(id).value in materials
  }

  /** `addMaterial(materialID)`: a new engine material, registered under its id; an id
      registered before now names the new material. */
  function AddMaterialStep(e: P2Editor, id: Value): (r: P2Editor)
    requires IsMaterialId(id)
    ensures r.trace == e.trace + [NewMaterial(MaterialKey(id).value)]
    ensures r.materials.Keys == e.materials.Keys + {MaterialKey(id).value} && r.things == e.things
    ensures r.materials[MaterialKey(id).value] == |e.trace|
    ensures forall k :: k in e.materials && k != MaterialKey(id).value ==> r.materials[k] == e.materials[k]
  {
    var key := id.n.value.Floor;
    P2Editor(e.trace + [NewMaterial(key)], e.materials[key := |e.trace|], e.things)
  }

  /** `addContactMaterial(description)`: a contact between two registered materials. */
  function AddContactStep(e: P2Editor, c: ContactSpec): (r: P2Editor)
    requires Registered(e.materials, c.materialA) && Registered(e.materials, c.materialB)
    ensures r.trace == e.trace + [AddContactMaterial(e.materials[MaterialKey(c.materialA).value],
                                                     e.materials[MaterialKey(c.materialB).value], c.options)]
    ensures r.materials == e.materials && r.things == e.things
  {
    var a, b := e.materials[MaterialKey(c.materialA).value], e.materials[MaterialKey(c.materialB).value];
    P2Editor(e.trace + [AddContactMaterial(a, b, c.options)], e.materials, e.things)
  }

  /** The shape constructor a shape type selects. */
  function ShapeKindOf(kind: Value): Option<ShapeKind>
  {
    if kind == Str("circle") then Some(CircleKind)
    else if kind == Str("box") then Some(BoxKind)
    else if kind == Str("plane") then Some(PlaneKind)
    else None
  }

  /** The constraint constructor a constraint type selects. */
  function ConstraintKindOf(kind: Value): Option<ConstraintKind>
  {
    if kind == Str("distance") then Some(DistanceKind)
    else if kind == Str("prismatic") then Some(PrismaticKind)
    else None
  }

  /** `body.addShape(shape, offset, angle)` for one shape description. */
  function ShapeCall(body: Handle, s: ShapeSpec, materials: map<int, Handle>): (ev: P2Event)
    requires ShapeKindOf(s.kind).Some?
    ensures ev.AddShape? && ev.body == body && Some(ev.shapeKind) == ShapeKindOf(s.kind) && ev.options == s.options
    ensures ev.offset == if s.offset.Undefined? then Arr([Num(Finite(0.0)), Num(Finite(0.0))]) else s.offset
    ensures ev.angle == if s.angle.Undefined? then Num(Finite(0.0)) else s.angle
    ensures (ev.material == DefaultMaterial) <==> s.materialID.Undefined?
    ensures Registered(materials, s.materialID) ==>
              ev.material == Assigned(Some(materials[MaterialKey(s.materialID).value]))
    ensures !s.materialID.Undefined? && !Registered(materials, s.materialID) ==> ev.material == Assigned(None)
  {
    var material :=
      if s.materialID.Undefined? then DefaultMaterial
      else if Registered(materials, s.materialID) then Assigned(Some(materials[MaterialKey(s.materialID).value]))
      else Assigned(None);
    var offset := if s.offset.Undefined? then Arr([Num(Finite(0.0)), Num(Finite(0.0))]) else s.offset;
    var angle := if s.angle.Undefined? then Num(Finite(0.0)) else s.angle;
    AddShape(body, ShapeKindOf(s.kind).value, s.options, material, offset, angle)
  }

  /** Every shape of a thing has a supported type. */
  predicate ShapesSupported(shapes: seq<ShapeSpec>)
  {
    forall i :: 0 <= i < |shapes| ==> ShapeKindOf(shapes[i].kind).Some?
  }

  /** The `addShape` calls of a thing's shapes, in order. */
  function ShapeCalls(body: Handle, shapes: seq<ShapeSpec>, materials: map<int, Handle>): (calls: seq<P2Event>)
    requires ShapesSupported(shapes)
    ensures |calls| == |shapes|
    ensures forall i :: 0 <= i < |shapes| ==> calls[i] == ShapeCall(body, shapes[i], materials)
  {
    seq(|shapes|, i requires 0 <= i < |shapes| => ShapeCall(body, shapes[i], materials))
  }

  /** `addThing(description)`: a new body, its shapes, then the body joins the world and the
      table, where it replaces any earlier entry under the same id. */
  function AddThingStep(e: P2Editor, t: ThingSpec): (r: P2Editor)
    requires ShapesSupported(t.shapes)
    ensures var h := |e.trace|;
      && r.trace == e.trace + [NewBody(t.bodyOptions)] + ShapeCalls(h, t.shapes, e.materials) + [AddBody(h)]
      && r.materials == e.materials
      && r.things.Keys == e.things.Keys + {t.id}
      && r.things[t.id] == Entry(h, t.shapes)
      && (forall k :: k in e.things && k != t.id ==> r.things[k] == e.things[k])
  {
    var h := |e.trace|;
    P2Editor(e.trace + [NewBody(t.bodyOptions)] + ShapeCalls(h, t.shapes, e.materials) + [AddBody(h)],
             e.materials, e.things[t.id := Entry(h, t.shapes)])
  }

  /** `createConstraint(description)`: reading the body of a name the table does not hold
      throws; otherwise a constraint between the two bodies. */
  function CreateConstraintStep(e: P2Editor, c: ConstraintSpec): (r: Result<P2Editor, P2Fault>)
    requires ConstraintKindOf(c.kind).Some?
    ensures r.Ok? <==> c.bodyA in e.things && c.bodyB in e.things
    ensures c.bodyA !in e.things ==> r == Err(UnknownBody(c.bodyA))
    ensures c.bodyA in e.things && c.bodyB !in e.things ==> r == Err(UnknownBody(c.bodyB))
    ensures r.Ok? ==>
      && r.value.trace == e.trace + [AddConstraint(ConstraintKindOf(c.kind).value,
                                                   e.things[c.bodyA].body, e.things[c.bodyB].body, c.options)]
      && r.value.materials == e.materials && r.value.things == e.things
  {
    if c.bodyA !in e.things then Err(UnknownBody(c.bodyA))
    else if c.bodyB !in e.things then Err(UnknownBody(c.bodyB))
    else Ok(P2Editor(e.trace + [AddConstraint(ConstraintKindOf(c.kind).value,
                                              e.things[c.bodyA].body, e.things[c.bodyB].body, c.options)],
                     e.materials, e.things))
  }

  /** `materials.forEach(addMaterial)`. */
  function AddMaterials(e: P2Editor, ids: seq<Value>): P2Editor
    requires forall i :: 0 <= i < |ids| ==> IsMaterialId(ids[i])
    decreases |ids|
  {
    if ids == [] then e else AddMaterials(AddMaterialStep(e, ids[0]), ids[1..])
  }

  /** `contactMaterials.forEach(addContactMaterial)`. */
  function AddContacts(e: P2Editor, cs: seq<ContactSpec>): P2Editor
    requires forall i :: 0 <= i < |cs| ==> Registered(e.materials, cs[i].materialA) && Registered(e.materials, cs[i].materialB)
    decreases |cs|
  {
    if cs == [] then e else AddContacts(AddContactStep(e, cs[0]), cs[1..])
  }

  /** `things.forEach(addThing)`. */
  function AddThings(e: P2Editor, ts: seq<ThingSpec>): P2Editor
    requires forall i :: 0 <= i < |ts| ==> ShapesSupported(ts[i].shapes)
    decreases |ts|
  {
    if ts == [] then e else AddThings(AddThingStep(e, ts[0]), ts[1..])
  }

  /** `constraints.forEach(createConstraint)`, up to the first that throws. */
  function CreateConstraints(e: P2Editor, cs: seq<ConstraintSpec>): (r: Result<P2Editor, P2Fault>)
    requires forall i :: 0 <= i < |cs| ==> ConstraintKindOf(cs[i].kind).Some?
    decreases |cs|
  {
    if cs == [] then Ok(e)
    else match CreateConstraintStep(e, cs[0])
      case Err(f) => Err(f)
      case Ok(e') => CreateConstraints(e', cs[1..])
  }

  /** The registry keys of a list of material ids. */
  function Keys(ids: seq<Value>): set<int>
  {
    set i | 0 <= i < |ids| && MaterialKey(ids[i]).Some? :: MaterialKey(ids[i]).value
  }

  /** What the asserts of `addThingsToWorld` ask of a description: material ids that are
      whole numbers above 0, contacts between materials the description registers, and
      supported shape and constraint types. */
  predicate Supported(d: Description)
  {
    && (forall i :: 0 <= i < |d.materials| ==> IsMaterialId(d.materials[i]))
    && (forall i :: 0 <= i < |d.contactMaterials| ==>
          && MaterialKey(d.contactMaterials[i].materialA).Some?
          && MaterialKey(d.contactMaterials[i].materialA).value in Keys(d.materials)
          && MaterialKey(d.contactMaterials[i].materialB).Some?
          && MaterialKey(d.contactMaterials[i].materialB).value in Keys(d.materials))
    && (forall i :: 0 <= i < |d.things| ==> ShapesSupported(d.things[i].shapes))
    && (forall i :: 0 <= i < |d.constraints| ==> ConstraintKindOf(d.constraints[i].kind).Some?)
  }

  /** Registering materials adds exactly their keys. */
  lemma {:induction false} AddMaterialsKeys(e: P2Editor, ids: seq<Value>)
    requires forall i :: 0 <= i < |ids| ==> IsMaterialId(ids[i])
    ensures AddMaterials(e, ids).materials.Keys == e.materials.Keys + Keys(ids)
    ensures AddMaterials(e, ids).things == e.things
    ensures |AddMaterials(e, ids).trace| == |e.trace| + |ids|
    ensures AddMaterials(e, ids).trace[..|e.trace|] == e.trace
    ensures forall i :: |e.trace| <= i < |AddMaterials(e, ids).trace| ==> AddMaterials(e, ids).trace[i].NewMaterial?
    decreases |ids|
  {
    if ids != [] {
      var e' := AddMaterialStep(e, ids[0]);
      var r := AddMaterials(e', ids[1..]);
      assert AddMaterials(e, ids) == r;
      AddMaterialsKeys(e', ids[1..]);
      KeysCons(ids);
      assert r.materials.Keys == e.materials.Keys + ({MaterialKey(ids[0]).value} + Keys(ids[1..]));
      var t := r.trace;
      assert t[..|e.trace|] == t[..|e'.trace|][..|e.trace|];
      forall i | |e.trace| <= i < |t|
        ensures t[i].NewMaterial?
      {
        if i == |e.trace| {
          assert t[i] == t[..|e'.trace|][i] == e'.trace[i];
        }
      }
    }
  }

  /** The keys of a list are the first id's key and the keys of the rest. */
  lemma KeysCons(ids: seq<Value>)
    requires ids != [] && IsMaterialId(ids[0])
    ensures Keys(ids) == {MaterialKey(ids[0]).value} + Keys(ids[1..])
  {
    forall x | x in Keys(ids)
      ensures x in {MaterialKey(ids[0]).value} + Keys(ids[1..])
    {
      var i :| 0 <= i < |ids| && MaterialKey(ids[i]).Some? && MaterialKey(ids[i]).value == x;
      if i > 0 { assert ids[i] == ids[1..][i - 1]; }
    }
    forall x | x in Keys(ids[1..])
      ensures x in Keys(ids)
    {
      var i :| 0 <= i < |ids[1..]| && MaterialKey(ids[1..][i]).Some? && MaterialKey(ids[1..][i]).value == x;
      assert ids[1..][i] == ids[i + 1];
    }
  }

  /** Contacts add contact calls only. */
  lemma {:induction false} AddContactsShape(e: P2Editor, cs: seq<ContactSpec>)
    requires forall i :: 0 <= i < |cs| ==> Registered(e.materials, cs[i].materialA) && Registered(e.materials, cs[i].materialB)
    ensures var r := AddContacts(e, cs);
      && r.materials == e.materials && r.things == e.things
      && |r.trace| == |e.trace| + |cs| && r.trace[..|e.trace|] == e.trace
      && (forall i :: |e.trace| <= i < |r.trace| ==> r.trace[i].AddContactMaterial?)
    decreases |cs|
  {
    if cs != [] {
      var e' := AddContactStep(e, cs[0]);
      AddContactsShape(e', cs[1..]);
      var t := AddContacts(e', cs[1..]).trace;
      assert t[..|e.trace|] == t[..|e'.trace|][..|e.trace|];
      assert t[|e.trace|] == t[..|e'.trace|][|e.trace|];
    }
  }

  /** The calls `addThing` makes are all body calls. */
  predicate IsBodyCall(ev: P2Event)
  {
    ev.NewBody? || ev.AddShape? || ev.AddBody?
  }

  /** Things add body calls only, and leave the registry alone. */
  lemma {:induction false} AddThingsShape(e: P2Editor, ts: seq<ThingSpec>)
    requires forall i :: 0 <= i < |ts| ==> ShapesSupported(ts[i].shapes)
    ensures var r := AddThings(e, ts);
      && r.materials == e.materials
      && |e.trace| <= |r.trace| && r.trace[..|e.trace|] == e.trace
      && (forall i :: |e.trace| <= i < |r.trace| ==> IsBodyCall(r.trace[i]))
    decreases |ts|
  {
    if ts != [] {
      var e' := AddThingStep(e, ts[0]);
      AddThingsShape(e', ts[1..]);
      AddThingStepShape(e, ts[0]);
      var t := AddThings(e', ts[1..]).trace;
      assert t[..|e.trace|] == t[..|e'.trace|][..|e.trace|];
      forall i | |e.trace| <= i < |e'.trace|
        ensures IsBodyCall(t[i])
      {
        assert t[i] == e'.trace[i] by { assert t[i] == t[..|e'.trace|][i]; }
      }
    }
  }

  /** One thing adds body calls only. */
  lemma AddThingStepShape(e: P2Editor, t: ThingSpec)
    requires ShapesSupported(t.shapes)
    ensures var r := AddThingStep(e, t);
      && |e.trace| <= |r.trace| && r.trace[..|e.trace|] == e.trace
      && (forall i :: |e.trace| <= i < |r.trace| ==> IsBodyCall(r.trace[i]))
  {
    var r := AddThingStep(e, t);
    var calls := ShapeCalls(|e.trace|, t.shapes, e.materials);
    assert r.trace == e.trace + [NewBody(t.bodyOptions)] + calls + [AddBody(|e.trace|)];
    forall i | |e.trace| < i < |e.trace| + 1 + |calls|
      ensures r.trace[i] == calls[i - |e.trace| - 1]
    {
    }
  }

  /** Constraints add constraint calls only, and leave both tables alone. */
  lemma {:induction false} CreateConstraintsShape(e: P2Editor, cs: seq<ConstraintSpec>)
    requires forall i :: 0 <= i < |cs| ==> ConstraintKindOf(cs[i].kind).Some?
    ensures var r := CreateConstraints(e, cs);
      r.Ok? ==> && r.value.materials == e.materials && r.value.things == e.things
                && |r.value.trace| == |e.trace| + |cs| && r.value.trace[..|e.trace|] == e.trace
                && (forall i :: |e.trace| <= i < |r.value.trace| ==> r.value.trace[i].AddConstraint?)
    decreases |cs|
  {
    if cs != [] && CreateConstraintStep(e, cs[0]).Ok? {
      var e' := CreateConstraintStep(e, cs[0]).value;
      CreateConstraintsShape(e', cs[1..]);
      var r := CreateConstraints(e', cs[1..]);
      if r.Ok? {
        var t := r.value.trace;
        assert t[..|e.trace|] == t[..|e'.trace|][..|e.trace|];
        assert t[|e.trace|] == t[..|e'.trace|][|e.trace|];
      }
    }
  }

  /** `addThingsToWorld(description)`: all materials, then all contact materials, then all
      things, then all constraints. */
  function Build(d: Description): (r: Result<P2Editor, P2Fault>)
    requires Supported(d)
  {
    var e0 := P2Editor([], map[], map[]);
    var e1 := AddMaterials(e0, d.materials);
    AddMaterialsKeys(e0, d.materials);
    var e2 := AddContacts(e1, d.contactMaterials);
    AddContactsShape(e1, d.contactMaterials);
    var e3 := AddThings(e2, d.things);
    CreateConstraints(e3, d.constraints)
  }

  /** The phase of the build a call belongs to. */
  function Phase(ev: P2Event): nat
  {
    match ev
    case NewMaterial(_) => 0
    case AddContactMaterial(_, _, _) => 1
    case NewBody(_) => 2
    case AddShape(_, _, _, _, _, _) => 2
    case AddBody(_) => 2
    case AddConstraint(_, _, _, _) => 3
    case WorldStep(_) => 4
  }

  /** The build order: every material call comes before every contact call, which comes
      before every body call, which comes before every constraint call. */
  lemma BuildOrder(d: Description)
    requires Supported(d) && Build(d).Ok?
    ensures var t := Build(d).value.trace;
      forall i, j :: 0 <= i < j < |t| ==> Phase(t[i]) <= Phase(t[j])
  {
    var e1, e2, e3 := BuildStages(d);
    SegmentsOrdered(e1, e2, e3, Build(d).value.trace);
  }

  /** The editors after the materials, the contacts and the things phases, and what each
      phase adds to the trace. */
  lemma BuildStages(d: Description) returns (e1: P2Editor, e2: P2Editor, e3: P2Editor)
    requires Supported(d) && Build(d).Ok?
    ensures var t := Build(d).value.trace;
      && |e1.trace| <= |e2.trace| <= |e3.trace| <= |t|
      && e2.trace[..|e1.trace|] == e1.trace && e3.trace[..|e2.trace|] == e2.trace && t[..|e3.trace|] == e3.trace
      && (forall i :: 0 <= i < |e1.trace| ==> e1.trace[i].NewMaterial?)
      && (forall i :: |e1.trace| <= i < |e2.trace| ==> e2.trace[i].AddContactMaterial?)
      && (forall i :: |e2.trace| <= i < |e3.trace| ==> IsBodyCall(e3.trace[i]))
      && (forall i :: |e3.trace| <= i < |t| ==> t[i].AddConstraint?)
  {
    var e0 := P2Editor([], map[], map[]);
    e1 := AddMaterials(e0, d.materials);
    AddMaterialsKeys(e0, d.materials);
    e2 := AddContacts(e1, d.contactMaterials);
    AddContactsShape(e1, d.contactMaterials);
    e3 := AddThings(e2, d.things);
    AddThingsShape(e2, d.things);
    CreateConstraintsShape(e3, d.constraints);
  }

  /** Traces that extend one another, each adding calls of one phase, end in phase order. */
  lemma SegmentsOrdered(e1: P2Editor, e2: P2Editor, e3: P2Editor, t: seq<P2Event>)
    requires |e1.trace| <= |e2.trace| <= |e3.trace| <= |t|
    requires e2.trace[..|e1.trace|] == e1.trace && e3.trace[..|e2.trace|] == e2.trace && t[..|e3.trace|] == e3.trace
    requires forall i :: 0 <= i < |e1.trace| ==> e1.trace[i].NewMaterial?
    requires forall i :: |e1.trace| <= i < |e2.trace| ==> e2.trace[i].AddContactMaterial?
    requires forall i :: |e2.trace| <= i < |e3.trace| ==> IsBodyCall(e3.trace[i])
    requires forall i :: |e3.trace| <= i < |t| ==> t[i].AddConstraint?
    ensures forall i, j :: 0 <= i < j < |t| ==> Phase(t[i]) <= Phase(t[j])
  {
    forall i | 0 <= i < |e3.trace|
      ensures t[i] == e3.trace[i]
    {
      PrefixAt(t, e3.trace, i);
    }
    forall i | 0 <= i < |e2.trace|
      ensures e3.trace[i] == e2.trace[i]
    {
      PrefixAt(e3.trace, e2.trace, i);
    }
    forall i | 0 <= i < |e1.trace|
      ensures e2.trace[i] == e1.trace[i]
    {
      PrefixAt(e2.trace, e1.trace, i);
    }
    PhasesOrdered(t, |e1.trace|, |e2.trace|, |e3.trace|);
  }

  /** A trace made of material calls, then contact calls, then body calls, then constraint
      calls is in phase order. */
  lemma PhasesOrdered(t: seq<P2Event>, n1: nat, n2: nat, n3: nat)
    requires n1 <= n2 <= n3 <= |t|
    requires forall i :: 0 <= i < n1 ==> t[i].NewMaterial?
    requires forall i :: n1 <= i < n2 ==> t[i].AddContactMaterial?
    requires forall i :: n2 <= i < n3 ==> IsBodyCall(t[i])
    requires forall i :: n3 <= i < |t| ==> t[i].AddConstraint?
    ensures forall i, j :: 0 <= i < j < |t| ==> Phase(t[i]) <= Phase(t[j])
  {
    forall i | 0 <= i < |t|
      ensures Phase(t[i]) == if i < n1 then 0 else if i < n2 then 1 else if i < n3 then 2 else 3
    {
    }
  }

  /** A call of a prefix of a trace is the trace's call at the same place. */
  lemma PrefixAt(a: seq<P2Event>, b: seq<P2Event>, i: nat)
    requires |b| <= |a| && a[..|b|] == b && i < |b|
    ensures a[i] == b[i]
  {
    assert a[i] == a[..|b|][i];
  }

  /** After the things phase, the table maps an id to the thing added last under it: its
      body is the `NewBody` call made when that thing was added (the handle is the trace
      length at that point) and its shapes are that thing's. */
  lemma {:induction false} AddThingsLastWins(e: P2Editor, ts: seq<ThingSpec>, i: nat)
    requires forall j :: 0 <= j < |ts| ==> ShapesSupported(ts[j].shapes)
    requires i < |ts| && forall j :: i < j < |ts| ==> ts[j].id != ts[i].id
    ensures ts[i].id in AddThings(e, ts).things
    ensures AddThings(e, ts).things[ts[i].id] == Entry(|AddThings(e, ts[..i]).trace|, ts[i].shapes)
    ensures |AddThings(e, ts[..i]).trace| < |AddThings(e, ts).trace|
    ensures AddThings(e, ts).trace[|AddThings(e, ts[..i]).trace|] == NewBody(ts[i].bodyOptions)
    decreases |ts|
  {
    var e' := AddThingStep(e, ts[0]);
    if i == 0 {
      assert ts[..0] == [];
      AddThingsKeepsOthers(e', ts[1..], ts[0].id);
      AddThingsShape(e', ts[1..]);
      var t := AddThings(e', ts[1..]).trace;
      assert t[|e.trace|] == t[..|e'.trace|][|e.trace|];
    } else {
      assert ts[..i][0] == ts[0] && ts[..i][1..] == ts[1..][..i - 1];
      forall j | i - 1 < j < |ts[1..]|
        ensures ts[1..][j].id != ts[1..][i - 1].id
      {
        assert ts[1..][j] == ts[j + 1];
      }
      AddThingsLastWins(e', ts[1..], i - 1);
    }
  }

  /** The things phase leaves alone every id none of its things uses. */
  lemma {:induction false} AddThingsKeepsOthers(e: P2Editor, ts: seq<ThingSpec>, id: string)
    requires forall j :: 0 <= j < |ts| ==> ShapesSupported(ts[j].shapes)
    requires forall j :: 0 <= j < |ts| ==> ts[j].id != id
    ensures id in AddThings(e, ts).things <==> id in e.things
    ensures id in e.things ==> AddThings(e, ts).things[id] == e.things[id]
    decreases |ts|
  {
    if ts != [] {
      forall j | 0 <= j < |ts[1..]|
        ensures ts[1..][j].id != id
      {
        assert ts[1..][j] == ts[j + 1];
      }
      AddThingsKeepsOthers(AddThingStep(e, ts[0]), ts[1..], id);
    }
  }

  /** `makeWorldEditor(world)`'s closure state: the engine world, `materials` and
      `thingsByName` (`encapsulatedThingsByName` holds the same entries behind the thing
      encapsulator). */
  class P2WorldEditor {
    const engine: P2Engine
    var materials: map<int, Handle>
    var thingsByName: map<string, Entry>

    function State(): P2Editor
      reads this, engine
    {
      P2Editor(engine.trace, materials, thingsByName)
    }

    constructor (engine: P2Engine)
      ensures this.engine == engine && materials == map[] && thingsByName == map[]
    {
      this.engine := engine;
      materials := map[];
      thingsByName := map[];
    }

    /** `addMaterial(materialID)`. */
    method AddMaterial(id: Value)
      requires IsMaterialId(id)
      modifies this, engine
      ensures State() == AddMaterialStep(old(State()), id)
    {
      var key := id.n.value.Floor;
      var m := |engine.trace|;
      engine.Record(NewMaterial(key));
      materials := materials[key := m];
    }

    /** `addContactMaterial(contactMaterialDescription)`. */
    method AddContactMaterial(c: ContactSpec)
      requires Registered(materials, c.materialA) && Registered(materials, c.materialB)
      modifies engine
      ensures State() == AddContactStep(old(State()), c)
    {
      var a := materials[MaterialKey(c.materialA).value];
      var b := materials[MaterialKey(c.materialB).value];
      engine.Record(P2Event.AddContactMaterial(a, b, c.options));
    }

    /** `addThing(thingDescription)`: the body, its shapes one by one, then the world and
        the table. */
    method AddThing(t: ThingSpec)
      requires ShapesSupported(t.shapes)
      modifies this, engine
      ensures State() == AddThingStep(old(State()), t)
    {
      var h := |engine.trace|;
      engine.Record(NewBody(t.bodyOptions));
      ghost var start := engine.trace;
      var i := 0;
      while i < |t.shapes|
        invariant 0 <= i <= |t.shapes|
        invariant materials == old(materials) && thingsByName == old(thingsByName)
        invariant engine.trace == start + ShapeCalls(h, t.shapes[..i], materials)
      {
        assert ShapeCalls(h, t.shapes[..i + 1], materials) == ShapeCalls(h, t.shapes[..i], materials) + [ShapeCall(h, t.shapes[i], materials)];
        engine.Record(ShapeCall(h, t.shapes[i], materials));
        i := i + 1;
      }
      assert t.shapes[..i] == t.shapes;
      engine.Record(AddBody(h));
      thingsByName := thingsByName[t.id := Entry(h, t.shapes)];
    }

    /** `createConstraint(constraintDescription)`. */
    method CreateConstraint(c: ConstraintSpec) returns (outcome: Outcome<P2Fault>)
      requires ConstraintKindOf(c.kind).Some?
      modifies engine
      ensures match CreateConstraintStep(old(State()), c)
        case Ok(e) => State() == e && outcome == Pass
        case Err(f) => State() == old(State()) && outcome == Fail(f)
    {
      if c.bodyA !in thingsByName {
        return Fail(UnknownBody(c.bodyA));
      }
      if c.bodyB !in thingsByName {
        return Fail(UnknownBody(c.bodyB));
      }
      var kind := ConstraintKindOf(c.kind).value;
      engine.Record(P2Event.AddConstraint(kind, thingsByName[c.bodyA].body, thingsByName[c.bodyB].body, c.options));
      return Pass;
    }

    /** `materials.forEach(addMaterial)`. */
    method AddMaterialsLoop(ids: seq<Value>)
      requires forall i :: 0 <= i < |ids| ==> IsMaterialId(ids[i])
      modifies this, engine
      ensures State() == AddMaterials(old(State()), ids)
    {
      ghost var e0 := State();
      var i := 0;
      while i < |ids|
        invariant 0 <= i <= |ids|
        invariant AddMaterials(e0, ids) == AddMaterials(State(), ids[i..])
      {
        assert ids[i..][0] == ids[i] && ids[i..][1..] == ids[i + 1..];
        AddMaterial(ids[i]);
        i := i + 1;
      }
    }

    /** `contactMaterials.forEach(addContactMaterial)`. */
    method AddContactsLoop(cs: seq<ContactSpec>)
      requires forall i :: 0 <= i < |cs| ==> Registered(materials, cs[i].materialA) && Registered(materials, cs[i].materialB)
      modifies engine
      ensures State() == AddContacts(old(State()), cs)
    {
      ghost var e0 := State();
      var i := 0;
      while i < |cs|
        invariant 0 <= i <= |cs|
        invariant AddContacts(e0, cs) == AddContacts(State(), cs[i..])
      {
        assert cs[i..][0] == cs[i] && cs[i..][1..] == cs[i + 1..];
        AddContactMaterial(cs[i]);
        i := i + 1;
      }
    }

    /** `things.forEach(addThing)`. */
    method AddThingsLoop(ts: seq<ThingSpec>)
      requires forall i :: 0 <= i < |ts| ==> ShapesSupported(ts[i].shapes)
      modifies this, engine
      ensures State() == AddThings(old(State()), ts)
    {
      ghost var e0 := State();
      var i := 0;
      while i < |ts|
        invariant 0 <= i <= |ts|
        invariant AddThings(e0, ts) == AddThings(State(), ts[i..])
      {
        assert ts[i..][0] == ts[i] && ts[i..][1..] == ts[i + 1..];
        AddThing(ts[i]);
        i := i + 1;
      }
    }

    /** `constraints.forEach(createConstraint)`: what was created before a throw stays. */
    method CreateConstraintsLoop(cs: seq<ConstraintSpec>) returns (outcome: Outcome<P2Fault>)
      requires forall i :: 0 <= i < |cs| ==> ConstraintKindOf(cs[i].kind).Some?
      modifies engine
      ensures match CreateConstraints(old(State()), cs)
        case Ok(e) => State() == e && outcome == Pass
        case Err(f) => outcome == Fail(f)
    {
      ghost var e0 := State();
      var i := 0;
      while i < |cs|
        invariant 0 <= i <= |cs|
        invariant CreateConstraints(e0, cs) == CreateConstraints(State(), cs[i..])
      {
        assert cs[i..][0] == cs[i] && cs[i..][1..] == cs[i + 1..];
        var o := CreateConstraint(cs[i]);
        if o.Fail? {
          return o;
        }
        i := i + 1;
      }
      return Pass;
    }

    /** `addThingsToWorld(worldDescriptionJSON)` on the parsed description: the four
        `forEach` loops, in order. */
    method AddThingsToWorld(d: Description) returns (outcome: Outcome<P2Fault>)
      requires Supported(d) && State() == P2Editor([], map[], map[])
      modifies this, engine
      ensures match Build(d)
        case Ok(e) => State() == e && outcome == Pass
        case Err(f) => outcome == Fail(f)
    {
      AddMaterialsKeys(State(), d.materials);
      AddMaterialsLoop(d.materials);
      AddContactsLoop(d.contactMaterials);
      AddThingsLoop(d.things);
      outcome := CreateConstraintsLoop(d.constraints);
    }
  }
}
