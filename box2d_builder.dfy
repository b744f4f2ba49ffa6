/** The Box2D world builder of src/makeWorld.js (`makeWorldEditor`): validation of a parsed
    world description, fixture defaults, box sizing, the name-indexed thing table and the
    order in which bodies and joints reach the engine. */
module Box2DBuilder {
  import opened Wrappers
  import opened JsValues
  import opened Box2DBackend
  import opened Box2DThings

  /** Half the two-sided collision skin Box2D adds around a polygon (`box2dSkinWidth`). */
  const SkinWidth: real := 0.005

  /** The six fixture settings, in the order the builder checks them. */
  const Settings: seq<string> := ["density", "friction", "restitution", "groupIndex", "categoryBits", "maskBits"]

  /** The value a fixture setting takes when the description leaves it out. */
  function SettingDefault(setting: string): real
  {
    match setting
    case "density" => 1.0
    case "friction" => 0.5
    case "restitution" => 0.2
    case "groupIndex" => 0.0
    case "categoryBits" => 1.0     // 0x1
    case _ => 65535.0              // maskBits: 0xFFFF
  }

  /** A fixture setting: the description's number, or the default when it is undefined. */
  function SettingOr(v: Value, setting: string): Number
  {
    if v.Num? then v.n else Finite(SettingDefault(setting))
  }

  /** `x - 2 * box2dSkinWidth` on a number. */
  function Shrunk(x: Number): Number
  {
    if x.Finite? then Finite(x.value - 2.0 * SkinWidth) else x
  }

  /** `x / 2` on a number. */
  function Half(x: Number): Number
  {
    if x.Finite? then Finite(x.value / 2.0) else x
  }

  /** Everything `addThing` hands to the engine for one valid thing description. */
  datatype ThingDef = ThingDef(id: string, body: BodyDef, fixture: FixtureDef, shape: Value)

  /** The fixture value of a setting of a definition. */
  function FixtureSetting(f: FixtureDef, setting: string): Number
  {
    match setting
    case "density" => f.density
    case "friction" => f.friction
    case "restitution" => f.restitution
    case "groupIndex" => f.groupIndex
    case "categoryBits" => f.categoryBits
    case _ => f.maskBits
  }

  /** The fixture settings check, one setting after the other; reading a setting of an
      undefined or null `fixture` throws. */
  function CheckSettings(fixture: Value, settings: seq<string>): Outcome<Fault>
  {
    if settings == [] then Pass
    else if !Readable(fixture) then Fail(TypeError)
    else if !IsNumberOrUndefined(Get(fixture, settings[0])) then Fail(Assertion(FixtureSettingInvalid(settings[0])))
    else CheckSettings(fixture, settings[1..])
  }

  function CheckShapeSize(shape: Value): Outcome<Fault>
  {
    if Get(shape, "type") == Str("box") then
      if !IsNumber(Get(shape, "height")) then Fail(Assertion(HeightInvalid))
      else if !IsNumber(Get(shape, "width")) then Fail(Assertion(WidthInvalid))
      else Pass
    else if !IsNumber(Get(shape, "radius")) then Fail(Assertion(RadiusInvalid))
    else Pass
  }

  /** What the `body` member of a thing's options must look like. `typeof x === "object"`
      lets null and arrays through, but reading the next member then fails or finds
      nothing, so `body` has to be a genuine object. */
  predicate WellFormedBody(body: Value)
  {
    var position := Get(body, "position");
    && body.Obj?
    && position.Arr? && IsNumber(Element(position, 0)) && IsNumber(Element(position, 1))
    && IsNumber(Get(body, "angle"))
    && IsBooleanOrUndefined(Get(body, "isStatic"))
    && Get(body, "velocity").Undefined? && Get(body, "angularVelocity").Undefined?
  }

  /** The body checks, in the source's order, and the body definition. A body is static
      exactly when `isStatic` is `true`; anything else, undefined included, is dynamic. */
  function CheckBody(body: Value): (r: Result<BodyDef, Fault>)
    ensures r.Ok? <==> WellFormedBody(body)
    ensures r.Ok? ==>
      && (r.value.bodyType == StaticBody <==> Get(body, "isStatic") == Bool(true))
      && r.value.x == Element(Get(body, "position"), 0).n
      && r.value.y == Element(Get(body, "position"), 1).n
      && r.value.angle == Get(body, "angle").n
    ensures body.Null? ==> r == Err(TypeError)
  {
    var position := Get(body, "position");
    :- Need(IsObjectLike(body), Assertion(BodyNotObject));
    :- Need(Readable(body), TypeError);
    :- Need(position.Arr?, Assertion(PositionNotArray));
    :- Need(IsNumber(Element(position, 0)), Assertion(PositionNotNumbers));
    :- Need(IsNumber(Element(position, 1)), Assertion(PositionNotNumbers));
    :- Need(IsNumber(Get(body, "angle")), Assertion(AngleNotNumber));
    :- Need(IsBooleanOrUndefined(Get(body, "isStatic")), Assertion(IsStaticInvalid));
    :- Need(Get(body, "velocity").Undefined?, Assertion(VelocityGiven));
    :- Need(Get(body, "angularVelocity").Undefined?, Assertion(AngularVelocityGiven));
    var bodyType := if Get(body, "isStatic") == Bool(true) then StaticBody else DynamicBody;
    Ok(BodyDef(bodyType, Element(position, 0).n, Element(position, 1).n, Get(body, "angle").n))
  }

  /** What the `shape` member must look like: an object whose type is "box" with numeric
      width and height or "circle" with a numeric radius, and whose `resize` is a boolean
      or left out. */
  predicate WellFormedShape(shape: Value)
  {
    var kind := Get(shape, "type");
    && shape.Obj?
    && (kind == Str("box") || kind == Str("circle"))
    && (kind == Str("box") ==> IsNumber(Get(shape, "width")) && IsNumber(Get(shape, "height")))
    && (kind == Str("circle") ==> IsNumber(Get(shape, "radius")))
    && IsBooleanOrUndefined(Get(shape, "resize"))
  }

  /** The shape checks (a box's height is checked before its width) and the shape
      definition: a circle keeps its radius; a box of width w and height h gets the half
      extents ((w - 0.01) / 2, (h - 0.01) / 2), or (w / 2, h / 2) when `resize` is `false`. */
  function CheckShape(shape: Value): (r: Result<ShapeDef, Fault>)
    ensures r.Ok? <==> WellFormedShape(shape)
    ensures r.Ok? && Get(shape, "type") == Str("circle") ==> r.value == CircleShape(Get(shape, "radius").n)
    ensures r.Ok? && Get(shape, "type") == Str("box") ==>
      var w, h := Get(shape, "width").n, Get(shape, "height").n;
      r.value == if Get(shape, "resize") == Bool(false) then BoxShape(Half(w), Half(h))
                 else BoxShape(Half(Shrunk(w)), Half(Shrunk(h)))
    ensures !Readable(shape) ==> r == Err(TypeError)
  {
    var kind := Get(shape, "type");
    :- Need(Readable(shape), TypeError);
    :- Need(kind == Str("box") || kind == Str("circle"), Assertion(ShapeTypeInvalid));
    :- CheckShapeSize(shape);
    :- Need(IsBooleanOrUndefined(Get(shape, "resize")), Assertion(ResizeInvalid));
    if kind == Str("circle") then Ok(CircleShape(Get(shape, "radius").n))
    else if Get(shape, "resize") != Bool(false) then
      Ok(BoxShape(Half(Shrunk(Get(shape, "width").n)), Half(Shrunk(Get(shape, "height").n))))
    else Ok(BoxShape(Half(Get(shape, "width").n), Half(Get(shape, "height").n)))
  }

  /** What the `fixture` member must look like. It is never type-checked: any value but
      undefined and null passes, its settings reading as undefined unless it is an object. */
  predicate WellFormedFixture(fixture: Value)
  {
    && Readable(fixture)
    && forall i :: 0 <= i < |Settings| ==> IsNumberOrUndefined(Get(fixture, Settings[i]))
  }

  lemma {:induction false} CheckSettingsPasses(fixture: Value, settings: seq<string>)
    ensures CheckSettings(fixture, settings).Pass? <==>
      (settings == [] || Readable(fixture)) &&
      forall i :: 0 <= i < |settings| ==> IsNumberOrUndefined(Get(fixture, settings[i]))
  {
    if settings != [] {
      CheckSettingsPasses(fixture, settings[1..]);
      assert forall i :: 1 <= i < |settings| ==> settings[i] == settings[1..][i - 1];
    }
  }

  /** The fixture settings check and the fixture definition for a given shape. An omitted
      setting takes its default: density 1.0, friction 0.5, restitution 0.2, groupIndex 0,
      categoryBits 0x1, maskBits 0xFFFF. */
  function CheckFixture(fixture: Value, shapeDef: ShapeDef): (r: Result<FixtureDef, Fault>)
    ensures r.Ok? <==> WellFormedFixture(fixture)
    ensures r.Ok? ==> r.value.shape == shapeDef
    ensures r.Ok? ==> forall i :: 0 <= i < |Settings| ==>
      FixtureSetting(r.value, Settings[i]) ==
        if Get(fixture, Settings[i]).Undefined? then Finite(SettingDefault(Settings[i]))
        else Get(fixture, Settings[i]).n
    ensures !Readable(fixture) ==> r == Err(TypeError)
  {
    CheckSettingsPasses(fixture, Settings);
    :- CheckSettings(fixture, Settings);
    Ok(FixtureDef(
      SettingOr(Get(fixture, "density"), "density"),
      SettingOr(Get(fixture, "friction"), "friction"),
      SettingOr(Get(fixture, "restitution"), "restitution"),
      SettingOr(Get(fixture, "groupIndex"), "groupIndex"),
      SettingOr(Get(fixture, "categoryBits"), "categoryBits"),
      SettingOr(Get(fixture, "maskBits"), "maskBits"),
      shapeDef))
  }

  /** What a thing description must look like for `addThing` to succeed. */
  predicate WellFormedThing(t: Value)
  {
    var options := Get(t, "options");
    && t.Obj? && options.Obj?
    && Get(t, "id").Str?
    && WellFormedBody(Get(options, "body"))
    && WellFormedFixture(Get(options, "fixture"))
    && WellFormedShape(Get(options, "shape"))
  }

  /** `addThing`'s checks, in the source's order (body, then fixture settings, then shape),
      and the definitions it builds from them. */
  function CheckThing(t: Value): (r: Result<ThingDef, Fault>)
    ensures r.Ok? <==> WellFormedThing(t)
    ensures r.Ok? ==>
      var options := Get(t, "options");
      && r.value.id == Get(t, "id").s
      && r.value.shape == Get(options, "shape")
      && CheckBody(Get(options, "body")) == Ok(r.value.body)
      && CheckShape(Get(options, "shape")) == Ok(r.value.fixture.shape)
      && CheckFixture(Get(options, "fixture"), r.value.fixture.shape) == Ok(r.value.fixture)
    ensures !IsObjectLike(t) ==> r == Err(Assertion(ThingNotObject))
    ensures t.Null? ==> r == Err(TypeError)
  {
    var options := Get(t, "options");
    :- Need(IsObjectLike(t), Assertion(ThingNotObject));
    :- Need(Readable(t), TypeError);
    :- Need(Get(t, "id").Str?, Assertion(IdNotString));
    :- Need(IsObjectLike(options), Assertion(ThingOptionsNotObject));
    :- Need(Readable(options), TypeError);
    var body :- CheckBody(Get(options, "body"));
    var fixture := Get(options, "fixture");
    CheckSettingsPasses(fixture, Settings);
    :- CheckSettings(fixture, Settings);
    var shapeDef :- CheckShape(Get(options, "shape"));
    var fixtureDef := CheckFixture(fixture, shapeDef).value;
    Ok(ThingDef(Get(t, "id").s, body, fixtureDef, Get(options, "shape")))
  }

  /** Box2D's polygon skin: a box built with `resize` left on ends up, skin included, at
      exactly the size the description gives, and with `resize: false` it is one skin
      width larger on every side. */
  lemma BoxSkin(shape: Value, w: real, h: real)
    requires CheckShape(shape).Ok? && Get(shape, "type") == Str("box")
    requires Get(shape, "width") == Num(Finite(w)) && Get(shape, "height") == Num(Finite(h))
    ensures var s := CheckShape(shape).value;
      && s.halfWidth.Finite? && s.halfHeight.Finite?
      && (Get(shape, "resize") != Bool(false) ==>
            s.halfWidth.value + SkinWidth == w / 2.0 && s.halfHeight.value + SkinWidth == h / 2.0)
      && (Get(shape, "resize") == Bool(false) ==>
            s.halfWidth.value == w / 2.0 && s.halfHeight.value == h / 2.0)
  {
  }

  /** A joint as the builder hands it to the engine: the two bodies and the anchor. */
  datatype JointDef = JointDef(bodyA: Handle, bodyB: Handle, anchorX: Number, anchorY: Number)

  /** What a joint description must look like for `createJoint` to succeed against the
      current table. */
  predicate WellFormedJoint(j: Value, things: map<string, Thing>)
  {
    var a, b, anchor := Get(j, "bodyA"), Get(j, "bodyB"), Get(j, "anchor");
    && Get(j, "type") == Str("revolute")
    && a.Str? && a.s in things
    && b.Str? && b.s in things
    && anchor.Arr? && IsNumber(Element(anchor, 0)) && IsNumber(Element(anchor, 1))
  }

  /** `createJoint`'s checks, in the source's order, and the joint it builds: the bodies are
      the ones the table holds under the two names. */
  function CheckJoint(j: Value, things: map<string, Thing>): (r: Result<JointDef, Fault>)
    ensures r.Ok? <==> WellFormedJoint(j, things)
    ensures r.Ok? ==>
      && r.value.bodyA == things[Get(j, "bodyA").s].body
      && r.value.bodyB == things[Get(j, "bodyB").s].body
      && r.value.anchorX == Element(Get(j, "anchor"), 0).n
      && r.value.anchorY == Element(Get(j, "anchor"), 1).n
    ensures !Readable(j) ==> r == Err(TypeError)
    ensures Readable(j) && Get(j, "type") != Str("revolute") ==> r == Err(Assertion(JointTypeInvalid))
  {
    var a, b, anchor := Get(j, "bodyA"), Get(j, "bodyB"), Get(j, "anchor");
    :- Need(Readable(j), TypeError);
    :- Need(Get(j, "type") == Str("revolute"), Assertion(JointTypeInvalid));
    :- Need(a.Str? && a.s in things, Assertion(BodyAUnknown));
    :- Need(b.Str? && b.s in things, Assertion(BodyBUnknown));
    :- Need(anchor.Arr?, Assertion(AnchorNotArray));
    :- Need(IsNumber(Element(anchor, 0)), Assertion(AnchorNotNumbers));
    :- Need(IsNumber(Element(anchor, 1)), Assertion(AnchorNotNumbers));
    Ok(JointDef(things[a.s].body, things[b.s].body, Element(anchor, 0).n, Element(anchor, 1).n))
  }

  /** The two lists of a world description; `joints` is `None` when the member is left out. */
  datatype WorldDef = WorldDef(things: seq<Value>, joints: Option<seq<Value>>)

  /** `addThingsToWorld`'s checks on the parsed description. */
  function CheckWorld(w: Value): (r: Result<WorldDef, Fault>)
    ensures r.Ok? <==> w.Obj? && Get(w, "things").Arr? && (Get(w, "joints").Arr? || Get(w, "joints").Undefined?)
    ensures r.Ok? ==>
      && r.value.things == Get(w, "things").items
      && (r.value.joints.None? <==> Get(w, "joints").Undefined?)
      && (r.value.joints.Some? ==> r.value.joints.value == Get(w, "joints").items)
    ensures !IsObjectLike(w) ==> r == Err(Assertion(WorldNotObject))
    ensures w.Null? ==> r == Err(TypeError)
  {
    var things, joints := Get(w, "things"), Get(w, "joints");
    :- Need(IsObjectLike(w), Assertion(WorldNotObject));
    :- Need(Readable(w), TypeError);
    :- Need(things.Arr?, Assertion(ThingsNotArray));
    :- Need(joints.Arr? || joints.Undefined?, Assertion(JointsNotArray));
    Ok(WorldDef(things.items, if joints.Arr? then Some(joints.items) else None))
  }
}
