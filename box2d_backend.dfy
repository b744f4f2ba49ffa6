/** What the Box2D variant (src/makeWorld.js) asks of the physics engine, recorded as an
    event trace, and the ways its calls can fail. Bodies are opaque handles: a handle is
    the position in the trace of the event that created the body. */
module Box2DBackend {
  import opened Wrappers
  import opened JsValues

  type Handle = nat

  datatype BodyType = StaticBody | DynamicBody

  /** A `b2BodyDef` as the builder fills it in. */
  datatype BodyDef = BodyDef(bodyType: BodyType, x: Number, y: Number, angle: Number)

  /** The collision shape of a fixture; a box is given by its half extents. */
  datatype ShapeDef = CircleShape(radius: Number) | BoxShape(halfWidth: Number, halfHeight: Number)

  /** A `b2FixtureDef` as the builder fills it in, filter fields included. */
  datatype FixtureDef = FixtureDef(
    density: Number, friction: Number, restitution: Number,
    groupIndex: Number, categoryBits: Number, maskBits: Number,
    shape: ShapeDef)

  /** One call into the engine, or one invocation of the interaction callback (`Interact`). */
  datatype Event =
    | CreateBody(body: BodyDef)
    | CreateFixture(owner: Handle, fixture: FixtureDef)
    | CreateJoint(bodyA: Handle, bodyB: Handle, anchorX: Number, anchorY: Number)
    | Interact
    | Impulse(target: Handle, x: Number, y: Number)
    | Step(dt: real, velocityIterations: real, positionIterations: real)

  /** The checks of src/makeWorld.js, named after what each one demands. */
  datatype Check =
    | DescriptionNotString | OptionsNotObject
    | WorldNotObject | ThingsNotArray | JointsNotArray
    | ThingNotObject | IdNotString | ThingOptionsNotObject | BodyNotObject
    | PositionNotArray | PositionNotNumbers | AngleNotNumber | IsStaticInvalid
    | VelocityGiven | AngularVelocityGiven | FixtureSettingInvalid(setting: string)
    | ShapeTypeInvalid | HeightInvalid | WidthInvalid | RadiusInvalid | ResizeInvalid
    | JointTypeInvalid | BodyAUnknown | BodyBUnknown | AnchorNotArray | AnchorNotNumbers
    | InteractionsPerSecondInvalid | SimStepsPerInteractionInvalid | IterationsPerSimStepInvalid
    | TimeDiffNotNumber | ReverseTimeTravel | ReplyNotBoolean | ImpulseInvalid
    | DisplayNeedsBrowser | MaxStepNotNumber

  /** Why a call threw. */
  datatype Fault =
    | Assertion(check: Check)  // an `assert(...)` failed
    | TypeError                // a member of undefined or null was read
    | NotJson                  // JSON.parse threw
    | NonFiniteOption          // an infinite simulation option: outside the exact-real model
    | Unbounded                // an infinite time difference: outside the exact-real model

  /** The engine: the trace of everything asked of it so far. */
  class Backend {
    var trace: seq<Event>

    constructor ()
      ensures trace == []
    {
      trace := [];
    }

    /** One call into the engine: the trace grows by that call and by nothing else. */
    method Record(e: Event)
      modifies this
      ensures trace == old(trace) + [e]
    {
      trace := trace + [e];
    }
  }

  /** Calls appended in two goes. */
  lemma Appended(a: seq<Event>, b: seq<Event>, c: seq<Event>)
    ensures a + b + c == a + (b + c)
  {
  }

  /** The number of simulation ticks in a trace. */
  function Ticked(events: seq<Event>): nat
  {
    if events == [] then 0
    else Ticked(events[..|events| - 1]) + (if events[|events| - 1].Step? then 1 else 0)
  }

  lemma {:induction false} TickedAppend(a: seq<Event>, b: seq<Event>)
    ensures Ticked(a + b) == Ticked(a) + Ticked(b)
  {
    if b == [] {
      assert a + b == a;
    } else {
      assert (a + b)[..|a + b| - 1] == a + b[..|b| - 1];
      TickedAppend(a, b[..|b| - 1]);
    }
  }

  /** Calls that include no simulation step add no tick. */
  lemma {:induction false} NoSteps(s: seq<Event>)
    requires forall i :: 0 <= i < |s| ==> !s[i].Step?
    ensures Ticked(s) == 0
  {
    if s != [] {
      NoSteps(s[..|s| - 1]);
    }
  }
}
