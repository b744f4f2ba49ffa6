# phyzzie, modelled in Dafny

phyzzie turns a JSON description of a scene into a physics-engine world and then runs
that world on a fixed timestep. An interaction callback is asked at a regular cadence
and may push things. This project models the logic around the engines and proves
properties of it:

- **The Box2D world** (`src/makeWorld.js`):
  - the argument and option checks of `makeWorld`;
  - the world editor (`addThing`, `createJoint`, `addThingsToWorld`), with its asserts,
    fixture defaults, box skin and name-indexed thing table;
  - the stateful stepper `step`, with its two closure counters: `newTicks`, the real
    count of ticks owed, and `ticksUntilInteract`, the interaction countdown;
  - `getThings`;
  - the thing encapsulator's `getAngle`, `getShape` and `push`.
- **The older p2 variant** (`phyzzie.js`):
  - the material registry and contact materials;
  - shape and constraint dispatch with defaults;
  - the fixed build order;
  - the stepper driven by absolute elapsed time;
  - an angle reduction that leaves negative angles negative.
- **The driver** (`src/simulate.js`): `simulate` up to the first `iterate`, and each
  `iterate` call as one decision (`Continue`, `Stop` or `Reject`), with the Promise and
  the timers taken away.
- **Colour resolution** (`src/setupGraphics.js`): `getColors`, and the `parseInt(s, 16)`
  it relies on, as section 18.2.5 of ECMA-262 (6th edition) defines it.

JavaScript values are a datatype (`JsValues.Value`). Numbers are exact reals plus
±Infinity and NaN. Each engine is a class that records its calls as a trace of events,
and a body is a handle: the index of the call that created it. The interaction callback
is an oracle, `nat -> Reply`: the pushes it makes and the value it returns on its n-th
call. `JSON.parse` is a parameter, and so is the text of a number (`numberText`).

Stateful parts are classes whose methods are proved against specification functions:

| class | its fields | specified by |
|---|---|---|
| `Box2DEditor.WorldEditor` | the table and the engine | `AddThingStep`, `CreateJointStep`, `BuildText` |
| `Box2DWorld.World` | the closure counters | `Advance` and `Ticks` |
| `Simulate.Driver` | `prevTime` | `Iterated` and `Sessioned` |
| `P2World.P2WorldEditor` | the p2 editor | the p2 step functions |
| `P2Stepper.P2Simulation` | `prevElapsedTime` and `doneTicks` | `NewTicks` and `Ceil` |

Three behaviours of the code that a reader might not expect, and that the model keeps:

- A repeated thing id silently overwrites the earlier table entry. It is not rejected.
- A Box2D description without `joints` passes the check on line 226 of
  `src/makeWorld.js` and then throws on line 230, so the model treats it as a failure.
- The p2 `getAngle` leaves negative angles negative.

Angles are reduced modulo `Turn`, the constant `Angles.Turn`. It is the exact value of
the double that `2 * Math.PI` evaluates to (it prints as 6.283185307179586), written out
in full as 6.28318530717958623199592693708837032318115234375.

## Model

| member | source | states |
|---|---|---|
| Angles.TruncatedRemainder | phyzzie.js:232-234 | JavaScript's `a % (2 * Math.PI)` lies strictly between -Turn and Turn, has the sign of `a`, and differs from `a` by a whole number of turns |
| Angles.NormalizedAngle | src/makeWorld.js:352-360 | the Box2D `getAngle` normalisation lies in [0, Turn) and differs from the engine angle by whole turns |
| Angles.NormalizedAngleUnique | src/makeWorld.js:352-360 | any value in [0, Turn) that differs from the angle by whole turns is the normalised angle, so the normalisation is the canonical representative modulo a turn |
| Angles.NormalizedAngleIdempotent | src/makeWorld.js:352-360 | normalising an already normalised angle changes nothing |
| Angles.NormalizedAnglePeriodic | src/makeWorld.js:352-360 | adding a full turn does not change the normalised angle |
| Angles.NegativeAngleReductions | phyzzie.js:233 | for an angle in (-Turn, 0), p2's `getAngle` returns it unchanged (still negative), while the Box2D normalisation returns it plus one turn |
| Box2DBuilder.CheckBody | src/makeWorld.js:79-97 | the body checks pass iff position is an array whose elements 0 and 1 are numbers other than NaN, the angle is such a number, `isStatic` is a boolean or absent, and velocity and angularVelocity are absent; the body is static iff `isStatic === true`; reading a null body throws |
| Box2DBuilder.CheckShape | src/makeWorld.js:104-118 | the shape checks pass iff the type is "box" with numeric width and height, or "circle" with a numeric radius, and `resize` is a boolean or absent; the shape made is a circle of that radius or a box |
| Box2DBuilder.BoxSkin | src/makeWorld.js:161-169 | a box's half-extents are ((w − 0.01)/2, (h − 0.01)/2), twice the skin width of line 57 taken off, or (w/2, h/2) when `resize` is false |
| Box2DBuilder.CheckSettingsPasses | src/makeWorld.js:99-102 | the fixture-settings loop passes iff every one of the six settings is a number other than NaN or absent |
| Box2DBuilder.CheckFixture | src/makeWorld.js:131-156 | the fixture passes the assert of lines 99-102 iff every setting is a number other than NaN or absent; each absent setting takes its default (density 1.0, friction 0.5, restitution 0.2, groupIndex 0, categoryBits 0x1, maskBits 0xFFFF) and each given one keeps its value |
| Box2DBuilder.CheckThing | src/makeWorld.js:73-169 | `addThing`'s checks pass iff the description is object-like with a string id and a well-formed body, fixture and shape; a non-object fails with the first assertion; null throws a TypeError |
| Box2DBuilder.CheckJoint | src/makeWorld.js:186-203 | `createJoint`'s checks pass iff the type is "revolute", bodyA and bodyB are strings naming things already in the table, and the anchor is an array of two numbers other than NaN; another type fails with the joint-type assertion |
| Box2DBuilder.CheckWorld | src/makeWorld.js:220-227 | the description passes iff it is an object with a `things` array and a `joints` array or no `joints`; a non-object fails with the first assertion; null throws |
| Box2DEditor.BuildShapes | src/makeWorld.js:366-368 | after `addThingsToWorld` gets through, `getShape` of the thing under an id gives the `options.shape` of the last description with that id (a copy by value semantics) |
| Box2DThings.Push | src/makeWorld.js:369-381 | `push` succeeds iff the impulse is an array whose elements 0 and 1 are numbers other than NaN, and then makes one impulse on the thing's body with those components; otherwise it fails the impulse assertion |
| Box2DEditor.AddDef | src/makeWorld.js:174-178 | a checked thing makes a body and then its fixture, maps its id to the new body, keeps every other entry, and replaces an earlier entry under the same id |
| Box2DEditor.AddThingStep | src/makeWorld.js:67-179 | `addThing` succeeds iff the description is well formed, and then does `AddDef`; on failure it reports the first failing check and changes nothing |
| Box2DEditor.CreateJointStep | src/makeWorld.js:182-213 | `createJoint` succeeds iff the joint is well formed against the current table, and then adds one joint between the two named bodies and leaves the table alone |
| Box2DEditor.AddCheckedRegisters | src/makeWorld.js:229 | `things.forEach(addThing)` makes the calls of the things before the first one that throws, registers them in order, and gets through iff every thing does |
| Box2DEditor.RegisterLastWins | src/makeWorld.js:177-178 | the table maps an id to the thing added last under it: a repeated id silently overwrites |
| Box2DEditor.ThingShapes | src/makeWorld.js:177-178 | after a things phase that gets through, the entry under an id holds the body created for the last description with that id (handle `base + 2i`) and that description's `options.shape` |
| Box2DEditor.RegisterKeepsOthers | src/makeWorld.js:177-178 | registering things leaves every other name's entry as it was |
| Box2DEditor.RegisterKeys | src/makeWorld.js:177-178 | the table's names after the things are the old names plus the things' ids |
| Box2DEditor.CreateJointsTrace | src/makeWorld.js:230 | `joints.forEach(createJoint)` adds joint calls only, one per joint when it gets through, and leaves the table alone |
| Box2DEditor.BuildOrder | src/makeWorld.js:216-231 | `addThingsToWorld` creates every thing, in array order, before any joint; it only names bodies that exist; and it fails whenever `joints` is absent |
| Box2DEditor.BuildTicksNothing | src/makeWorld.js:216-231 | building a world makes no simulation step |
| Box2DEditor.WorldEditor.AddThing | src/makeWorld.js:67-179 | the method does what `AddThingStep` says to the table and the engine; a description that throws leaves both as they were |
| Box2DEditor.WorldEditor.CreateJoint | src/makeWorld.js:182-213 | the method does what `CreateJointStep` says |
| Box2DEditor.WorldEditor.AddThingsToWorld | src/makeWorld.js:216-231 | the two `forEach` loops leave the engine and the table as `BuildText` says, including what was created before a throw |
| Box2DStepper.Advance | src/makeWorld.js:272-281 | a `timeDiff` that is not a number fails the first assertion, and NaN or a negative one fails the backwards-time assertion, both changing nothing; an infinite one at a step rate of zero or less returns `true` with no call |
| Box2DStepper.TicksCount | src/makeWorld.js:283-303 | the pending count after the tick loop is the count before it less the number of engine steps the loop made: each step takes exactly one tick |
| Box2DStepper.TicksPending | src/makeWorld.js:283-305 | pending ticks that are not negative stay so; a run that returns `true` leaves less than one tick pending; a run that stops or throws does so at an interaction, with at least one tick pending and the countdown at 0 |
| Box2DStepper.AdvanceCooperative | src/makeWorld.js:276-305 | with a callback that always returns `true`, `step` makes exactly floor(pending + timeDiff/1000 · K · I) engine steps, returns `true`, and leaves the fractional part, in [0, 1), pending |
| Box2DStepper.AdvanceSplit | src/makeWorld.js:281-303 | time is cut into ticks the same way whether it arrives in one `step` call or in two |
| Box2DStepper.Countdown | src/makeWorld.js:270-302 | for a whole number K of steps per interaction, the countdown after t ticks is below K and is 0 exactly when t is a multiple of K |
| Box2DStepper.TicksCadence | src/makeWorld.js:285-302 | for a whole K > 0, the loop asks the callback exactly before the ticks whose number is a multiple of K, starting with the first tick ever |
| Box2DStepper.StopsAtOnce | src/makeWorld.js:291-293 | a callback returning `false` ends `step` with `false` at once: no engine step, the pending count and the countdown unchanged |
| Box2DStepper.AskedAgain | src/makeWorld.js:285-293 | after a `step` that stopped or threw, the next `step` call asks the callback before anything else |
| Box2DStepper.AdvancePending | src/makeWorld.js:276-303 | `step` never makes a non-negative pending count negative, and with no ticks per second it makes no call at all |
| Box2DStepper.PushesImpulses | src/makeWorld.js:369-381 | the callback's pushes only make impulses, each on a body of the table, and get through iff every push names a thing and has a valid impulse |
| Box2DStepper.PushesFault | src/makeWorld.js:369-381 | the pushes stop at the first invalid one, after exactly the impulses before it; its error is a TypeError for a name the table lacks (`push` of undefined) and otherwise the impulse assertion |
| Box2DStepper.Verdict | src/makeWorld.js:286-293 | after the callback the loop goes on iff its pushes got through and it returned `true`; a push that throws ends the loop with that push's error, a reply that is not a boolean with the assertion that it must return true or false, and `false` with the result `false` |
| Box2DStepper.SixStepsOneInteraction | src/makeWorld.js:267-303 | at 10 interactions per second and 6 steps per interaction, 100 ms from a fresh world make six steps of 1/60 s, with the callback asked once, before the first |
| Box2DStepper.FirstTicks | src/makeWorld.js:269-303 | from a fresh countdown with K ticks pending, a cooperative callback is asked once and then K steps follow |
| Box2DWorld.CheckRates | src/makeWorld.js:255-267 | the options are read (which throws for undefined or null), and each of the three must be a number other than NaN; the rates are those three numbers |
| Box2DWorld.Made | src/makeWorld.js:28-44 | `makeWorld` fails with the first argument assertion unless the description is a string and the options are object-like; otherwise it throws what the build throws, then what the option checks throw, and succeeds exactly when both get through, with the editor's build and the checked rates |
| Box2DWorld.AdvanceSteady | src/makeWorld.js:272-306 | every `step` keeps the pending count's sign, keeps the countdown in step with the ticks taken, and only names existing bodies |
| Box2DWorld.World.GetThings | src/makeWorld.js:310-321 | the copy built name by name equals the table |
| Box2DWorld.World.Step | src/makeWorld.js:272-306 | the method's counters, engine calls and result are those of `Advance`, and the stepper's invariant is kept |
| Box2DWorld.World.TickLoop | src/makeWorld.js:283-305 | the `while` loop's counters, engine calls and result are those of `Ticks` |
| Box2DWorld.MakeWorld | src/makeWorld.js:28-44 | on success, a fresh world holding the build's trace and table and the checked rates, with nothing pending and the callback due at the first tick (the counters of lines 269-270) |
| Simulate.Decide | src/simulate.js:72-109 | another call is scheduled iff `step` returned `true`; `false` stops; a throw goes to `reject` with what was thrown |
| Simulate.TimeDiff | src/simulate.js:62-70 | on screen, the difference is the time since the previous call (0 on the first), lowered to `maxStepMilliseconds` when greater and never raised |
| Simulate.Iterated | src/simulate.js:57-110 | `prevTime` becomes the current reading after every display call, whether `step` threw or not; batch mode leaves it alone |
| Simulate.SessionLength | src/simulate.js:80-109 | a session goes on only while every `step` returns `true`; one that ended made at least one call |
| Simulate.SessionEnded | src/simulate.js:80-109 | nothing is scheduled after a stop or a rejection |
| Simulate.SessionSplit | src/simulate.js:80-109 | a session over two runs of readings is the second run's session continuing the first's |
| Simulate.BatchIgnoresClock | src/simulate.js:90-96 | in batch mode every call is given `maxStepMilliseconds`, so the clock readings do not matter |
| Simulate.ClockBackwardsRejects | src/simulate.js:66-75 | on screen, a reading earlier than the previous one is not clamped below, so `step` throws its backwards-time assertion and `reject` is called |
| Simulate.FirstDisplayCall | src/simulate.js:62-66 | on screen the first call steps by 0 ms |
| Simulate.NegativeBatchMaximumRejects | src/simulate.js:93-99 | a negative `maxStepMilliseconds` passes the check of lines 49-50, but the first batch call is rejected and makes no engine call |
| Simulate.Setup | src/simulate.js:41-50 | `simulate` fails as `makeWorld` does, fails display mode outside a browser, and requires `maxStepMilliseconds` to be a number other than NaN |
| Simulate.Driver.Iterate | src/simulate.js:53-111 | one `iterate` call updates the world, the engine and `prevTime` as `Iterated` says, and returns its decision |
| Simulate.Driver.RunSession | src/simulate.js:80-109 | `iterate` calling itself while the decision is `Continue` makes the session `Sessioned` describes |
| Simulate.StartSimulation | src/simulate.js:41-50 | on success, a fresh driver over the made world, with no previous time |
| P2World.AddMaterialStep | phyzzie.js:68-74 | a material id that is a whole number above 0 registers a new material under that id, replacing an earlier one, and keeps the others |
| P2World.AddContactStep | phyzzie.js:77-93 | with both materials registered, one contact material between them is added; nothing else changes |
| P2World.ShapeCall | phyzzie.js:104-125 | a shape of type circle, box or plane is added with its options; the offset defaults to [0, 0] and the angle to 0; a material is assigned iff `materialID` is present (an unregistered one assigns undefined) |
| P2World.ShapeCalls | phyzzie.js:102-126 | a thing's shapes are added one call each, in order |
| P2World.AddThingStep | phyzzie.js:96-132 | `addThing` creates a body, adds its shapes, adds the body to the world, maps the id to it (replacing an earlier entry) and keeps the other entries |
| P2World.CreateConstraintStep | phyzzie.js:135-153 | a distance or prismatic constraint is added between the two named bodies; a name missing from the table throws |
| P2World.AddMaterialsKeys | phyzzie.js:162 | the materials phase registers exactly the listed ids and adds material calls only |
| P2World.AddContactsShape | phyzzie.js:163 | the contact phase adds one contact call per entry and nothing else |
| P2World.AddThingsShape | phyzzie.js:164 | the things phase adds body calls only and leaves the registry alone |
| P2World.CreateConstraintsShape | phyzzie.js:165 | the constraints phase adds one constraint call per entry and leaves both tables alone |
| P2World.BuildOrder | phyzzie.js:156-166 | every material call comes before every contact call, which comes before every body call, which comes before every constraint call |
| P2World.AddThingsLastWins | phyzzie.js:130 | after the things phase, the table maps an id to the thing added last under it: the body handle is that thing's `NewBody` call (the `[0]` that `createConstraint` reads at lines 146-147) and the shapes are its own |
| P2World.AddThingsKeepsOthers | phyzzie.js:130 | the things phase leaves every id none of its things uses as it was |
| P2World.P2WorldEditor.AddThingsToWorld | phyzzie.js:156-166 | the method's four loops leave the engine and the tables as `Build` says |
| P2Stepper.P2Simulation.Step | phyzzie.js:195-209 | `step` makes ceil(newTicks) engine steps of 1/S, where newTicks = abs(elapsed · S/1000 − doneTicks), adds newTicks to `doneTicks`, and records the elapsed time; the invariant doneTicks = prevElapsedTime · S/1000 is kept for S ≥ 0 |
| P2Stepper.ForwardTicks | phyzzie.js:199-207 | when time moves forward and S ≥ 0, the absolute value changes nothing and `doneTicks` ends at elapsed · S/1000 |
| P2Stepper.Overstep | phyzzie.js:201-207 | each call rounds its own share up: at 60 steps per second, calls at 25 ms and 50 ms make four steps where 50 ms owe three |
| P2Stepper.MakeP2World | phyzzie.js:27-52 | on success, a fresh engine holding the build's trace, the table, and a step state at time 0 |
| Colors.SkipSpace | src/setupGraphics.js:169-177 | `parseInt`'s leading white space removal returns a suffix that does not start with white space, after white space only |
| Colors.DigitRun | src/setupGraphics.js:169-177 | the length of the longest prefix of radix-16 digits |
| Colors.HexValueOfText | src/setupGraphics.js:169-177 | reading the radix-16 digits of x back gives x |
| Colors.ParseHexLayout | src/setupGraphics.js:169-177 | `parseInt(s, 16)` of white space, an optional sign, an optional `0x`, digits and then a non-digit is the digits' value with the sign |
| Colors.ParseHexRoundTrip | src/setupGraphics.js:169-177 | the radix-16 text of any whole number reads back as that number, with any leading white space, sign and prefix |
| Colors.ParseHexNaN | src/setupGraphics.js:169-177 | without a digit where the digits should start, `parseInt(s, 16)` gives NaN |
| Colors.GetColors | src/setupGraphics.js:156-182 | `getColors` throws iff it reads a member of null; otherwise it gives black lines and white fill when no level is given, and else both colours from the winning level, `perShape[shapeIndex]` over `defaults` over the built-in pair |
| Colors.UndefinedIsNaN | src/setupGraphics.js:169-177 | a missing colour member reads as NaN |
| Colors.LevelWithoutFill | src/setupGraphics.js:173-178 | the winning level replaces both colours: when it leaves the fill out, the fill is NaN, whatever a lower level says |
| Colors.ColorText | src/setupGraphics.js:169-177 | a colour written as radix-16 digits reads as its value |

## Left out

- The engines themselves are not modelled: Box2D's `b2World`, bodies, fixtures and joints, and p2's `World`, `Body`, shapes and constraints. Their calls are recorded as events with opaque handles. The Box2D gravity and sleep settings are fixed arguments that no event records.
- `JSON.parse` is a parameter, `parse: string -> Option<Value>`. Every parse error becomes `NotJson`.
- `clone` and `util.copy` are not modelled. Dafny's value semantics give the same copies. So `Box2DThings.GetShape` returns the stored value itself, and `Box2DEditor.BuildShapes` says which value that is.
- `p2.Equation.DEFAULT_RELAXATION = simStepsPerSecond / 15` (phyzzie.js:35-36) is a global engine setting and is not modelled.
- Not modelled: the Promise, `requestAnimationFrame`, `setImmediate`, `setTimeout`, `new Date()`, the render function and `setupGraphics`'s drawing, DOM and renderer code. A clock reading is a whole number of milliseconds given to each call.
- P2Stepper.P2Simulation.Step / P2Stepper.MakeP2World: the step rate S and the elapsed time are finite reals. Non-finite values are not modelled. With S > 0, an elapsed time of +Infinity makes `newTicks` infinite and the loop of phyzzie.js:203 never end. A NaN rate makes every call step nothing and turns `doneTicks` into NaN. An infinite rate is not modelled either.
- IEEE-754 rounding is not modelled. Tick arithmetic, the box skin, the angle remainder and parsed colour values are exact reals or integers. IEEE-754 `%` is exact, so for an angle that is a double, `Angles.TruncatedRemainder` with the exact `Turn` is the value JavaScript computes. The Box2D normalisation's addition of `2 * Math.PI` rounds, and the model's addition does not. -0 is not distinguished from 0.
- Box2DStepper.Advance: at a positive step rate, a `timeDiff` of +Infinity makes the source loop for as long as the callback continues. The model reports `Unbounded` instead of following that loop. At a rate of zero or less, the source's `newTicks` becomes NaN or -Infinity for good. Every later call then returns `true` with no engine call. The model returns `true` with no call as well, but keeps the pending count it had. The pending count stays at or below zero at such a rate (`Box2DStepper.AdvancePending`), so later calls behave the same.
- Box2DWorld.CheckRates: an infinite option passes the source's checks. The model then stops with `NonFiniteOption`, because its tick arithmetic is over exact reals.
- p2 (`phyzzie.js`): its checks are `console.assert`s, which report and carry on. They are modelled as preconditions, so the model says nothing about what happens after a failed assert.
- p2 (`phyzzie.js`): the description is taken as an already structured `Description`. TypeErrors from a malformed structure (a missing list, a thing without `shapes`) are not modelled.
- P2World.MaterialKey: registry keys are modelled for whole-number ids only. JavaScript's string conversion of other keys is not modelled.
- The text of a number (`Number.prototype.toString`) is a parameter `numberText`, because its digits depend on how doubles are printed.
- Member reads ignore prototypes and built-in members such as `length`. An own member that is absent reads as undefined.
- The engine reads are not modelled: `getPosition`, `getVelocity`, `getAngularVelocity`, p2's `getPosition`, `getShapes` and `pushRelative`, and the engine state they read.
- The `interactionCallback`'s other arguments (`getThings()`, `1 / interactionsPerSecond`, `resolve`, `reject`) are not modelled. The callback's effects are the pushes its reply lists. A callback that throws on its own, not through a push, cannot be expressed: in the source its exception leaves `step` (src/makeWorld.js:286) and reaches `reject` in `iterate`. A reply whose verdict is not a boolean is the closest the model comes.
- `src/index.js` only re-exports and is not part of this model.
