/** The stepper of the p2 variant (phyzzie.js, `worldEncapsulator` and `makeWorld`),
    driven by the absolute elapsed time rather than by a time difference. */
module P2Stepper {
  import opened Wrappers
  import opened JsValues
  import opened P2Backend
  import opened P2World

  /** `x` rounded up to a whole number. */
  function Ceil(x: real): (n: int)
    ensures n as real >= x && (n - 1) as real < x
  {
    if IsWhole(x) then x.Floor else x.Floor + 1
  }

  function Abs(x: real): (y: real)
    ensures y >= 0.0 && (y == x || y == -x)
  {
    if x < 0.0 then -x else x
  }

  /** `newTicks = Math.abs(elapsedTime * (simStepsPerSecond / 1000) - doneTicks)`. */
  function NewTicks(stepsPerSecond: real, doneTicks: real, elapsed: real): real
  {
    Abs(elapsed * (stepsPerSecond / 1000.0) - doneTicks)
  }

  /** `world.step(1 / simStepsPerSecond)`; with no steps per second no tick is ever owed, so
      the division is by a number other than 0 whenever it matters. */
  function StepCall(stepsPerSecond: real): P2Event
  {
    WorldStep(if stepsPerSecond == 0.0 then 0.0 else 1.0 / stepsPerSecond)
  }

  /** The encapsulated p2 world's step state. */
  class P2Simulation {
    const engine: P2Engine
    const stepsPerSecond: real
    var prevElapsedTime: real
    var doneTicks: real

    /** For a non-negative number of steps per second the ticks done are exactly the ticks
        owed for the time seen last. */
    ghost predicate Valid()
      reads this
    {
      stepsPerSecond >= 0.0 ==> prevElapsedTime >= 0.0 && doneTicks == prevElapsedTime * (stepsPerSecond / 1000.0)
    }

    constructor (engine: P2Engine, stepsPerSecond: real)
      ensures this.engine == engine && this.stepsPerSecond == stepsPerSecond
      ensures prevElapsedTime == 0.0 && doneTicks == 0.0
      ensures Valid()
    {
      this.engine := engine;
      this.stepsPerSecond := stepsPerSecond;
      prevElapsedTime := 0.0;
      doneTicks := 0.0;
    }

    /** `step(elapsedTime)`: `for (i = 0; i < newTicks; i += 1)` makes newTicks rounded up
        engine steps, and `doneTicks` grows by newTicks itself. The `console.assert` on the
        time going forward is what a caller must guarantee. */
    method Step(elapsed: real)
      requires prevElapsedTime < elapsed
      modifies this, engine
      ensures var n := NewTicks(stepsPerSecond, old(doneTicks), elapsed);
        && engine.trace == old(engine.trace) + seq(Ceil(n), _ => StepCall(stepsPerSecond))
        && doneTicks == old(doneTicks) + n
        && prevElapsedTime == elapsed
      ensures old(Valid()) ==> Valid()
    {
      var newTicks := NewTicks(stepsPerSecond, doneTicks, elapsed);
      var i := 0;
      while (i as real) < newTicks
        invariant 0 <= i <= Ceil(newTicks)
        invariant engine.trace == old(engine.trace) + seq(i, _ => StepCall(stepsPerSecond))
        invariant doneTicks == old(doneTicks) && prevElapsedTime == old(prevElapsedTime)
        decreases Ceil(newTicks) - i
      {
        engine.Record(StepCall(stepsPerSecond));
        i := i + 1;
      }
      if old(Valid()) && stepsPerSecond >= 0.0 {
        ForwardTicks(stepsPerSecond, prevElapsedTime, elapsed);
      }
      doneTicks := doneTicks + newTicks;
      prevElapsedTime := elapsed;
    }
  }

  /** When the time moves forward and the steps per second are not negative, the absolute
      value changes nothing: the ticks owed are those of the time that passed. */
  lemma ForwardTicks(s: real, prev: real, elapsed: real)
    requires s >= 0.0 && prev < elapsed
    ensures NewTicks(s, prev * (s / 1000.0), elapsed) == (elapsed - prev) * (s / 1000.0)
    ensures prev * (s / 1000.0) + NewTicks(s, prev * (s / 1000.0), elapsed) == elapsed * (s / 1000.0)
  {
    var f := s / 1000.0;
    assert elapsed * f - prev * f == (elapsed - prev) * f;
    assert (elapsed - prev) * f >= 0.0 by {
      assert elapsed - prev > 0.0 && f >= 0.0;
    }
  }

  /** Each call rounds its own share up, so calls can make more steps than the time owes:
      at 60 steps per second, a call at 25 ms and one at 50 ms make two steps each, four in
      all, where 50 ms owe three. */
  lemma Overstep(s: real, t1: real, t2: real)
    requires s == 60.0 && t1 == 25.0 && t2 == 50.0
    ensures NewTicks(s, 0.0, t1) == 1.5 && Ceil(NewTicks(s, 0.0, t1)) == 2
    ensures NewTicks(s, 1.5, t2) == 1.5 && Ceil(NewTicks(s, 1.5, t2)) == 2
    ensures (t2 * (s / 1000.0)).Floor == 3
  {
    assert !IsWhole(1.5) by {
      assert 1.5.Floor == 1;
    }
  }

  /** `makeWorld(worldDescriptionJSON, simStepsPerSecond)` on a parsed description: a new
      engine world, the editor's build, then the step state. */
  method MakeP2World(d: Description, stepsPerSecond: real) returns (r: Result<(P2Simulation, map<string, Entry>), P2Fault>)
    requires Supported(d)
    ensures match Build(d)
      case Err(f) => r == Err(f)
      case Ok(e) => && r.Ok? && fresh(r.value.0) && fresh(r.value.0.engine)
                    && r.value.0.engine.trace == e.trace && r.value.1 == e.things
                    && r.value.0.stepsPerSecond == stepsPerSecond
                    && r.value.0.prevElapsedTime == 0.0 && r.value.0.doneTicks == 0.0
                    && r.value.0.Valid()
  {
    var engine := new P2Engine();
    var editor := new P2WorldEditor(engine);
    var outcome := editor.AddThingsToWorld(d);
    if outcome.Fail? {
      return Err(outcome.error);
    }
    var simulation := new P2Simulation(engine, stepsPerSecond);
    return Ok((simulation, editor.thingsByName));
  }
}
