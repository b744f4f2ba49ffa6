/** The encapsulated Box2D world of src/makeWorld.js (`makeWorld`, `worldEncapsulator`):
    the simulation options, the stateful `step` and `getThings`. */
module Box2DWorld {
  import opened Wrappers
  import opened JsValues
  import opened Box2DBackend
  import opened Box2DThings
  import opened Box2DEditor
  import opened Box2DStepper

  /** `worldEncapsulator`'s option checks: all three options are read first (which throws
      when the options are undefined or null), then each must be a number other than NaN.
      Infinite options pass these checks; the exact-real model stops there with
      `NonFiniteOption`. */
  function CheckRates(o: Value): (r: Result<Rates, Fault>)
    ensures !Readable(o) ==> r == Err(TypeError)
    ensures Readable(o) && !IsNumber(Get(o, "interactionsPerSecond"))
            ==> r == Err(Assertion(InteractionsPerSecondInvalid))
    ensures r.Ok? <==> && Readable(o)
                       && Get(o, "interactionsPerSecond").Num? && Get(o, "interactionsPerSecond").n.Finite?
                       && Get(o, "simStepsPerInteraction").Num? && Get(o, "simStepsPerInteraction").n.Finite?
                       && Get(o, "iterationsPerSimStep").Num? && Get(o, "iterationsPerSimStep").n.Finite?
    ensures r.Ok? ==> r.value == Rates(Get(o, "interactionsPerSecond").n.value,
                                       Get(o, "simStepsPerInteraction").n.value,
                                       Get(o, "iterationsPerSimStep").n.value)
  {
    var perSecond, perInteraction, iterations :=
      Get(o, "interactionsPerSecond"), Get(o, "simStepsPerInteraction"), Get(o, "iterationsPerSimStep");
    :- Need(Readable(o), TypeError);
    :- Need(IsNumber(perSecond), Assertion(InteractionsPerSecondInvalid));
    :- Need(IsNumber(perInteraction), Assertion(SimStepsPerInteractionInvalid));
    :- Need(IsNumber(iterations), Assertion(IterationsPerSimStepInvalid));
    :- Need(perSecond.n.Finite? && perInteraction.n.Finite? && iterations.n.Finite?, NonFiniteOption);
    Ok(Rates(perSecond.n.value, perInteraction.n.value, iterations.n.value))
  }

  /** `makeWorld(worldDescriptionJSON, simOptions)` on values: the two argument checks, the
      editor's build, then the option checks. The result is the engine trace, the table
      and the options. */
  function Made(description: Value, simOptions: Value, parse: string -> Option<Value>): (r: Result<(Editor, Rates), Fault>)
    ensures !description.Str? ==> r == Err(Assertion(DescriptionNotString))
    ensures description.Str? && !IsObjectLike(simOptions) ==> r == Err(Assertion(OptionsNotObject))
    ensures description.Str? && parse(description.s).None? && IsObjectLike(simOptions) ==> r == Err(NotJson)
    ensures description.Str? && IsObjectLike(simOptions) ==>
      var b, rates := BuildText(Editor([], map[]), description.s, parse), CheckRates(simOptions);
      && (b.outcome.Fail? ==> r == Err(b.outcome.error))
      && (b.outcome.Pass? && rates.Err? ==> r == Err(rates.error))
      && (b.outcome.Pass? && rates.Ok? ==> r == Ok((b.editor, rates.value)))
    ensures r.Ok? ==> var b := BuildText(Editor([], map[]), description.s, parse);
      && b.outcome.Pass? && r.value.0 == b.editor && CheckRates(simOptions) == Ok(r.value.1)
  {
    if !description.Str? then Err(Assertion(DescriptionNotString))
    else
      :- Need(IsObjectLike(simOptions), Assertion(OptionsNotObject));
      var b := BuildText(Editor([], map[]), description.s, parse);
      :- b.outcome;
      var rates :- CheckRates(simOptions);
      Ok((b.editor, rates))
  }

  /** `k` is a whole number of steps per interaction. */
  predicate WholePositive(x: real)
  {
    x >= 1.0 && IsWhole(x)
  }

  /** The stepper's closure state next to the engine and the table it was made with. */
  class World {
    const backend: Backend
    const things: map<string, Thing>
    const rates: Rates
    var newTicks: real
    var ticksUntilInteract: real

    function Clock(): Box2DStepper.Clock
      reads this
    {
      Box2DStepper.Clock(newTicks, ticksUntilInteract)
    }

    /** What every `step` call keeps: see `Steady`. */
    ghost predicate Valid()
      reads this, backend
    {
      Steady(Clock(), backend.trace, rates, things)
    }

    /** `worldEncapsulator`: nothing pending and the callback due at the first tick. */
    constructor (backend: Backend, things: map<string, Thing>, rates: Rates)
      requires Consistent(Editor(backend.trace, things)) && Ticked(backend.trace) == 0
      ensures this.backend == backend && this.things == things && this.rates == rates
      ensures Clock() == Box2DStepper.Clock(0.0, 0.0)
      ensures Valid()
    {
      this.backend := backend;
      this.things := things;
      this.rates := rates;
      newTicks := 0.0;
      ticksUntilInteract := 0.0;
      new;
      if WholePositive(rates.perInteraction) {
        assert Countdown(0, rates.perInteraction.Floor) == 0;
      }
    }

    /** `getThings`: a copy of the table, built one name at a time. */
    method GetThings() returns (copy: map<string, Thing>)
      ensures copy == things
    {
      copy := map[];
      var names := things.Keys;
      while names != {}
        invariant names <= things.Keys
        invariant copy.Keys == things.Keys - names
        invariant forall k :: k in copy ==> copy[k] == things[k]
        decreases names
      {
        var name :| name in names;
        copy := copy[name := things[name]];
        names := names - {name};
      }
    }

    /** The pushes of one callback reply, each `things[target].push(impulse)` in order. */
    method ApplyPushes(ps: seq<PushRequest>) returns (outcome: Outcome<Fault>)
      modifies backend
      ensures backend.trace == old(backend.trace) + Pushes(things, ps).events
      ensures outcome == Pushes(things, ps).outcome
    {
      var i := 0;
      ghost var done: seq<Event> := [];
      ghost var start := backend.trace;
      while i < |ps|
        invariant 0 <= i <= |ps|
        invariant backend.trace == start + done
        invariant Pushes(things, ps) == Applied(done + Pushes(things, ps[i..]).events, Pushes(things, ps[i..]).outcome)
      {
        assert ps[i..][0] == ps[i] && ps[i..][1..] == ps[i + 1..];
        var p := ps[i];
        if p.target !in things {
          assert done + [] == done;
          return Fail(TypeError);
        }
        var ev := Push(things[p.target], p.impulse);
        if ev.Err? {
          assert done + [] == done;
          return Fail(ev.error);
        }
        backend.Record(ev.value);
        Appended(start, done, [ev.value]);
        Appended(done, [ev.value], Pushes(things, ps[i + 1..]).events);
        done := done + [ev.value];
        i := i + 1;
      }
      assert ps[i..] == [] && done + [] == done;
      return Pass;
    }

    /** `step(timeDiff, interactionCallback)`; `callback(n)` is what the callback does the
        `n`-th time this call asks it. */
    method Step(timeDiff: Value, callback: nat -> Reply) returns (result: Result<bool, Fault>)
      requires Valid()
      modifies this, backend
      ensures var run := Advance(old(Clock()), rates, things, timeDiff, callback);
        && Clock() == run.clock
        && backend.trace == old(backend.trace) + run.events
        && result == run.result
      ensures Valid()
    {
      ghost var c0 := Clock();
      ghost var trace0 := backend.trace;
      AdvanceSteady(c0, trace0, rates, things, timeDiff, callback);
      if !timeDiff.Num? {
        return Err(Assertion(TimeDiffNotNumber));
      }
      if timeDiff.n.NaN? || timeDiff.n.NegInf? {
        return Err(Assertion(ReverseTimeTravel));
      }
      if timeDiff.n.PosInf? {
        if StepsPerSecond(rates) > 0.0 {
          return Err(Unbounded);
        }
        return Ok(true);
      }
      var d := timeDiff.n.value;
      if d < 0.0 {
        return Err(Assertion(ReverseTimeTravel));
      }
      newTicks := newTicks + Owed(rates, d);
      result := TickLoop(callback);
    }

    /** The `while (Math.floor(newTicks) > 0)` loop of `step`. */
    method TickLoop(callback: nat -> Reply) returns (result: Result<bool, Fault>)
      modifies this, backend
      ensures var run := Ticks(old(Clock()), rates, things, callback, 0);
        && Clock() == run.clock
        && backend.trace == old(backend.trace) + run.events
        && result == run.result
    {
      ghost var target := Ticks(Clock(), rates, things, callback, 0);
      ghost var trace0 := backend.trace;
      var asked := 0;
      while newTicks.Floor > 0
        invariant var now := Ticks(Clock(), rates, things, callback, asked);
          && now.clock == target.clock && now.result == target.result
          && trace0 + target.events == backend.trace + now.events
        decreases newTicks.Floor
      {
        if ticksUntilInteract == 0.0 {
          var halt;
          halt, asked := InteractTick(callback, asked);
          if halt.Some? {
            return halt.value;
          }
        } else {
          PlainTick(callback, asked);
        }
      }
      return Ok(true);
    }

    /** A pass of the tick loop between interactions: one engine step. */
    method PlainTick(callback: nat -> Reply, asked: nat)
      requires newTicks.Floor > 0 && ticksUntilInteract != 0.0
      modifies this, backend
      ensures var run := Ticks(old(Clock()), rates, things, callback, asked);
        var rest := Ticks(Clock(), rates, things, callback, asked);
        && rest.clock == run.clock && rest.result == run.result
        && old(backend.trace) + run.events == backend.trace + rest.events
        && newTicks.Floor == old(newTicks).Floor - 1
    {
      FloorDown(newTicks);
      TicksPlain(Clock(), rates, things, callback, asked);
      backend.Record(StepOf(rates));
      newTicks := newTicks - 1.0;
      ticksUntilInteract := ticksUntilInteract - 1.0;
    }

    /** A pass of the tick loop at an interaction: the callback, then, unless it ended the
        loop, one engine step. */
    method InteractTick(callback: nat -> Reply, asked: nat) returns (halt: Option<Result<bool, Fault>>, next: nat)
      requires newTicks.Floor > 0 && ticksUntilInteract == 0.0
      modifies this, backend
      ensures var run := Ticks(old(Clock()), rates, things, callback, asked);
        halt.Some? ==> && Clock() == run.clock && halt.value == run.result
                       && backend.trace == old(backend.trace) + run.events
      ensures var run := Ticks(old(Clock()), rates, things, callback, asked);
        var rest := Ticks(Clock(), rates, things, callback, next);
        halt.None? ==> && rest.clock == run.clock && rest.result == run.result
                       && old(backend.trace) + run.events == backend.trace + rest.events
                       && newTicks.Floor == old(newTicks).Floor - 1
    {
      FloorDown(newTicks);
      ghost var before := Clock();
      next := asked;
      halt := Interaction(callback, asked);
      if halt.Some? {
        TicksHalt(before, rates, things, callback, asked);
        return;
      }
      InteractFacts(before, rates, things, callback, asked, old(backend.trace), backend.trace);
      next := asked + 1;
      backend.Record(StepOf(rates));
      newTicks := newTicks - 1.0;
      ticksUntilInteract := rates.perInteraction - 1.0;
    }

    /** The interaction at a tick where the countdown is 0: the callback is asked, its
        pushes applied, and its verdict decides whether the tick goes on (`None`) or the
        loop ends with the value `step` then returns or the fault it throws. */
    method Interaction(callback: nat -> Reply, asked: nat) returns (halt: Option<Result<bool, Fault>>)
      requires newTicks.Floor > 0 && ticksUntilInteract == 0.0
      modifies backend
      ensures backend.trace == old(backend.trace) + [Interact] + Pushes(things, callback(asked).pushes).events
      ensures halt == Verdict(things, callback(asked))
    {
      var reply := callback(asked);
      backend.Record(Interact);
      var o := ApplyPushes(reply.pushes);
      if o.Fail? {
        return Some(Err(o.error));
      }
      if !reply.verdict.Bool? {
        return Some(Err(Assertion(ReplyNotBoolean)));
      }
      if !reply.verdict.b {
        return Some(Ok(false));
      }
      return None;
    }

  }

  /** What every `step` call keeps: the pending count has the sign of the ticks per
      second; for a whole number of steps per interaction the countdown is in step with
      the ticks taken; and no engine call names a body that does not exist. */
  ghost predicate Steady(c: Box2DStepper.Clock, trace: seq<Event>, r: Rates, things: map<string, Thing>)
  {
    && (StepsPerSecond(r) >= 0.0 ==> c.pending >= 0.0)
    && (StepsPerSecond(r) <= 0.0 ==> c.pending <= 0.0)
    && InStep(c, trace, r)
    && Consistent(Editor(trace, things))
  }

  /** The countdown in step with the ticks taken, for a whole number of steps per
      interaction. */
  predicate InStep(c: Box2DStepper.Clock, trace: seq<Event>, r: Rates)
  {
    WholePositive(r.perInteraction) ==> c.countdown == Countdown(Ticked(trace), r.perInteraction.Floor) as real
  }

  /** The state a `step` call leaves behind is steady again. */
  lemma AdvanceSteady(c: Box2DStepper.Clock, trace: seq<Event>, r: Rates, things: map<string, Thing>,
                      timeDiff: Value, callback: nat -> Reply)
    requires Steady(c, trace, r, things)
    ensures var run := Advance(c, r, things, timeDiff, callback);
      Steady(run.clock, trace + run.events, r, things)
  {
    var run := Advance(c, r, things, timeDiff, callback);
    AdvancePending(c, r, things, timeDiff, callback);
    if timeDiff.Num? && timeDiff.n.Finite? && timeDiff.n.value >= 0.0 {
      var c' := Box2DStepper.Clock(c.pending + Owed(r, timeDiff.n.value), c.countdown);
      assert run == Ticks(c', r, things, callback, 0);
      TicksSteady(c', trace, r, things, callback);
    } else {
      assert run.events == [];
      assert trace + run.events == trace;
    }
  }

  /** The tick loop keeps the countdown in step and the trace consistent. */
  lemma TicksSteady(c: Box2DStepper.Clock, trace: seq<Event>, r: Rates, things: map<string, Thing>, callback: nat -> Reply)
    requires InStep(c, trace, r) && Consistent(Editor(trace, things))
    ensures var run := Ticks(c, r, things, callback, 0);
      InStep(run.clock, trace + run.events, r) && Consistent(Editor(trace + run.events, things))
  {
    TicksInStep(c, trace, r, things, callback);
    TicksConsistent(c, Editor(trace, things), r, callback);
  }

  /** The tick loop keeps the countdown in step. */
  lemma TicksInStep(c: Box2DStepper.Clock, trace: seq<Event>, r: Rates, things: map<string, Thing>, callback: nat -> Reply)
    requires InStep(c, trace, r)
    ensures var run := Ticks(c, r, things, callback, 0);
      InStep(run.clock, trace + run.events, r)
  {
    var run := Ticks(c, r, things, callback, 0);
    if WholePositive(r.perInteraction) {
      var k := r.perInteraction.Floor;
      assert k as real == r.perInteraction;
      CadenceCountdown(c, r, things, callback, Ticked(trace), k);
      CountdownAppend(run.clock.countdown, trace, run.events, k);
    }
  }

  /** The countdown after two runs of calls, counted together. */
  lemma CountdownAppend(countdown: real, trace: seq<Event>, more: seq<Event>, k: nat)
    requires k > 0 && countdown == Countdown(Ticked(trace) + Ticked(more), k) as real
    ensures countdown == Countdown(Ticked(trace + more), k) as real
  {
    TickedAppend(trace, more);
  }

  /** The tick loop's calls keep the trace consistent. */
  lemma TicksConsistent(c: Box2DStepper.Clock, e: Editor, r: Rates, callback: nat -> Reply)
    requires Consistent(e)
    ensures Consistent(Editor(e.trace + Ticks(c, r, e.things, callback, 0).events, e.things))
  {
    TicksEvents(c, r, e.things, callback, 0);
    TickEventsConsistent(e, Ticks(c, r, e.things, callback, 0).events, r);
  }

  /** Calls the tick loop makes keep a consistent trace consistent. */
  lemma TickEventsConsistent(e: Editor, events: seq<Event>, r: Rates)
    requires Consistent(e)
    requires TickEvents(e.things, r, events)
    ensures Consistent(Editor(e.trace + events, e.things))
  {
    var t := e.trace + events;
    forall i | |e.trace| <= i < |t|
      ensures RefersBack(t, i)
    {
      assert t[i] == events[i - |e.trace|];
      assert TickEvent(e.things, r, events[i - |e.trace|]);
      if t[i].Impulse? {
        var k :| k in e.things && e.things[k].body == t[i].target;
        assert IsBody(e.trace, e.things[k].body);
        assert t[t[i].target] == e.trace[t[i].target];
      }
    }
    forall k | k in e.things
      ensures IsBody(t, e.things[k].body)
    {
      assert IsBody(e.trace, e.things[k].body);
      assert t[e.things[k].body] == e.trace[e.things[k].body];
    }
    ExtendConsistent(e, events, e.things);
  }

  /** `makeWorld`: a fresh engine, the editor's build, then the encapsulated world. */
  method MakeWorld(description: Value, simOptions: Value, parse: string -> Option<Value>) returns (r: Result<World, Fault>)
    ensures match Made(description, simOptions, parse)
      case Err(f) => r == Err(f)
      case Ok(m) => && r.Ok? && fresh(r.value) && fresh(r.value.backend) && r.value.Valid()
                    && r.value.backend.trace == m.0.trace && r.value.things == m.0.things
                    && r.value.rates == m.1 && r.value.Clock() == Clock(0.0, 0.0)
  {
    if !description.Str? {
      return Err(Assertion(DescriptionNotString));
    }
    if !IsObjectLike(simOptions) {
      return Err(Assertion(OptionsNotObject));
    }
    var editor := new WorldEditor();
    var outcome := editor.AddThingsToWorld(description.s, parse);
    if outcome.Fail? {
      return Err(outcome.error);
    }
    var rates := CheckRates(simOptions);
    if rates.Err? {
      return Err(rates.error);
    }
    BuildTextConsistent(description.s, parse);
    var world := new World(editor.backend, editor.thingsByName, rates.value);
    return Ok(world);
  }

  /** What the builder makes from nothing is consistent and has taken no tick. */
  lemma BuildTextConsistent(text: string, parse: string -> Option<Value>)
    ensures var b := BuildText(Editor([], map[]), text, parse);
      Consistent(b.editor) && Ticked(b.editor.trace) == 0
  {
    var e := Editor([], map[]);
    if parse(text).Some? {
      BuildOrder(e, parse(text).value);
      BuildTicksNothing(e, parse(text).value);
    }
  }
}
