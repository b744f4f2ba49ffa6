/** The fixed-timestep stepper of src/makeWorld.js (`worldEncapsulator.step`) as a function
    of its two closure counters: `newTicks`, the real-valued count of ticks owed to the
    simulation, and `ticksUntilInteract`, the ticks left before the interaction callback
    is asked again. */
module Box2DStepper {
  import opened Wrappers
  import opened JsValues
  import opened Box2DBackend
  import opened Box2DThings

  /** The three simulation options: interactions per second (I), simulation steps per
      interaction (K) and engine iterations per step. */
  datatype Rates = Rates(perSecond: real, perInteraction: real, iterations: real)

  /** `simStepsPerSecond = simStepsPerInteraction * interactionsPerSecond`. */
  function StepsPerSecond(r: Rates): real
  {
    r.perInteraction * r.perSecond
  }

  /** The engine step every tick makes: `world.Step(1 / simStepsPerSecond, iters, iters)`.
      Ticks only happen when ticks per second is positive, so the division is by a
      positive number whenever it matters. */
  function StepOf(r: Rates): Event
  {
    Step(if StepsPerSecond(r) == 0.0 then 0.0 else 1.0 / StepsPerSecond(r), r.iterations, r.iterations)
  }

  /** The counters `newTicks` and `ticksUntilInteract`. */
  datatype Clock = Clock(pending: real, countdown: real)

  /** One thing the interaction callback does to a thing of the table it is given:
      `things[target].push(impulse)`. */
  datatype PushRequest = PushRequest(target: string, impulse: Value)

  /** What the callback does when asked: its pushes, in order, and the value it returns. */
  datatype Reply = Reply(pushes: seq<PushRequest>, verdict: Value)

  /** The engine calls a run of pushes makes, and whether the run got through. */
  datatype Applied = Applied(events: seq<Event>, outcome: Outcome<Fault>)

  /** A run of pushes on the table: a name the table does not hold reads `push` of
      undefined and throws, and `push` throws on an invalid impulse. */
  function Pushes(things: map<string, Thing>, ps: seq<PushRequest>): Applied
    decreases |ps|
  {
    if ps == [] then Applied([], Pass)
    else if ps[0].target !in things then Applied([], Fail(TypeError))
    else match Push(things[ps[0].target], ps[0].impulse)
      case Err(f) => Applied([], Fail(f))
      case Ok(ev) =>
        var rest := Pushes(things, ps[1..]);
        Applied([ev] + rest.events, rest.outcome)
  }

  /** A push the table and `push` both accept. */
  predicate ValidPush(things: map<string, Thing>, p: PushRequest)
  {
    p.target in things && Push(things[p.target], p.impulse).Ok?
  }

  /** Pushes only make impulses, each on a body of the table, and get through exactly when
      every push is valid. */
  lemma {:induction false} PushesImpulses(things: map<string, Thing>, ps: seq<PushRequest>)
    ensures var a := Pushes(things, ps);
      && |a.events| <= |ps|
      && (forall i :: 0 <= i < |a.events| ==>
            a.events[i].Impulse? && exists k :: k in things && things[k].body == a.events[i].target)
      && (a.outcome.Pass? <==> forall i :: 0 <= i < |ps| ==> ValidPush(things, ps[i]))
    decreases |ps|
  {
    if ps != [] && ps[0].target in things && Push(things[ps[0].target], ps[0].impulse).Ok? {
      PushesImpulses(things, ps[1..]);
      var a := Pushes(things, ps);
      assert things[ps[0].target].body == a.events[0].target;
      forall i | 0 <= i < |a.events|
        ensures a.events[i].Impulse? && exists k :: k in things && things[k].body == a.events[i].target
      {
        if i > 0 {
          assert a.events[i] == Pushes(things, ps[1..]).events[i - 1];
        }
      }
      assert (forall i :: 0 <= i < |ps| ==> ValidPush(things, ps[i]))
         <==> (forall i :: 0 <= i < |ps[1..]| ==> ValidPush(things, ps[1..][i])) by {
        if forall i :: 0 <= i < |ps[1..]| ==> ValidPush(things, ps[1..][i]) {
          forall i | 0 <= i < |ps|
            ensures ValidPush(things, ps[i])
          {
            if i > 0 { assert ps[i] == ps[1..][i - 1]; }
          }
        }
      }
    } else if ps != [] {
      assert !ValidPush(things, ps[0]);
    }
  }

  /** The pushes stop at the first invalid one: the impulses before it are applied, and the
      error is reading `push` of undefined for a name the table lacks, or else the impulse
      assertion. */
  lemma {:induction false} PushesFault(things: map<string, Thing>, ps: seq<PushRequest>, i: nat)
    requires i < |ps| && !ValidPush(things, ps[i])
    requires forall j :: 0 <= j < i ==> ValidPush(things, ps[j])
    ensures var a := Pushes(things, ps);
      && a.outcome == Fail(if ps[i].target in things then Assertion(ImpulseInvalid) else TypeError)
      && |a.events| == i
      && forall j :: 0 <= j < i ==>
           ValidPush(things, ps[j]) && a.events[j] == Push(things[ps[j].target], ps[j].impulse).value
    decreases i
  {
    if i > 0 {
      assert ValidPush(things, ps[0]);
      forall j | 0 <= j < i - 1
        ensures ValidPush(things, ps[1..][j])
      {
        assert ps[1..][j] == ps[j + 1];
      }
      PushesFault(things, ps[1..], i - 1);
      var a, rest := Pushes(things, ps), Pushes(things, ps[1..]);
      forall j | 1 <= j < i
        ensures a.events[j] == Push(things[ps[j].target], ps[j].impulse).value
      {
        assert a.events[j] == rest.events[j - 1];
        assert ps[j] == ps[1..][j - 1];
      }
    }
  }

  /** The outcome of one `step` call: the counters after it, the engine calls and callback
      interactions it made (`Interact` marks each time the callback was asked), and the
      value it returned or the reason it threw. */
  datatype Run = Run(clock: Clock, events: seq<Event>, result: Result<bool, Fault>)

  lemma FloorDown(x: real)
    ensures (x - 1.0).Floor == x.Floor - 1
  {
  }

  /** The tick loop of `step`. `callback(n)` is what the callback does the `n`-th time this
      call asks it (from `asked` on). */
  function Ticks(c: Clock, r: Rates, things: map<string, Thing>, callback: nat -> Reply, asked: nat): Run
    decreases c.pending.Floor
  {
    if c.pending.Floor <= 0 then Run(c, [], Ok(true))
    else
      FloorDown(c.pending);
      if c.countdown == 0.0 then
        var reply := callback(asked);
        var applied := Pushes(things, reply.pushes);
        var calls := [Interact] + applied.events;
        if applied.outcome.Fail? then Run(c, calls, Err(applied.outcome.error))
        else if !reply.verdict.Bool? then Run(c, calls, Err(Assertion(ReplyNotBoolean)))
        else if !reply.verdict.b then Run(c, calls, Ok(false))
        else
          var rest := Ticks(Clock(c.pending - 1.0, r.perInteraction - 1.0), r, things, callback, asked + 1);
          Run(rest.clock, calls + [StepOf(r)] + rest.events, rest.result)
      else
        var rest := Ticks(Clock(c.pending - 1.0, c.countdown - 1.0), r, things, callback, asked);
        Run(rest.clock, [StepOf(r)] + rest.events, rest.result)
  }

  /** The ticks owed for `d` milliseconds. */
  function Owed(r: Rates, d: real): real
  {
    d / 1000.0 * StepsPerSecond(r)
  }

  /** `step(timeDiff, interactionCallback)`: the two checks on `timeDiff`, then the ticks
      owed for `timeDiff` milliseconds join the pending ones and the tick loop runs. NaN
      passes `typeof` and fails `>= 0`. An infinite `timeDiff` at a positive rate owes
      infinitely many ticks, which the exact-real model reports as `Unbounded` rather than
      follow. At a rate of zero or less it owes NaN or minus infinity ticks, the loop does
      not run, and `step` returns `true`. */
  function Advance(c: Clock, r: Rates, things: map<string, Thing>, timeDiff: Value, callback: nat -> Reply): (run: Run)
    ensures !timeDiff.Num? ==> run == Run(c, [], Err(Assertion(TimeDiffNotNumber)))
    ensures timeDiff.Num? && (timeDiff.n.NaN? || timeDiff.n.NegInf? || (timeDiff.n.Finite? && timeDiff.n.value < 0.0))
            ==> run == Run(c, [], Err(Assertion(ReverseTimeTravel)))
    ensures timeDiff == Num(PosInf) ==> (run.result == Err(Unbounded) <==> StepsPerSecond(r) > 0.0)
    ensures timeDiff == Num(PosInf) && StepsPerSecond(r) <= 0.0 ==> run == Run(c, [], Ok(true))
  {
    if !timeDiff.Num? then Run(c, [], Err(Assertion(TimeDiffNotNumber)))
    else match timeDiff.n
      case NaN => Run(c, [], Err(Assertion(ReverseTimeTravel)))
      case NegInf => Run(c, [], Err(Assertion(ReverseTimeTravel)))
      case PosInf => if StepsPerSecond(r) > 0.0 then Run(c, [], Err(Unbounded)) else Run(c, [], Ok(true))
      case Finite(d) =>
        if d < 0.0 then Run(c, [], Err(Assertion(ReverseTimeTravel)))
        else Ticks(Clock(c.pending + Owed(r, d), c.countdown), r, things, callback, 0)
  }

  /** A `timeDiff` that is a number at least 0 adds the ticks it owes and runs the loop. */
  lemma AdvanceFinite(c: Clock, r: Rates, things: map<string, Thing>, d: real, callback: nat -> Reply)
    requires d >= 0.0
    ensures Advance(c, r, things, Num(Finite(d)), callback)
            == Ticks(Clock(c.pending + Owed(r, d), c.countdown), r, things, callback, 0)
  {
  }

  lemma TickedStep(r: Rates, rest: seq<Event>)
    ensures Ticked([StepOf(r)] + rest) == 1 + Ticked(rest)
  {
    TickedAppend([StepOf(r)], rest);
    assert [StepOf(r)][..0] == [];
  }

  lemma TickedImpulses(es: seq<Event>)
    requires forall i :: 0 <= i < |es| ==> es[i].Impulse?
    ensures Ticked(es) == 0
  {
    if es != [] {
      TickedImpulses(es[..|es| - 1]);
    }
  }

  /** The callback that continues the loop after an interaction. */
  predicate Continues(things: map<string, Thing>, reply: Reply)
  {
    Pushes(things, reply.pushes).outcome.Pass? && reply.verdict == Bool(true)
  }

  /** One tick of the loop at an interaction the callback lets through. */
  lemma TicksInteract(c: Clock, r: Rates, things: map<string, Thing>, callback: nat -> Reply, asked: nat)
    requires c.pending.Floor > 0 && c.countdown == 0.0 && Continues(things, callback(asked))
    ensures var rest := Ticks(Clock(c.pending - 1.0, r.perInteraction - 1.0), r, things, callback, asked + 1);
      Ticks(c, r, things, callback, asked)
      == Run(rest.clock, [Interact] + Pushes(things, callback(asked).pushes).events + [StepOf(r)] + rest.events, rest.result)
  {
  }

  /** One tick of the loop between interactions. */
  lemma TicksPlain(c: Clock, r: Rates, things: map<string, Thing>, callback: nat -> Reply, asked: nat)
    requires c.pending.Floor > 0 && c.countdown != 0.0
    ensures var rest := Ticks(Clock(c.pending - 1.0, c.countdown - 1.0), r, things, callback, asked);
      Ticks(c, r, things, callback, asked) == Run(rest.clock, [StepOf(r)] + rest.events, rest.result)
  {
  }

  /** The loop at an interaction the callback does not let through: it ends there. */
  lemma TicksHalt(c: Clock, r: Rates, things: map<string, Thing>, callback: nat -> Reply, asked: nat)
    requires c.pending.Floor > 0 && c.countdown == 0.0 && !Continues(things, callback(asked))
    ensures var run := Ticks(c, r, things, callback, asked);
      && run.clock == c && run.result != Ok(true)
      && run.events == [Interact] + Pushes(things, callback(asked).pushes).events
      && Verdict(things, callback(asked)) == Some(run.result)
  {
  }

  /** How the loop ends at an interaction, or `None` when the callback lets it go on: a push
      that throws, a verdict that is not a boolean, or `false`. */
  function Verdict(things: map<string, Thing>, reply: Reply): (v: Option<Result<bool, Fault>>)
    ensures v.None? <==> Continues(things, reply)
    ensures v.Some? ==> v.value != Ok(true)
    ensures Pushes(things, reply.pushes).outcome.Fail? ==> v == Some(Err(Pushes(things, reply.pushes).outcome.error))
    ensures Pushes(things, reply.pushes).outcome.Pass? && !reply.verdict.Bool?
            ==> v == Some(Err(Assertion(ReplyNotBoolean)))
    ensures Pushes(things, reply.pushes).outcome.Pass? && reply.verdict == Bool(false) ==> v == Some(Ok(false))
  {
    var applied := Pushes(things, reply.pushes);
    if applied.outcome.Fail? then Some(Err(applied.outcome.error))
    else if !reply.verdict.Bool? then Some(Err(Assertion(ReplyNotBoolean)))
    else if !reply.verdict.b then Some(Ok(false))
    else None
  }

  /** One tick at an interaction the callback lets through, for a trace `trace` the
      interaction's calls already extend. */
  lemma InteractFacts(c: Clock, r: Rates, things: map<string, Thing>, callback: nat -> Reply, asked: nat,
                      trace0: seq<Event>, trace1: seq<Event>)
    requires c.pending.Floor > 0 && c.countdown == 0.0 && Continues(things, callback(asked))
    requires trace1 == trace0 + [Interact] + Pushes(things, callback(asked).pushes).events
    ensures var run := Ticks(c, r, things, callback, asked);
      var rest := Ticks(Clock(c.pending - 1.0, r.perInteraction - 1.0), r, things, callback, asked + 1);
      && rest.clock == run.clock && rest.result == run.result
      && trace0 + run.events == (trace1 + [StepOf(r)]) + rest.events
  {
    TicksInteract(c, r, things, callback, asked);
    var rest := Ticks(Clock(c.pending - 1.0, r.perInteraction - 1.0), r, things, callback, asked + 1);
    Regrouped(trace0, [Interact], Pushes(things, callback(asked).pushes).events, [StepOf(r)], rest.events);
  }

  /** Five runs of calls, grouped two ways. */
  lemma Regrouped(a: seq<Event>, b: seq<Event>, c: seq<Event>, d: seq<Event>, e: seq<Event>)
    ensures a + (b + c + d + e) == (a + b + c + d) + e
  {
  }

  /** Every tick of the loop takes exactly one tick from the pending count. */
  lemma {:induction false} TicksCount(c: Clock, r: Rates, things: map<string, Thing>, callback: nat -> Reply, asked: nat)
    ensures Counted(c, Ticks(c, r, things, callback, asked))
    decreases c.pending.Floor
  {
    if c.pending.Floor > 0 {
      FloorDown(c.pending);
      if c.countdown == 0.0 && Continues(things, callback(asked)) {
        TicksCount(Clock(c.pending - 1.0, r.perInteraction - 1.0), r, things, callback, asked + 1);
        CountedInteract(c, r, things, callback, asked);
      } else if c.countdown == 0.0 {
        TicksHalt(c, r, things, callback, asked);
        PushesImpulses(things, callback(asked).pushes);
        NoSteps([Interact] + Pushes(things, callback(asked).pushes).events);
      } else {
        var c' := Clock(c.pending - 1.0, c.countdown - 1.0);
        TicksCount(c', r, things, callback, asked);
        TicksPlain(c, r, things, callback, asked);
        TickedStep(r, Ticks(c', r, things, callback, asked).events);
      }
    }
  }

  /** What `TicksCount` states of a run from `c`. */
  predicate Counted(c: Clock, run: Run)
  {
    run.clock.pending == c.pending - Ticked(run.events) as real
  }

  /** The counting step at an interaction the callback lets through. */
  lemma CountedInteract(c: Clock, r: Rates, things: map<string, Thing>, callback: nat -> Reply, asked: nat)
    requires c.pending.Floor > 0 && c.countdown == 0.0 && Continues(things, callback(asked))
    requires var c' := Clock(c.pending - 1.0, r.perInteraction - 1.0);
      Counted(c', Ticks(c', r, things, callback, asked + 1))
    ensures Counted(c, Ticks(c, r, things, callback, asked))
  {
    var pushed := Pushes(things, callback(asked).pushes).events;
    var rest := Ticks(Clock(c.pending - 1.0, r.perInteraction - 1.0), r, things, callback, asked + 1);
    TicksInteract(c, r, things, callback, asked);
    PushesImpulses(things, callback(asked).pushes);
    InteractPrefix(r, pushed, rest.events);
  }

  /** A call the tick loop may make: asking the callback, the engine step, or an impulse on
      a body of the table. */
  predicate TickEvent(things: map<string, Thing>, r: Rates, ev: Event)
  {
    ev == Interact || ev == StepOf(r) || (ev.Impulse? && exists k :: k in things && things[k].body == ev.target)
  }

  /** Every call of `events` is one the tick loop may make. */
  predicate TickEvents(things: map<string, Thing>, r: Rates, events: seq<Event>)
  {
    forall i :: 0 <= i < |events| ==> TickEvent(things, r, events[i])
  }

  /** Every tick of the loop is the same engine step, and every impulse is on a body of the
      table. */
  lemma {:induction false} TicksEvents(c: Clock, r: Rates, things: map<string, Thing>, callback: nat -> Reply, asked: nat)
    ensures TickEvents(things, r, Ticks(c, r, things, callback, asked).events)
    decreases c.pending.Floor
  {
    if c.pending.Floor > 0 {
      FloorDown(c.pending);
      PushedEvents(things, r, callback(asked).pushes);
      if c.countdown == 0.0 && Continues(things, callback(asked)) {
        var c' := Clock(c.pending - 1.0, r.perInteraction - 1.0);
        TicksInteract(c, r, things, callback, asked);
        TicksEvents(c', r, things, callback, asked + 1);
        EventsInteract(things, r, Pushes(things, callback(asked).pushes).events, Ticks(c', r, things, callback, asked + 1).events);
      } else if c.countdown == 0.0 {
        TicksHalt(c, r, things, callback, asked);
        EventsInteract(things, r, Pushes(things, callback(asked).pushes).events, []);
      } else {
        var c' := Clock(c.pending - 1.0, c.countdown - 1.0);
        TicksPlain(c, r, things, callback, asked);
        TicksEvents(c', r, things, callback, asked);
        EventsStep(things, r, Ticks(c', r, things, callback, asked).events);
      }
    }
  }

  lemma PushedEvents(things: map<string, Thing>, r: Rates, ps: seq<PushRequest>)
    ensures TickEvents(things, r, Pushes(things, ps).events)
  {
    PushesImpulses(things, ps);
  }

  /** An interaction and its impulses, with or without the step and the ticks after it. */
  lemma EventsInteract(things: map<string, Thing>, r: Rates, pushed: seq<Event>, rest: seq<Event>)
    requires TickEvents(things, r, pushed) && TickEvents(things, r, rest)
    ensures TickEvents(things, r, [Interact] + pushed)
    ensures TickEvents(things, r, [Interact] + pushed + [StepOf(r)] + rest)
  {
    var run := [Interact] + pushed + [StepOf(r)] + rest;
    forall i | 0 <= i < |run|
      ensures TickEvent(things, r, run[i])
    {
      if 0 < i <= |pushed| {
        assert run[i] == pushed[i - 1];
      } else if i > |pushed| + 1 {
        assert run[i] == rest[i - |pushed| - 2];
      }
    }
    var halted := [Interact] + pushed;
    forall i | 0 < i < |halted|
      ensures TickEvent(things, r, halted[i])
    {
      assert halted[i] == pushed[i - 1];
    }
  }

  lemma EventsStep(things: map<string, Thing>, r: Rates, rest: seq<Event>)
    requires TickEvents(things, r, rest)
    ensures TickEvents(things, r, [StepOf(r)] + rest)
  {
    var run := [StepOf(r)] + rest;
    forall i | 0 < i < |run|
      ensures TickEvent(things, r, run[i])
    {
      assert run[i] == rest[i - 1];
    }
  }

  /** The tick loop only takes ticks while at least one is pending: a pending count that
      is not negative stays so, a run that returns `true` leaves less than one tick
      pending, and a run that stops or throws does so at an interaction, with at least one
      tick still pending. */
  lemma {:induction false} TicksPending(c: Clock, r: Rates, things: map<string, Thing>, callback: nat -> Reply, asked: nat)
    ensures var run := Ticks(c, r, things, callback, asked);
      && (c.pending >= 0.0 ==> run.clock.pending >= 0.0)
      && (c.pending < 1.0 ==> run == Run(c, [], Ok(true)))
      && (run.result == Ok(true) ==> run.clock.pending < 1.0)
      && (run.result != Ok(true) ==> run.clock.pending >= 1.0 && run.clock.countdown == 0.0)
    decreases c.pending.Floor
  {
    if c.pending.Floor > 0 {
      FloorDown(c.pending);
      if c.countdown == 0.0 {
        TicksPending(Clock(c.pending - 1.0, r.perInteraction - 1.0), r, things, callback, asked + 1);
      } else {
        TicksPending(Clock(c.pending - 1.0, c.countdown - 1.0), r, things, callback, asked);
      }
    }
  }

  lemma FloorShift(x: real, n: int)
    ensures (x - n as real).Floor == x.Floor - n
  {
  }

  /** A callback that always returns `true` and only pushes what `push` accepts. */
  ghost predicate Cooperative(things: map<string, Thing>, callback: nat -> Reply)
  {
    forall n: nat :: Continues(things, callback(n))
  }

  /** With a cooperative callback the loop takes every whole tick pending and returns
      `true`, leaving the fraction of a tick pending. */
  lemma {:induction false} TicksCooperative(c: Clock, r: Rates, things: map<string, Thing>, callback: nat -> Reply, asked: nat)
    requires Cooperative(things, callback)
    requires c.pending >= 0.0
    ensures var run := Ticks(c, r, things, callback, asked);
      && run.result == Ok(true)
      && Ticked(run.events) == c.pending.Floor
      && run.clock.pending == c.pending - c.pending.Floor as real
      && 0.0 <= run.clock.pending < 1.0
    decreases c.pending.Floor
  {
    TicksCount(c, r, things, callback, asked);
    TicksPending(c, r, things, callback, asked);
    if c.pending.Floor > 0 {
      FloorDown(c.pending);
      assert Continues(things, callback(asked));
      if c.countdown == 0.0 {
        TicksCooperative(Clock(c.pending - 1.0, r.perInteraction - 1.0), r, things, callback, asked + 1);
        TicksInteract(c, r, things, callback, asked);
      } else {
        TicksCooperative(Clock(c.pending - 1.0, c.countdown - 1.0), r, things, callback, asked);
        TicksPlain(c, r, things, callback, asked);
      }
    }
  }

  /** `step` with a cooperative callback and a time difference of `d >= 0` milliseconds
      makes exactly as many engine steps as whole ticks are then owed, returns `true`, and
      leaves less than one tick pending; for a non-negative number of steps per second
      nothing pending ever goes negative. */
  lemma AdvanceCooperative(c: Clock, r: Rates, things: map<string, Thing>, d: real, callback: nat -> Reply)
    requires Cooperative(things, callback)
    requires d >= 0.0 && StepsPerSecond(r) >= 0.0 && c.pending >= 0.0
    ensures var run := Advance(c, r, things, Num(Finite(d)), callback);
      var owed := c.pending + Owed(r, d);
      && run.result == Ok(true)
      && Ticked(run.events) == owed.Floor
      && run.clock.pending == owed - owed.Floor as real
      && 0.0 <= run.clock.pending < 1.0
  {
    var owed := c.pending + Owed(r, d);
    assert Owed(r, d) >= 0.0 by {
      assert d / 1000.0 >= 0.0;
      MulNonNegative(d / 1000.0, StepsPerSecond(r));
    }
    assert Advance(c, r, things, Num(Finite(d)), callback) == Ticks(Clock(owed, c.countdown), r, things, callback, 0);
    TicksCooperative(Clock(owed, c.countdown), r, things, callback, 0);
  }

  lemma MulNonNegative(x: real, y: real)
    requires x >= 0.0 && y >= 0.0
    ensures x * y >= 0.0
  {
  }

  /** Time is cut into ticks the same way whether it arrives in one `step` call or in two:
      the fraction left over by the first call is carried into the second. */
  lemma AdvanceSplit(c: Clock, r: Rates, things: map<string, Thing>, a: real, b: real, callback1: nat -> Reply, callback2: nat -> Reply)
    requires Cooperative(things, callback1) && Cooperative(things, callback2)
    requires a >= 0.0 && b >= 0.0 && StepsPerSecond(r) >= 0.0 && c.pending >= 0.0
    ensures var run1 := Advance(c, r, things, Num(Finite(a)), callback1);
      var run2 := Advance(run1.clock, r, things, Num(Finite(b)), callback2);
      Ticked(run1.events) + Ticked(run2.events) == (c.pending + Owed(r, a) + Owed(r, b)).Floor
  {
    var run1 := Advance(c, r, things, Num(Finite(a)), callback1);
    AdvanceCooperative(c, r, things, a, callback1);
    AdvanceCooperative(run1.clock, r, things, b, callback2);
    var p1 := c.pending + Owed(r, a);
    FloorShift(p1 + Owed(r, b), p1.Floor);
    assert run1.clock.pending + Owed(r, b) == p1 + Owed(r, b) - p1.Floor as real;
  }

  /** The interaction countdown after `t` ticks for a whole number `k` of steps per
      interaction: the callback is due when it is 0, i.e. every `k` ticks from the first. */
  function Countdown(t: nat, k: nat): (n: nat)
    requires k > 0
    ensures n < k
    ensures n == 0 <==> t % k == 0
  {
    (k - t % k) % k
  }

  /** Division with remainder has one answer. */
  lemma DivModUnique(x: int, k: int, q: int, m: int)
    requires k > 0 && 0 <= m < k && x == q * k + m
    ensures x / k == q && x % k == m
  {
    var q', m' := x / k, x % k;
    var d := q - q';
    assert d * k == m' - m by {
      assert x == q' * k + m';
      assert d * k == q * k - q' * k;
    }
    if d >= 1 {
      assert d * k >= k by { MulAtLeast(d, k); }
    } else if d <= -1 {
      assert (-d) * k >= k by { MulAtLeast(-d, k); }
    }
  }

  lemma MulAtLeast(d: int, k: int)
    requires d >= 1 && k > 0
    ensures d * k >= k
  {
  }

  lemma CountdownNext(t: nat, k: nat)
    requires k > 0
    ensures Countdown(t + 1, k) == if Countdown(t, k) == 0 then k - 1 else Countdown(t, k) - 1
  {
    var q, m := t / k, t % k;
    if m == k - 1 {
      DivModUnique(t + 1, k, q + 1, 0);
    } else {
      DivModUnique(t + 1, k, q, m + 1);
    }
    if m == 0 {
      DivModUnique(k, k, 1, 0);
      DivModUnique(k - 1, k, 0, k - 1);
    } else {
      DivModUnique(k - m, k, 0, k - m);
      if m == k - 1 {
        DivModUnique(k, k, 1, 0);
      } else {
        DivModUnique(k - m - 1, k, 0, k - m - 1);
      }
    }
  }

  /** The interactions and steps of a list of calls, impulses left out. */
  function Skeleton(es: seq<Event>): seq<Event>
    decreases |es|
  {
    if es == [] then []
    else (if es[0].Interact? || es[0].Step? then [es[0]] else []) + Skeleton(es[1..])
  }

  lemma {:induction false} SkeletonAppend(a: seq<Event>, b: seq<Event>)
    ensures Skeleton(a + b) == Skeleton(a) + Skeleton(b)
    decreases |a|
  {
    if a != [] {
      assert (a + b)[0] == a[0] && (a + b)[1..] == a[1..] + b;
      SkeletonAppend(a[1..], b);
      var head := if a[0].Interact? || a[0].Step? then [a[0]] else [];
      assert Skeleton(a + b) == head + Skeleton(a[1..] + b);
      assert Skeleton(a) == head + Skeleton(a[1..]);
    } else {
      assert a + b == b;
    }
  }

  lemma {:induction false} SkeletonImpulses(es: seq<Event>)
    requires forall i :: 0 <= i < |es| ==> es[i].Impulse?
    ensures Skeleton(es) == []
    decreases |es|
  {
    if es != [] {
      SkeletonImpulses(es[1..]);
    }
  }

  /** The reference schedule of `n` ticks from tick `t` on: the callback is asked before
      every tick whose number is a multiple of `k`. */
  function Schedule(t: nat, n: nat, k: nat, step: Event): seq<Event>
    requires k > 0
    decreases n
  {
    if n == 0 then []
    else (if t % k == 0 then [Interact] else []) + [step] + Schedule(t + 1, n - 1, k, step)
  }

  /** What the schedule and the countdown say of a run, for the cadence lemma. */
  predicate OnSchedule(run: Run, r: Rates, t: nat, k: nat)
    requires k > 0
  {
    var n := Ticked(run.events);
    && run.clock.countdown == Countdown(t + n, k) as real
    && Skeleton(run.events) == Schedule(t, n, k, StepOf(r)) + (if run.result == Ok(true) then [] else [Interact])
  }

  /** For a whole number `k > 0` of steps per interaction, a countdown that starts in step
      with the `t` ticks taken so far stays in step: the loop asks the callback exactly
      before the ticks the schedule says, and when it does not return `true` it has just
      asked the callback, at a tick the schedule has the callback due. */
  /** The countdown a loop leaves is in step with every tick taken, before and during it. */
  lemma CadenceCountdown(c: Clock, r: Rates, things: map<string, Thing>, callback: nat -> Reply, t: nat, k: nat)
    requires k > 0 && r.perInteraction == k as real && c.countdown == Countdown(t, k) as real
    ensures var run := Ticks(c, r, things, callback, 0);
      run.clock.countdown == Countdown(t + Ticked(run.events), k) as real
  {
    TicksCadence(c, r, things, callback, 0, t, k);
  }

  lemma {:induction false} TicksCadence(c: Clock, r: Rates, things: map<string, Thing>, callback: nat -> Reply, asked: nat, t: nat, k: nat)
    requires k > 0 && r.perInteraction == k as real && c.countdown == Countdown(t, k) as real
    ensures OnSchedule(Ticks(c, r, things, callback, asked), r, t, k)
    decreases c.pending.Floor
  {
    if c.pending.Floor > 0 {
      FloorDown(c.pending);
      CountdownNext(t, k);
      var pushed := Pushes(things, callback(asked).pushes).events;
      PushesImpulses(things, callback(asked).pushes);
      if c.countdown == 0.0 && Continues(things, callback(asked)) {
        var c' := Clock(c.pending - 1.0, r.perInteraction - 1.0);
        TicksInteract(c, r, things, callback, asked);
        TicksCadence(c', r, things, callback, asked + 1, t + 1, k);
        CadenceAfterInteract(r, pushed, Ticks(c', r, things, callback, asked + 1), t, k);
      } else if c.countdown == 0.0 {
        TicksHalt(c, r, things, callback, asked);
        CadenceAtHalt(r, pushed, Ticks(c, r, things, callback, asked), t, k);
      } else {
        var c' := Clock(c.pending - 1.0, c.countdown - 1.0);
        TicksPlain(c, r, things, callback, asked);
        TicksCadence(c', r, things, callback, asked, t + 1, k);
        CadenceBetween(r, Ticks(c', r, things, callback, asked), t, k);
      }
    }
  }

  lemma CadenceAtHalt(r: Rates, pushed: seq<Event>, run: Run, t: nat, k: nat)
    requires k > 0 && t % k == 0 && run.clock.countdown == 0.0 && run.result != Ok(true)
    requires forall i :: 0 <= i < |pushed| ==> pushed[i].Impulse?
    requires run.events == [Interact] + pushed
    ensures OnSchedule(run, r, t, k)
  {
    SkeletonImpulses(pushed);
    NoSteps([Interact] + pushed);
    SkeletonAppend([Interact], pushed);
    assert Skeleton([Interact]) == [Interact];
  }

  lemma CadenceBetween(r: Rates, rest: Run, t: nat, k: nat)
    requires k > 0 && t % k != 0
    requires OnSchedule(rest, r, t + 1, k)
    ensures OnSchedule(Run(rest.clock, [StepOf(r)] + rest.events, rest.result), r, t, k)
  {
    var step, m := StepOf(r), Ticked(rest.events);
    var tail: seq<Event> := if rest.result == Ok(true) then [] else [Interact];
    SkeletonAppend([step], rest.events);
    TickedStep(r, rest.events);
    assert Skeleton([step]) == [step];
    assert Schedule(t, m + 1, k, step) == [step] + Schedule(t + 1, m, k, step);
    Appended([step], Schedule(t + 1, m, k, step), tail);
    assert t + (m + 1) == (t + 1) + m;
  }

  lemma CadenceAfterInteract(r: Rates, pushed: seq<Event>, rest: Run, t: nat, k: nat)
    requires k > 0 && t % k == 0
    requires forall i :: 0 <= i < |pushed| ==> pushed[i].Impulse?
    requires OnSchedule(rest, r, t + 1, k)
    ensures OnSchedule(Run(rest.clock, [Interact] + pushed + [StepOf(r)] + rest.events, rest.result), r, t, k)
  {
    InteractPrefix(r, pushed, rest.events);
    var m := Ticked(rest.events);
    assert t + (m + 1) == (t + 1) + m;
  }

  /** An interaction, its impulses and one step: one tick, and a callback then a step in
      the skeleton. */
  lemma InteractPrefix(r: Rates, pushed: seq<Event>, rest: seq<Event>)
    requires forall i :: 0 <= i < |pushed| ==> pushed[i].Impulse?
    ensures Skeleton([Interact] + pushed + [StepOf(r)] + rest) == [Interact] + [StepOf(r)] + Skeleton(rest)
    ensures Ticked([Interact] + pushed + [StepOf(r)] + rest) == Ticked(rest) + 1
  {
    var events := [Interact] + pushed + [StepOf(r)] + rest;
    assert events == ([Interact] + pushed) + ([StepOf(r)] + rest);
    SkeletonImpulses(pushed);
    SkeletonAppend([Interact] + pushed, [StepOf(r)] + rest);
    SkeletonAppend([Interact], pushed);
    SkeletonAppend([StepOf(r)], rest);
    NoSteps([Interact] + pushed);
    TickedAppend([Interact] + pushed, [StepOf(r)] + rest);
    TickedStep(r, rest);
  }

  /** A callback that returns `false` stops the loop at once: no step, nothing taken from
      the pending count, and the countdown still at 0, so that the next `step` call asks
      the callback again before anything else. */
  lemma StopsAtOnce(c: Clock, r: Rates, things: map<string, Thing>, callback: nat -> Reply, asked: nat)
    requires c.pending >= 1.0 && c.countdown == 0.0
    requires Pushes(things, callback(asked).pushes).outcome.Pass? && callback(asked).verdict == Bool(false)
    ensures var run := Ticks(c, r, things, callback, asked);
      && run == Run(c, [Interact] + Pushes(things, callback(asked).pushes).events, Ok(false))
      && Ticked(run.events) == 0
  {
    PushesImpulses(things, callback(asked).pushes);
    NoSteps([Interact] + Pushes(things, callback(asked).pushes).events);
  }

  /** After a run that stopped or threw, the next `step` call (with any time difference
      that is not negative, and ticks per second not negative) begins by asking the
      callback. */
  lemma AskedAgain(c: Clock, r: Rates, things: map<string, Thing>, callback: nat -> Reply, asked: nat,
                   d: real, next: nat -> Reply)
    requires Ticks(c, r, things, callback, asked).result != Ok(true)
    requires d >= 0.0 && StepsPerSecond(r) >= 0.0
    ensures var run := Advance(Ticks(c, r, things, callback, asked).clock, r, things, Num(Finite(d)), next);
      |run.events| > 0 && run.events[0] == Interact
  {
    var stopped := Ticks(c, r, things, callback, asked).clock;
    TicksPending(c, r, things, callback, asked);
    assert Owed(r, d) >= 0.0 by {
      MulNonNegative(d / 1000.0, StepsPerSecond(r));
    }
    var c' := Clock(stopped.pending + Owed(r, d), 0.0);
    assert c'.pending.Floor > 0;
    if Continues(things, next(0)) {
      TicksInteract(c', r, things, next, 0);
    } else {
      TicksHalt(c', r, things, next, 0);
    }
  }

  lemma MulNonPositive(x: real, y: real)
    requires x >= 0.0 && y <= 0.0
    ensures x * y <= 0.0
  {
  }

  /** `step` keeps the sign of the pending count: never negative when ticks per second is
      not negative, and never positive, with nothing done, when it is not positive. A call
      that throws on `timeDiff` changes nothing. */
  lemma AdvancePending(c: Clock, r: Rates, things: map<string, Thing>, timeDiff: Value, callback: nat -> Reply)
    ensures var run := Advance(c, r, things, timeDiff, callback);
      && (StepsPerSecond(r) >= 0.0 && c.pending >= 0.0 ==> run.clock.pending >= 0.0)
      && (StepsPerSecond(r) <= 0.0 && c.pending <= 0.0 ==>
            run.clock.pending <= 0.0 && run.events == [] && run.clock.countdown == c.countdown)
  {
    if timeDiff.Num? && timeDiff.n.Finite? && timeDiff.n.value >= 0.0 {
      var d := timeDiff.n.value;
      var c' := Clock(c.pending + Owed(r, d), c.countdown);
      TicksPending(c', r, things, callback, 0);
      if StepsPerSecond(r) >= 0.0 {
        MulNonNegative(d / 1000.0, StepsPerSecond(r));
      }
      if StepsPerSecond(r) <= 0.0 {
        MulNonPositive(d / 1000.0, StepsPerSecond(r));
      }
    }
  }

  /** Ten interactions per second and six steps per interaction, from a fresh clock, with a
      callback that lets everything through: 100 milliseconds owe six ticks of 1/60 s, and
      the callback is asked once, before the first. */
  lemma SixStepsOneInteraction(r: Rates, c: Clock, d: real, things: map<string, Thing>, callback: nat -> Reply)
    requires r == Rates(10.0, 6.0, 3.0) && c == Clock(0.0, 0.0) && d == 100.0
    requires Cooperative(things, callback)
    ensures var run := Advance(c, r, things, Num(Finite(d)), callback);
      && run.result == Ok(true) && run.clock.pending == 0.0
      && StepOf(r) == Step(1.0 / 60.0, 3.0, 3.0)
      && Skeleton(run.events) == [Interact] + seq(6, _ => StepOf(r))
  {
    assert StepsPerSecond(r) == 60.0;
    assert Owed(r, d) == 6.0;
    AdvanceFinite(c, r, things, d, callback);
    FirstTicks(Clock(6.0, 0.0), r, things, callback, 6);
  }

  /** From a fresh countdown, `k` whole ticks pending and `k` steps per interaction, a
      cooperative callback is asked once, before the first of `k` steps. */
  lemma FirstTicks(c: Clock, r: Rates, things: map<string, Thing>, callback: nat -> Reply, k: nat)
    requires k > 0 && r.perInteraction == k as real && c == Clock(k as real, 0.0)
    requires Cooperative(things, callback)
    ensures var run := Ticks(c, r, things, callback, 0);
      && run.result == Ok(true) && run.clock.pending == 0.0
      && Skeleton(run.events) == [Interact] + seq(k, _ => StepOf(r))
  {
    TicksCooperative(c, r, things, callback, 0);
    assert Countdown(0, k) == 0;
    TicksCadence(c, r, things, callback, 0, 0, k);
    FirstRound(k, StepOf(r));
  }

  /** The first `k` ticks ever: the callback once, then `k` steps. */
  lemma FirstRound(k: nat, step: Event)
    requires k > 0
    ensures Schedule(0, k, k, step) == [Interact] + seq(k, _ => step)
  {
    ScheduleBetween(1, k - 1, k, step);
    assert Schedule(0, k, k, step) == [Interact] + [step] + Schedule(1, k - 1, k, step);
    assert [step] + seq(k - 1, _ => step) == seq(k, _ => step);
  }

  lemma CountdownOf(t: nat, k: nat)
    requires k > 0 && t == k
    ensures Countdown(t, k) == 0
  {
    DivModUnique(t, k, 1, 0);
  }

  /** Between two multiples of `k` the schedule is steps only. */
  lemma {:induction false} ScheduleBetween(t: nat, n: nat, k: nat, step: Event)
    requires k > 0 && t >= 1 && t + n <= k
    ensures Schedule(t, n, k, step) == seq(n, _ => step)
    decreases n
  {
    if n > 0 {
      DivModUnique(t, k, 0, t);
      ScheduleBetween(t + 1, n - 1, k, step);
    }
  }
}
