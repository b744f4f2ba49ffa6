/** `simulate` (src/simulate.js) with the Promise and the timers taken away: one call of
    `iterate` is one method call, and whether another one is scheduled is its result. */
module Simulate {
  import opened Wrappers
  import opened JsValues
  import opened Box2DBackend
  import opened Box2DThings
  import opened Box2DEditor
  import opened Box2DStepper
  import opened Box2DWorld

  /** What one `iterate` call leads to: another call, the end of the simulation, or
      `reject` with what `step` threw. */
  datatype Decision = Continue | Stop | Reject(fault: Fault)

  /** The options `simulate` reads after the world is made. */
  datatype Settings = Settings(display: bool, maxStep: Number)

  /** `continueSim === true` schedules another call; a throw goes to `reject`. */
  function Decide(result: Result<bool, Fault>): (d: Decision)
    ensures d == Continue <==> result == Ok(true)
    ensures d == Stop <==> result == Ok(false)
    ensures result.Err? <==> d.Reject?
    ensures d.Reject? ==> d.fault == result.error
  {
    match result
    case Err(f) => Reject(f)
    case Ok(b) => if b then Continue else Stop
  }

  /** The milliseconds since the previous reading, or none on the first call. */
  function Elapsed(prevTime: Option<int>, now: int): int
  {
    if prevTime.None? then 0 else now - prevTime.value
  }

  /** The display-mode time difference: the time since the previous call (none on the first
      one), lowered to `maxStepMilliseconds` when it is greater, and not raised when it is
      negative. */
  function TimeDiff(prevTime: Option<int>, now: int, maxStep: Number): (d: Number)
    ensures Greater(Finite(Elapsed(prevTime, now) as real), maxStep) ==> d == maxStep
    ensures !Greater(Finite(Elapsed(prevTime, now) as real), maxStep) ==> d == Finite(Elapsed(prevTime, now) as real)
    ensures !Greater(d, maxStep)
  {
    var diff := Finite(Elapsed(prevTime, now) as real);
    if Greater(diff, maxStep) then maxStep else diff
  }

  /** What `step` is given: the clamped difference on screen, the whole maximum in batch. */
  function StepArgument(s: Settings, prevTime: Option<int>, now: int): Number
  {
    if s.display then TimeDiff(prevTime, now, s.maxStep) else s.maxStep
  }

  /** One `iterate` call with the world in clock state `c`: its `step` run, the next
      `prevTime` and the decision. */
  datatype Iteration = Iteration(run: Run, prevTime: Option<int>, decision: Decision)

  function Iterated(c: Clock, r: Rates, things: map<string, Thing>, s: Settings,
                    prevTime: Option<int>, now: int, callback: nat -> Reply): (it: Iteration)
    ensures s.display ==> it.prevTime == Some(now)
    ensures !s.display ==> it.prevTime == prevTime
  {
    var run := Advance(c, r, things, Num(StepArgument(s, prevTime, now)), callback);
    Iteration(run, if s.display then Some(now) else prevTime, Decide(run.result))
  }

  /** What the `k`-th `iterate` call does from clock state `c`, `prevTime` `p` and clock
      reading `now`. */
  type Rule = (Clock, Option<int>, int, nat) -> Iteration

  /** The simulation's own rule: the `k`-th call hands `callbacks(k)` to `step`. */
  function Calls(r: Rates, things: map<string, Thing>, s: Settings, callbacks: nat -> nat -> Reply): Rule
  {
    (c: Clock, p: Option<int>, now: int, k: nat) => Iterated(c, r, things, s, p, now, callbacks(k))
  }

  /** A sequence of `iterate` calls, fed one clock reading each from `nows` (batch mode
      never looks at them), numbered from `k`; it ends with the first decision that is not
      `Continue`, or with the readings. */
  datatype Session = Session(clock: Clock, events: seq<Event>, prevTime: Option<int>, decision: Decision, iterations: nat)

  function Sessioned(rule: Rule, c: Clock, prevTime: Option<int>, nows: seq<int>, k: nat): (ses: Session)
    decreases |nows|
  {
    if nows == [] then Session(c, [], prevTime, Continue, 0)
    else
      var it := rule(c, prevTime, nows[0], k);
      if it.decision.Continue? then Joined(it.run.events, 1, Sessioned(rule, it.run.clock, it.prevTime, nows[1..], k + 1))
      else Session(it.run.clock, it.run.events, it.prevTime, it.decision, 1)
  }

  /** `rest` preceded by `n` calls that made `events`. */
  function Joined(events: seq<Event>, n: nat, rest: Session): Session
  {
    Session(rest.clock, events + rest.events, rest.prevTime, rest.decision, n + rest.iterations)
  }

  lemma JoinedJoined(a: seq<Event>, m: nat, b: seq<Event>, n: nat, rest: Session)
    ensures Joined(a, m, Joined(b, n, rest)) == Joined(a + b, m + n, rest)
  {
    assert a + (b + rest.events) == (a + b) + rest.events;
  }

  /** One more call of a session that `target` follows after `i` calls made `events`. */
  lemma SessionStep(rule: Rule, target: Session, events: seq<Event>, i: nat, c: Clock, p: Option<int>,
                    rest: seq<int>, it: Iteration)
    requires rest != [] && it == rule(c, p, rest[0], i)
    requires target == Joined(events, i, Sessioned(rule, c, p, rest, i))
    ensures it.decision.Continue? ==>
      target == Joined(events + it.run.events, i + 1, Sessioned(rule, it.run.clock, it.prevTime, rest[1..], i + 1))
    ensures !it.decision.Continue? ==>
      target == Session(it.run.clock, events + it.run.events, it.prevTime, it.decision, i + 1)
  {
    if it.decision.Continue? {
      JoinedJoined(events, i, it.run.events, 1, Sessioned(rule, it.run.clock, it.prevTime, rest[1..], i + 1));
    }
  }

  /** The session goes on only while every `step` returns `true`: a session that ended made
      between one call and one call per reading, and one that did not used every reading. */
  lemma {:induction false} SessionLength(rule: Rule, c: Clock, prevTime: Option<int>, nows: seq<int>, k: nat)
    ensures var ses := Sessioned(rule, c, prevTime, nows, k);
      && (ses.decision.Continue? ==> ses.iterations == |nows|)
      && (!ses.decision.Continue? ==> 1 <= ses.iterations <= |nows|)
    decreases |nows|
  {
    if nows != [] {
      var it := rule(c, prevTime, nows[0], k);
      if it.decision.Continue? {
        SessionLength(rule, it.run.clock, it.prevTime, nows[1..], k + 1);
      }
    }
  }

  /** Nothing is scheduled after a stop or a rejection: more readings change nothing. */
  lemma {:induction false} SessionEnded(rule: Rule, c: Clock, prevTime: Option<int>, nows: seq<int>, more: seq<int>, k: nat)
    requires !Sessioned(rule, c, prevTime, nows, k).decision.Continue?
    ensures Sessioned(rule, c, prevTime, nows + more, k) == Sessioned(rule, c, prevTime, nows, k)
    decreases |nows|
  {
    assert (nows + more)[0] == nows[0];
    var it := rule(c, prevTime, nows[0], k);
    if it.decision.Continue? {
      assert (nows + more)[1..] == nows[1..] + more;
      SessionEnded(rule, it.run.clock, it.prevTime, nows[1..], more, k + 1);
    }
  }

  /** A session over two runs of readings is the second run's session after the first's,
      while the first has not ended. */
  lemma {:induction false} SessionSplit(rule: Rule, c: Clock, prevTime: Option<int>, nows: seq<int>, more: seq<int>, k: nat)
    requires Sessioned(rule, c, prevTime, nows, k).decision.Continue?
    ensures var first := Sessioned(rule, c, prevTime, nows, k);
      Sessioned(rule, c, prevTime, nows + more, k)
        == Joined(first.events, |nows|, Sessioned(rule, first.clock, first.prevTime, more, k + |nows|))
    decreases |nows|
  {
    if nows == [] {
      assert nows + more == more;
    } else {
      assert (nows + more)[0] == nows[0];
      assert (nows + more)[1..] == nows[1..] + more;
      var it := rule(c, prevTime, nows[0], k);
      var first' := Sessioned(rule, it.run.clock, it.prevTime, nows[1..], k + 1);
      SessionSplit(rule, it.run.clock, it.prevTime, nows[1..], more, k + 1);
      JoinedJoined(it.run.events, 1, first'.events, |nows| - 1,
                   Sessioned(rule, first'.clock, first'.prevTime, more, k + |nows|));
    }
  }

  /** In batch mode the clock is never read: every call is given `maxStepMilliseconds`, so
      any two runs of readings of the same length make the same session. */
  lemma {:induction false} BatchIgnoresClock(r: Rates, things: map<string, Thing>, s: Settings, callbacks: nat -> nat -> Reply,
                                             c: Clock, prevTime: Option<int>, nows: seq<int>, others: seq<int>, k: nat)
    requires !s.display && |nows| == |others|
    ensures Sessioned(Calls(r, things, s, callbacks), c, prevTime, nows, k)
         == Sessioned(Calls(r, things, s, callbacks), c, prevTime, others, k)
    decreases |nows|
  {
    if nows != [] {
      var rule := Calls(r, things, s, callbacks);
      var it := rule(c, prevTime, nows[0], k);
      assert StepArgument(s, prevTime, nows[0]) == StepArgument(s, prevTime, others[0]);
      assert it == Iterated(c, r, things, s, prevTime, nows[0], callbacks(k))
               == Iterated(c, r, things, s, prevTime, others[0], callbacks(k))
               == rule(c, prevTime, others[0], k);
      BatchIgnoresClock(r, things, s, callbacks, it.run.clock, it.prevTime, nows[1..], others[1..], k + 1);
    }
  }

  /** The difference is not bounded below: on screen, a clock reading earlier than the
      previous one makes `step` throw its backwards-time-travel assertion, whatever the
      maximum step. */
  lemma ClockBackwardsRejects(c: Clock, r: Rates, things: map<string, Thing>, s: Settings,
                              previous: int, now: int, callback: nat -> Reply)
    requires s.display && now < previous
    ensures Iterated(c, r, things, s, Some(previous), now, callback).decision == Reject(Assertion(ReverseTimeTravel))
    ensures Iterated(c, r, things, s, Some(previous), now, callback).run.events == []
  {
    var d := TimeDiff(Some(previous), now, s.maxStep);
    assert Elapsed(Some(previous), now) < 0;
    if d != Finite(Elapsed(Some(previous), now) as real) {
      assert Greater(Finite(Elapsed(Some(previous), now) as real), s.maxStep);
      assert d.NaN? || d.NegInf? || (d.Finite? && d.value < 0.0);
    }
  }

  /** On screen with a maximum that is not negative, the first call steps by nothing. */
  lemma FirstDisplayCall(s: Settings, now: int)
    requires s.display && (s.maxStep.PosInf? || (s.maxStep.Finite? && s.maxStep.value >= 0.0))
    ensures StepArgument(s, None, now) == Finite(0.0)
  {
  }

  /** A negative `maxStepMilliseconds` passes the `simulate` check, but in batch mode the
      first call already throws. */
  lemma NegativeBatchMaximumRejects(r: Rates, things: map<string, Thing>, m: real, callbacks: nat -> nat -> Reply,
                                    c: Clock, prevTime: Option<int>, nows: seq<int>)
    requires m < 0.0 && nows != []
    ensures var ses := Sessioned(Calls(r, things, Settings(false, Finite(m)), callbacks), c, prevTime, nows, 0);
      ses.iterations == 1 && ses.decision == Reject(Assertion(ReverseTimeTravel)) && ses.events == []
  {
    var s := Settings(false, Finite(m));
    var it := Calls(r, things, s, callbacks)(c, prevTime, nows[0], 0);
    assert it == Iterated(c, r, things, s, prevTime, nows[0], callbacks(0));
    assert it.run == Run(c, [], Err(Assertion(ReverseTimeTravel)));
  }

  /** `simulate` up to the first `iterate`: `makeWorld(thingsDescription, options.sim)`,
      `options.graphics || {}`, the browser check for display mode, then the
      `maxStepMilliseconds` check. */
  function Setup(thingsDescription: Value, options: Value, inBrowser: bool,
                 parse: string -> Option<Value>): (r: Result<((Editor, Rates), Settings), Fault>)
    ensures !Readable(options) ==> r == Err(TypeError)
    ensures Readable(options) && Made(thingsDescription, Get(options, "sim"), parse).Err?
            ==> r == Err(Made(thingsDescription, Get(options, "sim"), parse).error)
    ensures r.Ok? <==> && Readable(options) && Made(thingsDescription, Get(options, "sim"), parse).Ok?
                       && (Get(GraphicsOf(options), "display") == Bool(true) ==> inBrowser)
                       && IsNumber(Get(Get(options, "sim"), "maxStepMilliseconds"))
    ensures r.Ok? ==> && r.value.0 == Made(thingsDescription, Get(options, "sim"), parse).value
                      && r.value.1.display == (Get(GraphicsOf(options), "display") == Bool(true))
                      && Num(r.value.1.maxStep) == Get(Get(options, "sim"), "maxStepMilliseconds")
                      && !r.value.1.maxStep.NaN?
  {
    if !Readable(options) then Err(TypeError)
    else
      var sim := Get(options, "sim");
      var made :- Made(thingsDescription, sim, parse);
      var display := Get(GraphicsOf(options), "display") == Bool(true);
      if display && !inBrowser then Err(Assertion(DisplayNeedsBrowser))
      else
        var maxStep := Get(sim, "maxStepMilliseconds");
        if !IsNumber(maxStep) then Err(Assertion(MaxStepNotNumber))
        else Ok((made, Settings(display, maxStep.n)))
  }

  /** `options.graphics || {}`. */
  function GraphicsOf(options: Value): Value
  {
    var g := Get(options, "graphics");
    if Truthy(g) then g else Obj(map[])
  }

  /** The `iterate` closure's state: the world, the options it reads and `prevTime`. */
  class Driver {
    const world: World
    const settings: Settings
    var prevTime: Option<int>

    ghost predicate Valid()
      reads this, world, world.backend
    {
      world.Valid()
    }

    constructor (world: World, settings: Settings)
      requires world.Valid()
      ensures this.world == world && this.settings == settings && prevTime == None
      ensures Valid()
    {
      this.world := world;
      this.settings := settings;
      prevTime := None;
    }

    /** One `iterate(resolve, reject)` call at clock reading `now`; on screen `prevTime`
        moves to `now` even when `step` threw. */
    method Iterate(now: int, callback: nat -> Reply) returns (decision: Decision)
      requires Valid()
      modifies this, world, world.backend
      ensures var it := Iterated(old(world.Clock()), world.rates, world.things, settings, old(prevTime), now, callback);
        && world.Clock() == it.run.clock
        && world.backend.trace == old(world.backend.trace) + it.run.events
        && prevTime == it.prevTime
        && decision == it.decision
      ensures Valid()
    {
      var timeDiff: Number;
      if settings.display {
        var previous := if prevTime.None? then now else prevTime.value;
        timeDiff := Finite((now - previous) as real);
        if Greater(timeDiff, settings.maxStep) {
          timeDiff := settings.maxStep;
        }
      } else {
        timeDiff := settings.maxStep;
      }
      var result := world.Step(Num(timeDiff), callback);
      if settings.display {
        prevTime := Some(now);
      }
      decision := Decide(result);
    }

    /** The `k`-th call of a session, as the session's rule says. */
    method Call(now: int, callbacks: nat -> nat -> Reply, k: nat) returns (decision: Decision)
      requires Valid()
      modifies this, world, world.backend
      ensures var it := Calls(world.rates, world.things, settings, callbacks)(old(world.Clock()), old(prevTime), now, k);
        && world.Clock() == it.run.clock
        && world.backend.trace == old(world.backend.trace) + it.run.events
        && prevTime == it.prevTime
        && decision == it.decision
      ensures Valid()
    {
      decision := Iterate(now, callbacks(k));
    }

    /** `iterate` calling itself again while the decision is `Continue`, fed the readings
        `nows` and the callbacks `callbacks(0)`, `callbacks(1)`, …. */
    method RunSession(nows: seq<int>, callbacks: nat -> nat -> Reply) returns (decision: Decision, iterations: nat)
      requires Valid()
      modifies this, world, world.backend
      ensures var ses := Sessioned(Calls(world.rates, world.things, settings, callbacks), old(world.Clock()), old(prevTime), nows, 0);
        && world.Clock() == ses.clock
        && world.backend.trace == old(world.backend.trace) + ses.events
        && prevTime == ses.prevTime
        && decision == ses.decision
        && iterations == ses.iterations
      ensures Valid()
    {
      ghost var rule := Calls(world.rates, world.things, settings, callbacks);
      ghost var target := Sessioned(rule, world.Clock(), prevTime, nows, 0);
      ghost var events: seq<Event> := [];
      ghost var start := world.backend.trace;
      decision := Continue;
      iterations := 0;
      while decision.Continue? && iterations < |nows|
        invariant iterations <= |nows|
        invariant Valid()
        invariant world.backend.trace == start + events
        invariant decision.Continue? ==>
          target == Joined(events, iterations, Sessioned(rule, world.Clock(), prevTime, nows[iterations..], iterations))
        invariant !decision.Continue? ==> target == Session(world.Clock(), events, prevTime, decision, iterations)
      {
        ghost var made;
        decision, made := Resume(nows, callbacks, iterations, target, events);
        Appended(start, events, made);
        events := events + made;
        iterations := iterations + 1;
      }
      if decision.Continue? {
        assert nows[iterations..] == [];
        assert events + [] == events;
      }
    }

    /** The call after `i` calls of a session that `target` follows made `events`. */
    method Resume(nows: seq<int>, callbacks: nat -> nat -> Reply, i: nat, ghost target: Session, ghost events: seq<Event>)
      returns (decision: Decision, ghost made: seq<Event>)
      requires Valid() && i < |nows|
      requires target == Joined(events, i, Sessioned(Calls(world.rates, world.things, settings, callbacks),
                                                     world.Clock(), prevTime, nows[i..], i))
      modifies this, world, world.backend
      ensures Valid()
      ensures world.backend.trace == old(world.backend.trace) + made
      ensures decision.Continue? ==>
        target == Joined(events + made, i + 1, Sessioned(Calls(world.rates, world.things, settings, callbacks),
                                                  world.Clock(), prevTime, nows[i + 1..], i + 1))
      ensures !decision.Continue? ==> target == Session(world.Clock(), events + made, prevTime, decision, i + 1)
    {
      ghost var rule := Calls(world.rates, world.things, settings, callbacks);
      ghost var it := rule(world.Clock(), prevTime, nows[i], i);
      assert nows[i..][0] == nows[i];
      assert nows[i..][1..] == nows[i + 1..];
      SessionStep(rule, target, events, i, world.Clock(), prevTime, nows[i..], it);
      decision := Call(nows[i], callbacks, i);
      made := it.run.events;
    }
  }

  /** `simulate(thingsDescription, colorsDescription, interactionCallback, options)` up to
      the first `iterate`. */
  method StartSimulation(thingsDescription: Value, options: Value, inBrowser: bool,
                         parse: string -> Option<Value>) returns (r: Result<Driver, Fault>)
    ensures match Setup(thingsDescription, options, inBrowser, parse)
      case Err(f) => r == Err(f)
      case Ok(s) => && r.Ok? && fresh(r.value) && fresh(r.value.world) && fresh(r.value.world.backend)
                    && r.value.Valid() && r.value.prevTime == None && r.value.settings == s.1
                    && r.value.world.backend.trace == s.0.0.trace && r.value.world.things == s.0.0.things
                    && r.value.world.rates == s.0.1 && r.value.world.Clock() == Clock(0.0, 0.0)
  {
    if !Readable(options) {
      return Err(TypeError);
    }
    var sim := Get(options, "sim");
    var made := MakeWorld(thingsDescription, sim, parse);
    if made.Err? {
      return Err(made.error);
    }
    var display := Get(GraphicsOf(options), "display") == Bool(true);
    if display && !inBrowser {
      return Err(Assertion(DisplayNeedsBrowser));
    }
    var maxStep := Get(sim, "maxStepMilliseconds");
    if !IsNumber(maxStep) {
      return Err(Assertion(MaxStepNotNumber));
    }
    var driver := new Driver(made.value, Settings(display, maxStep.n));
    return Ok(driver);
  }
}
