// When the pump ticks, read off the events of a run alone (src/Pipeline/TimedWorkWrapper.h): which interval is in
// force, where each deadline lies, and what becomes of every wait.
module TimerSchedule {
  import opened TimedWork
  import opened PipelineRuns

  // ---- What the events say ----

  // The interval last set, or else the one there was.
  function IntervalAfter(interval: nat, events: seq<PumpEvent>): nat
    decreases |events|
  {
    if events == [] then interval
    else IntervalAfter(if events[0].ChangeInterval? then events[0].milliseconds else interval, events[1..])
  }

  // The time that passes.
  function Elapsed(events: seq<PumpEvent>): nat {
    if events == [] then 0 else Elapsed(events[1..]) + if events[0].Tick? then events[0].elapsed else 0
  }

  // The intervals in force at the ends of the work, added up.
  function FinishIntervals(interval: nat, events: seq<PumpEvent>): nat
    decreases |events|
  {
    if events == [] then 0
    else
      var e, rest := events[0], events[1..];
      if e.ChangeInterval? then FinishIntervals(e.milliseconds, rest)
      else FinishIntervals(interval, rest) + if e == Finish then interval else 0
  }

  function Count(x: PumpEvent, events: seq<PumpEvent>): nat {
    if events == [] then 0 else Count(x, events[1..]) + if events[0] == x then 1 else 0
  }

  // async_wait is called at the start, at every resume and at the end of every work.
  function WaitsBegun(paused: bool, events: seq<PumpEvent>): nat
    decreases |events|
  {
    if events == [] then 0
    else
      var e, rest := events[0], events[1..];
      if e == Toggle then WaitsBegun(!paused, rest) + if paused then 1 else 0
      else WaitsBegun(paused, rest) + if e == Start || e == Finish then 1 else 0
  }

  ghost predicate Undisturbed(events: seq<PumpEvent>) {
    Start !in events && Toggle !in events
  }

  // ---- Interval, clock and deadline ----

  lemma {:induction false} IntervalLaw(p: Pump, events: seq<PumpEvent>)
    requires PumpRuns(p, events)
    ensures PumpAfter(p, events).milliseconds == IntervalAfter(p.milliseconds, events)
    decreases |events|
  {
    if events != [] {
      IntervalLaw(PumpStep(p, events[0]), events[1..]);
    }
  }

  lemma {:induction false} ClockLaw(p: Pump, events: seq<PumpEvent>)
    requires PumpRuns(p, events)
    ensures PumpAfter(p, events).clock == p.clock + Elapsed(events)
    decreases |events|
  {
    if events != [] {
      ClockLaw(PumpStep(p, events[0]), events[1..]);
    }
  }

  lemma DeadlineStep(p: Pump, e: PumpEvent)
    requires PumpEnabled(p, e) && e != Start && e != Toggle
    ensures PumpStep(p, e).expiry == p.expiry + if e == Finish then p.milliseconds else 0
    ensures PumpStep(p, e).milliseconds == if e.ChangeInterval? then e.milliseconds else p.milliseconds
  {
  }

  lemma {:induction false} DeadlineLaw(p: Pump, events: seq<PumpEvent>)
    requires PumpRuns(p, events) && Undisturbed(events)
    ensures PumpAfter(p, events).expiry == p.expiry + FinishIntervals(p.milliseconds, events)
    decreases |events|
  {
    if events != [] {
      assert events[0] in events && forall e :: e in events[1..] ==> e in events;
      DeadlineStep(p, events[0]);
      DeadlineLaw(PumpStep(p, events[0]), events[1..]);
    }
  }

  predicate StartsTimer(p: Pump, e: PumpEvent) {
    e == Start || (e == Toggle && p.paused)
  }

  // A start and a resume count from the time they come at, whatever deadline there was.
  lemma StartSetsDeadline(p: Pump, e: PumpEvent)
    requires PumpEnabled(p, e) && StartsTimer(p, e)
    ensures var q := PumpStep(p, e);
            && q.armed == 1 && q.expiry == p.clock + p.milliseconds
            && q.clock == p.clock && q.milliseconds == p.milliseconds
  {
  }

  // In every run of a pump: after a start or resume the deadline is the time of it, plus the interval then in force,
  // plus the intervals in force at the ends of the work since; no other time enters. It is reached when as much
  // time has passed, and not before.
  lemma EveryDeadline(interval: nat, before: seq<PumpEvent>, e: PumpEvent, after: seq<PumpEvent>)
    requires PumpRuns(Created(interval), before)
    requires var p := PumpAfter(Created(interval), before);
             PumpEnabled(p, e) && StartsTimer(p, e) && PumpRuns(PumpStep(p, e), after) && Undisturbed(after)
    ensures var q := PumpAfter(PumpStep(PumpAfter(Created(interval), before), e), after);
            var inForce := IntervalAfter(interval, before);
            var deadline := Elapsed(before) + inForce + FinishIntervals(inForce, after);
            var now := Elapsed(before) + Elapsed(after);
            && q.expiry == deadline && q.clock == now && q.milliseconds == IntervalAfter(inForce, after)
            && (PumpEnabled(q, Expire) <==> q.armed > 0 && deadline <= now)
  {
    var p := PumpAfter(Created(interval), before);
    IntervalLaw(Created(interval), before);
    ClockLaw(Created(interval), before);
    StartSetsDeadline(p, e);
    IntervalLaw(PumpStep(p, e), after);
    ClockLaw(PumpStep(p, e), after);
    DeadlineLaw(PumpStep(p, e), after);
  }

  // ---- Changing the interval ----

  lemma ChangeKeepsRest(p: Pump, milliseconds: nat)
    ensures var q := PumpStep(p, ChangeInterval(milliseconds));
            && q.armed == p.armed && q.expiry == p.expiry && q.handlers == p.handlers && q.running == p.running
            && q.started == p.started && q.paused == p.paused && q.clock == p.clock
  {
  }

  lemma {:induction false} UnchangedInterval(interval: nat, events: seq<PumpEvent>)
    requires forall k :: 0 <= k < |events| ==> !events[k].ChangeInterval?
    ensures IntervalAfter(interval, events) == interval
    decreases |events|
  {
    if events != [] {
      UnchangedInterval(interval, events[1..]);
    }
  }

  // From a change to the next one every start, resume and end of work sets a deadline that interval after the time it
  // counts from; the wait that is armed and its deadline stay as they are.
  lemma ChangedIntervalHolds(p: Pump, milliseconds: nat, events: seq<PumpEvent>, e: PumpEvent)
    requires PumpRuns(PumpStep(p, ChangeInterval(milliseconds)), events)
    requires forall k :: 0 <= k < |events| ==> !events[k].ChangeInterval?
    requires PumpEnabled(PumpAfter(PumpStep(p, ChangeInterval(milliseconds)), events), e)
    ensures var q := PumpAfter(PumpStep(p, ChangeInterval(milliseconds)), events);
            && (StartsTimer(q, e) ==> PumpStep(q, e).expiry == q.clock + milliseconds)
            && (e == Finish ==> PumpStep(q, e).expiry == q.expiry + milliseconds)
  {
    IntervalLaw(PumpStep(p, ChangeInterval(milliseconds)), events);
    UnchangedInterval(milliseconds, events);
  }

  // ---- What becomes of the waits ----

  // Every wait begun is armed, handed over and not yet run, or has been run: none is lost, none is run twice.
  lemma {:induction false} WaitsConserved(p: Pump, events: seq<PumpEvent>)
    requires PumpInv(p) && PumpRuns(p, events)
    ensures var q := PumpAfter(p, events);
            q.armed + |q.handlers| + Count(Dispatch, events) == p.armed + |p.handlers| + WaitsBegun(p.paused, events)
    decreases |events|
  {
    if events != [] {
      PumpStepKeepsInv(p, events[0]);
      WaitsConserved(PumpStep(p, events[0]), events[1..]);
    }
  }

  function Busy(p: Pump): nat {
    if p.running then 1 else 0
  }

  lemma TickStep(p: Pump, e: PumpEvent)
    requires PumpInv(p) && PumpEnabled(p, e)
    ensures var q := PumpStep(p, e);
            CountFired(q.handlers) + Busy(q) + (if e == Finish then 1 else 0)
            == CountFired(p.handlers) + Busy(p) + (if e == Expire then 1 else 0)
  {
    CountAppend(p.handlers, Repeat(Aborted, p.armed));
    CountRepeat(Aborted, p.armed);
    CountAppend(p.handlers, Repeat(Fired, p.armed));
    CountRepeat(Fired, p.armed);
    if e == Dispatch {
      assert p.handlers == [p.handlers[0]] + p.handlers[1..];
      CountAppend([p.handlers[0]], p.handlers[1..]);
    }
  }

  // Every deadline reached is worked once, and nothing else is.
  lemma {:induction false} EveryTickIsWorked(p: Pump, events: seq<PumpEvent>)
    requires PumpInv(p) && PumpRuns(p, events)
    ensures var q := PumpAfter(p, events);
            CountFired(q.handlers) + Busy(q) + Count(Finish, events)
            == CountFired(p.handlers) + Busy(p) + Count(Expire, events)
    decreases |events|
  {
    if events != [] {
      PumpStepKeepsInv(p, events[0]);
      TickStep(p, events[0]);
      EveryTickIsWorked(PumpStep(p, events[0]), events[1..]);
    }
  }

  // ---- The pump within the pipeline ----

  function PumpEvents(events: seq<Event>): seq<PumpEvent> {
    if events == [] then []
    else (if events[0].Timer? then [events[0].e] else []) + PumpEvents(events[1..])
  }

  // Nothing else in the pipeline touches the pump, so all of this holds of the pump in every run of a pipeline.
  lemma {:induction false} PumpOfRun(s: System, events: seq<Event>)
    requires Runs(s, events)
    ensures PumpRuns(s.pump, PumpEvents(events)) && After(s, events).pump == PumpAfter(s.pump, PumpEvents(events))
    decreases |events|
  {
    if events != [] {
      var rest := PumpEvents(events[1..]);
      PumpOfRun(Step(s, events[0]), events[1..]);
      if events[0].Timer? {
        assert ([events[0].e] + rest)[1..] == rest;
      } else {
        assert [] + rest == rest;
      }
    }
  }

  lemma {:induction false} FramesMade(s: System, events: seq<Event>)
    requires Runs(s, events)
    ensures After(s, events).produced + Busy(s.pump)
         == s.produced + Busy(After(s, events).pump) + Count(Finish, PumpEvents(events))
    decreases |events|
  {
    if events != [] {
      var e, t, rest := events[0], Step(s, events[0]), PumpEvents(events[1..]);
      FramesMade(t, events[1..]);
      if e.Timer? {
        assert ([e.e] + rest)[1..] == rest;
      } else {
        assert [] + rest == rest;
      }
    }
  }

  // One frame per deadline reached: in every run of a pipeline the frames made are the deadlines reached, less those
  // whose handler still waits on the strand.
  lemma OneFramePerTick(elements: nat, milliseconds: nat, events: seq<Event>)
    requires elements > 0 && Runs(Initial(elements, milliseconds), events)
    ensures var s := After(Initial(elements, milliseconds), events);
            s.produced + CountFired(s.pump.handlers) == Count(Expire, PumpEvents(events))
  {
    var s := Initial(elements, milliseconds);
    FramesMade(s, events);
    PumpOfRun(s, events);
    EveryTickIsWorked(s.pump, PumpEvents(events));
  }

  // The deadlines of a pipeline that is created with an interval and started.
  lemma PipelineDeadline(elements: nat, interval: nat, before: seq<Event>, e: PumpEvent, after: seq<Event>)
    requires elements > 0 && Runs(Initial(elements, interval), before)
    requires var s := After(Initial(elements, interval), before);
             && Enabled(s, Timer(e)) && StartsTimer(s.pump, e)
             && Runs(Step(s, Timer(e)), after) && Undisturbed(PumpEvents(after))
    ensures var t := After(Step(After(Initial(elements, interval), before), Timer(e)), after);
            var inForce := IntervalAfter(interval, PumpEvents(before));
            t.pump.expiry == Elapsed(PumpEvents(before)) + inForce + FinishIntervals(inForce, PumpEvents(after))
  {
    var s := After(Initial(elements, interval), before);
    PumpOfRun(Initial(elements, interval), before);
    PumpOfRun(Step(s, Timer(e)), after);
    EveryDeadline(interval, PumpEvents(before), e, PumpEvents(after));
  }
}
