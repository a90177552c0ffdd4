// What pausing achieves for the whole pipeline. The header promises that it "stops pipeline at start" and lets the
// data under way flow to the end (src/Pipeline/Pipeline.h); do_work restarts the timer without a look at the pause
// (src/Pipeline/TimedWorkWrapper.h), so that holds for a pause between ticks and fails for one during a tick.
module PauseProperties {
  import opened Common
  import opened TimedWork
  import opened PipelineRuns
  import opened PipelineProperties

  // A tick has been handed to the strand, or its work goes on.
  predicate TickUnderWay(p: Pump) {
    p.running || Fired in p.handlers
  }

  predicate CanBePaused(s: System) {
    s.stages != [] && s.pump.started && !s.pump.paused
  }

  function Paused(s: System): System
    requires CanBePaused(s)
  {
    Step(s, Timer(Toggle))
  }

  // ---- A living pump makes another frame ----

  // The next step towards a new frame ...
  function NextFor(s: System): Event
    requires s.stages != [] && Alive(s.pump)
  {
    var p := s.pump;
    if p.running then
      match s.stages[0].phase
      case Idle => Timer(Finish)
      case Working(_) => Work(0)
      case Worked(_) => Report(0)
      case Reported(_) => HandOn(0)
    else if Fired in p.handlers then Timer(Dispatch)
    else if p.expiry <= p.clock then Timer(Expire)
    else Timer(Tick(p.expiry - p.clock))
  }

  function PhaseLeft(phase: Phase): nat {
    match phase
    case Idle => 0
    case Working(_) => 3
    case Worked(_) => 2
    case Reported(_) => 1
  }

  // ... and how far it is.
  function Distance(s: System): nat
    requires s.stages != []
  {
    var p := s.pump;
    if p.running then |p.handlers| + p.armed + 4 + PhaseLeft(s.stages[0].phase)
    else if Fired in p.handlers then |p.handlers|
    else |p.handlers| + if p.expiry <= p.clock then 2 else 3
  }

  lemma NextStepIsNearer(s: System)
    requires Inv(s) && Alive(s.pump)
    ensures var e := NextFor(s);
            && Enabled(s, e) && !WakesPump(e)
            && Step(s, e).stages != [] && Step(s, e).pump.paused == s.pump.paused
            && (if e == Timer(Dispatch) && s.pump.handlers[0] == Fired
                then Step(s, e).produced == s.produced + 1 && Step(s, e).pump.running
                else Step(s, e).produced == s.produced && Distance(Step(s, e)) < Distance(s))
  {
    if NextFor(s) == Timer(Expire) {
      assert Step(s, Timer(Expire)).pump.handlers[|s.pump.handlers|] == Fired;
    }
  }

  lemma UndisturbedStep(s: System, e: Event)
    requires Enabled(s, e) && !WakesPump(e) && Alive(s.pump)
    ensures Alive(Step(s, e).pump) && Step(s, e).pump.paused == s.pump.paused
  {
    if e.Timer? {
      AliveStep(s.pump, e.e);
    }
  }

  lemma {:induction false} StaysAlive(s: System, events: seq<Event>)
    requires Runs(s, events) && Undisturbed(events) && Alive(s.pump)
    ensures Alive(After(s, events).pump) && After(s, events).pump.paused == s.pump.paused
    decreases |events|
  {
    if events != [] {
      UndisturbedStep(s, events[0]);
      StaysAlive(Step(s, events[0]), events[1..]);
    }
  }

  lemma {:induction false} AnotherFrame(s: System) returns (events: seq<Event>)
    requires Inv(s) && Alive(s.pump)
    ensures Runs(s, events) && Undisturbed(events)
    ensures After(s, events).produced == s.produced + 1 && After(s, events).pump.running
    decreases Distance(s)
  {
    var e := NextFor(s);
    NextStepIsNearer(s);
    StepKeepsInv(s, e);
    UndisturbedStep(s, e);
    var more := [];
    if Step(s, e).produced == s.produced {
      more := AnotherFrame(Step(s, e));
    }
    events := [e] + more;
    assert events[1..] == more;
  }

  lemma {:induction false} MoreFrames(s: System, n: nat) returns (events: seq<Event>)
    requires Inv(s) && Alive(s.pump)
    ensures Runs(s, events) && Undisturbed(events) && After(s, events).produced == s.produced + n
    decreases n
  {
    if n == 0 {
      events := [];
    } else {
      var first := AnotherFrame(s);
      RunsKeepInv(s, first);
      StaysAlive(s, first);
      var more := MoreFrames(After(s, first), n - 1);
      RunsAppend(s, first, more);
      events := first + more;
    }
  }

  // ---- When a pause works ----

  // A pause keeps the camera from making any further frame until the next toggle exactly when no tick was under
  // way.
  lemma PauseStopsIff(s: System)
    requires Inv(s) && CanBePaused(s)
    ensures !TickUnderWay(s.pump) <==>
            forall events :: Runs(Paused(s), events) && Undisturbed(events)
                             ==> After(Paused(s), events).produced == s.produced
  {
    var t := Paused(s);
    PauseSilencesIff(s.pump);
    StepKeepsInv(s, Timer(Toggle));
    if TickUnderWay(s.pump) {
      var events := AnotherFrame(t);
    } else {
      forall events | Runs(t, events) && Undisturbed(events) ensures After(t, events).produced == s.produced {
        SilentPumpDrains(t, events);
      }
    }
  }

  // Paused between ticks, the data under way flows to the end of the pipeline: no frame is made, every step of an
  // element is one of those left, one can be made as long as any is left, and when none is left the last element
  // has finished every frame made before the pause.
  lemma PausedBetweenTicks(s: System, events: seq<Event>)
    requires Inv(s) && CanBePaused(s) && !TickUnderWay(s.pump)
    requires Runs(Paused(s), events) && Undisturbed(events)
    ensures var t := After(Paused(s), events);
            && t.produced == s.produced && t.stages != [] && StageSteps(events) <= WorkLeft(s.stages)
            && (StageSteps(events) < WorkLeft(s.stages) ==> exists e :: StageEnabled(t.stages, e))
            && (StageSteps(events) == WorkLeft(s.stages) ==> t.stages[|t.stages| - 1].done == Range(0, s.produced))
  {
    PauseSilencesIff(s.pump);
    StepKeepsInv(s, Timer(Toggle));
    SilentPumpDrains(Paused(s), events);
    SilentPipelineFinishes(Paused(s), events);
  }

  // Paused during a tick, the pump never falls silent before the next toggle, and any number of frames can follow.
  lemma PausedDuringTick(s: System, events: seq<Event>, n: nat) returns (more: seq<Event>)
    requires Inv(s) && CanBePaused(s) && TickUnderWay(s.pump)
    requires Runs(Paused(s), events) && Undisturbed(events)
    ensures var t := After(Paused(s), events);
            && t.pump.paused && !PumpSilent(t.pump)
            && Runs(t, more) && Undisturbed(more) && After(t, more).produced == t.produced + n
  {
    PauseSilencesIff(s.pump);
    StepKeepsInv(s, Timer(Toggle));
    StaysAlive(Paused(s), events);
    RunsKeepInv(Paused(s), events);
    more := MoreFrames(After(Paused(s), events), n);
  }

  // This happens: every pipeline has a run that is started, paused once and then makes n more frames.
  lemma PipelineCanIgnorePause(elements: nat, milliseconds: nat, n: nat) returns (before: seq<Event>, after: seq<Event>)
    requires elements > 0
    ensures Undisturbed(before) && Undisturbed(after)
    ensures var s, events := Initial(elements, milliseconds), [Timer(Start)] + before + [Timer(Toggle)];
            && Runs(s, events) && After(s, events).pump.paused
            && Runs(After(s, events), after) && After(After(s, events), after).produced == After(s, events).produced + n
  {
    var s := Initial(elements, milliseconds);
    var s1 := Step(s, Timer(Start));
    InitialInv(elements, milliseconds);
    StepKeepsInv(s, Timer(Start));
    before := AnotherFrame(s1);
    RunsKeepInv(s1, before);
    StaysAlive(s1, before);
    var s2 := After(s1, before);
    KeepsStarted(s1, before);
    assert Runs(s, [Timer(Start)]) && After(s, [Timer(Start)]) == s1 by {
      assert [Timer(Start)][1..] == [];
    }
    RunsAppend(s, [Timer(Start)], before);
    assert Runs(s2, [Timer(Toggle)]) && After(s2, [Timer(Toggle)]) == Paused(s2) by {
      assert [Timer(Toggle)][1..] == [];
    }
    RunsAppend(s, [Timer(Start)] + before, [Timer(Toggle)]);
    after := PausedDuringTick(s2, [], n);
  }

  lemma {:induction false} KeepsStarted(s: System, events: seq<Event>)
    requires Runs(s, events) && s.pump.started
    ensures After(s, events).pump.started
    decreases |events|
  {
    if events != [] {
      assert Step(s, events[0]).pump.started;
      KeepsStarted(Step(s, events[0]), events[1..]);
    }
  }
}
