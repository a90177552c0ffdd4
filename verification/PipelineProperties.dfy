// What the pipeline promises: order and completeness for every number of elements and every interleaving,
// statistics rows about one frame each, and draining once the pump is silent.
module PipelineProperties {
  import opened Common
  import opened TimedWork
  import opened PipelineRuns

  // ---- Order and completeness ----

  // All that element i + 1 ever received, in order: finished, at work, waiting.
  function Taken(s: Stage): seq<Frame> {
    s.done + InFlight(s) + s.queue
  }

  lemma TakenIsRange(s: Stage, received: nat, popped: nat)
    requires StageInv(s, received, popped)
    ensures Taken(s) == Range(0, received) && s.done == Range(0, |s.done|)
  {
  }

  // What an element handed on is what the next one finished, then what it is working on, then what waits for it; and
  // the first element goes through the frames as the camera made them.
  ghost predicate InCameraOrder(s: System) {
    && s.stages != [] && Taken(s.stages[0]) == Range(0, s.produced)
    && (forall i :: 0 <= i < |s.stages| - 1 ==> s.stages[i].done == Taken(s.stages[i + 1]))
    && (forall i :: 0 <= i < |s.stages| ==> s.stages[i].done == Range(0, |s.stages[i].done|))
  }

  lemma InvMeansOrder(s: System)
    requires Inv(s)
    ensures InCameraOrder(s)
  {
    forall i | 0 <= i < |s.stages|
      ensures Taken(s.stages[i]) == Range(0, Received(s, i)) && s.stages[i].done == Range(0, |s.stages[i].done|)
    {
      assert StageOk(s, i);
      TakenIsRange(s.stages[i], Received(s, i), Popped(s, i));
    }
  }

  // So it is in every reachable state, for every number of elements and every interleaving.
  lemma OrderAndCompleteness(elements: nat, milliseconds: nat, events: seq<Event>)
    requires elements > 0 && Runs(Initial(elements, milliseconds), events)
    ensures var s := After(Initial(elements, milliseconds), events);
            |s.stages| == elements && InCameraOrder(s)
  {
    InitialInv(elements, milliseconds);
    RunsKeepInv(Initial(elements, milliseconds), events);
    RunsKeepElements(Initial(elements, milliseconds), events);
    InvMeansOrder(After(Initial(elements, milliseconds), events));
  }

  lemma {:induction false} RunsKeepElements(s: System, events: seq<Event>)
    requires Runs(s, events)
    ensures |After(s, events).stages| == |s.stages|
    decreases |events|
  {
    if events != [] {
      assert |Step(s, events[0]).stages| == |s.stages|;
      RunsKeepElements(Step(s, events[0]), events[1..]);
    }
  }

  // ---- Statistics ----

  // No empty queue has been popped; row r has one cell per element and all are about frame r; and between rows no queue
  // is longer than the one before it.
  ghost predicate StatsInStep(s: System) {
    && !s.fault
    && (forall r :: 0 <= r < |s.rows| ==> s.rows[r] == Repeat(r, |s.stages|))
    && (!s.collector.Popping? ==>
          forall i :: 0 <= i < |s.stages| - 1 ==> |s.stages[i].stats| >= |s.stages[i + 1].stats|)
  }

  lemma InvMeansStats(s: System)
    requires Inv(s)
    ensures StatsInStep(s)
  {
    if !s.collector.Popping? {
      forall i | 0 <= i < |s.stages| - 1 ensures |s.stages[i].stats| >= |s.stages[i + 1].stats| {
        EmplacedFalls(s, i, i + 1);
        assert StageOk(s, i) && StageOk(s, i + 1);
        EmplacedBounds(s.stages[i], Received(s, i), Popped(s, i));
        EmplacedBounds(s.stages[i + 1], Received(s, i + 1), Popped(s, i + 1));
      }
    }
  }

  // So it is in every reachable state, however the elements go on while statistics are collected.
  lemma StatisticsAligned(elements: nat, milliseconds: nat, events: seq<Event>)
    requires elements > 0 && Runs(Initial(elements, milliseconds), events)
    ensures var s := After(Initial(elements, milliseconds), events);
            |s.stages| == elements && StatsInStep(s)
  {
    InitialInv(elements, milliseconds);
    RunsKeepInv(Initial(elements, milliseconds), events);
    RunsKeepElements(Initial(elements, milliseconds), events);
    InvMeansStats(After(Initial(elements, milliseconds), events));
  }

  // ---- Draining ----

  // Steps that the frames of one element still need when `depth` elements, itself included, lie ahead:
  // four per element and frame.
  function StageLeft(s: Stage, depth: nat): int {
    4 * depth * |s.queue| +
    match s.phase
    case Idle => 0
    case Working(_) => 4 * depth - 1
    case Worked(_) => 4 * depth - 2
    case Reported(_) => 4 * depth - 3
  }

  function WorkLeft(stages: seq<Stage>): int {
    if stages == [] then 0 else StageLeft(stages[0], |stages|) + WorkLeft(stages[1..])
  }

  lemma {:induction false} WorkLeftUpdate(stages: seq<Stage>, i: nat, s: Stage)
    requires i < |stages|
    ensures WorkLeft(stages[i := s])
         == WorkLeft(stages) - StageLeft(stages[i], |stages| - i) + StageLeft(s, |stages| - i)
  {
    if i > 0 {
      WorkLeftUpdate(stages[1..], i - 1, s);
      assert stages[i := s][1..] == stages[1..][i - 1 := s];
    } else {
      assert stages[i := s][1..] == stages[1..];
    }
  }

  lemma QueueStep(depth: nat, n: nat)
    ensures 4 * depth * (n + 1) == 4 * depth * n + 4 * depth
  {
  }

  // Each step of an element is one step less to do.
  lemma StageStepLeavesOneLess(stages: seq<Stage>, e: Event)
    requires StageEnabled(stages, e)
    ensures WorkLeft(StageStep(stages, e)) == WorkLeft(stages) - 1
  {
    var i, depth := e.i, |stages| - e.i;
    var s := stages[i];
    match e
    case Begin(_) =>
      QueueStep(depth, |s.queue| - 1);
      WorkLeftUpdate(stages, i, s.(queue := s.queue[1..], phase := Working(s.queue[0])));
    case Work(_) => WorkLeftUpdate(stages, i, s.(phase := Worked(s.phase.frame)));
    case Report(_) =>
      WorkLeftUpdate(stages, i, s.(phase := Reported(s.phase.frame), stats := s.stats + [s.phase.frame]));
    case HandOn(_) =>
      var idle := s.(phase := Idle, done := s.done + [s.phase.frame]);
      WorkLeftUpdate(stages, i, idle);
      if depth > 1 {
        var next := stages[i + 1];
        QueueStep(depth - 1, |next.queue|);
        WorkLeftUpdate(stages[i := idle], i + 1, next.(queue := next.queue + [s.phase.frame]));
      }
  }

  predicate WakesPump(e: Event) {
    e == Timer(Start) || e == Timer(Toggle)
  }

  ghost predicate Undisturbed(events: seq<Event>) {
    forall k :: 0 <= k < |events| ==> !WakesPump(events[k])
  }

  function StageSteps(events: seq<Event>): nat {
    if events == [] then 0
    else
      var e := events[0];
      StageSteps(events[1..]) + if e.Begin? || e.Work? || e.Report? || e.HandOn? then 1 else 0
  }

  lemma SilentStep(s: System, e: Event)
    requires Enabled(s, e) && PumpSilent(s.pump) && !WakesPump(e)
    ensures var t := Step(s, e);
            && PumpSilent(t.pump) && t.produced == s.produced
            && WorkLeft(t.stages) == WorkLeft(s.stages) - StageSteps([e])
  {
    assert StageSteps([e][1..]) == 0;
    if StageEnabled(s.stages, e) {
      StageStepLeavesOneLess(s.stages, e);
    } else if e == CollectPop {
      var k := |s.collector.row|;
      var stage := s.stages[k];
      if stage.stats != [] {
        WorkLeftUpdate(s.stages, k, stage.(stats := stage.stats[1..]));
      }
    } else if e == Timer(Dispatch) {
      assert s.pump.handlers[0] != Fired;
    }
  }

  // While the pump stays silent no frame is added, and every step of an element, in whatever order and with
  // whatever else going on, is one of the steps that were left: the pipeline drains.
  lemma {:induction false} SilentPumpDrains(s: System, events: seq<Event>)
    requires Runs(s, events) && PumpSilent(s.pump) && Undisturbed(events)
    ensures var t := After(s, events);
            && PumpSilent(t.pump) && t.produced == s.produced
            && WorkLeft(t.stages) == WorkLeft(s.stages) - StageSteps(events)
    decreases |events|
  {
    if events != [] {
      SilentStep(s, events[0]);
      SilentPumpDrains(Step(s, events[0]), events[1..]);
      assert StageSteps([events[0]]) + StageSteps(events[1..]) == StageSteps(events);
    }
  }

  // Nothing is at work or waiting.
  predicate AllIdle(stages: seq<Stage>) {
    forall i :: 0 <= i < |stages| ==> stages[i].phase == Idle && stages[i].queue == []
  }

  lemma {:induction false} WorkLeftMeansEnabled(stages: seq<Stage>)
    ensures WorkLeft(stages) >= 0
    ensures WorkLeft(stages) == 0 <==> AllIdle(stages)
  {
    if stages != [] {
      var s, depth := stages[0], |stages|;
      WorkLeftMeansEnabled(stages[1..]);
      assert forall i :: 1 <= i < |stages| ==> stages[i] == stages[1..][i - 1];
      if s.queue != [] {
        assert 4 * depth * |s.queue| >= 4 * depth by {
          QueueStep(depth, |s.queue| - 1);
          assert depth * (|s.queue| - 1) >= 0;
        }
      }
    }
  }

  lemma {:induction false} AllReceived(s: System, i: nat)
    requires Inv(s) && i < |s.stages| && AllIdle(s.stages)
    ensures s.stages[i].done == Range(0, s.produced)
    decreases i
  {
    assert StageOk(s, i);
    if i > 0 {
      AllReceived(s, i - 1);
    }
  }

  // A silent pipeline can make a step as long as anything is left, makes exactly WorkLeft of them, and when none
  // can be made the last element has finished every frame the camera made.
  lemma SilentPipelineFinishes(s: System, events: seq<Event>)
    requires Inv(s) && Runs(s, events) && PumpSilent(s.pump) && Undisturbed(events)
    ensures var t := After(s, events);
            && t.stages != [] && StageSteps(events) <= WorkLeft(s.stages)
            && (StageSteps(events) < WorkLeft(s.stages) ==> exists e :: StageEnabled(t.stages, e))
            && (StageSteps(events) == WorkLeft(s.stages) ==> t.stages[|t.stages| - 1].done == Range(0, s.produced))
  {
    var t := After(s, events);
    SilentPumpDrains(s, events);
    RunsKeepInv(s, events);
    WorkLeftMeansEnabled(t.stages);
    if WorkLeft(t.stages) > 0 {
      var i :| 0 <= i < |t.stages| && !(t.stages[i].phase == Idle && t.stages[i].queue == []);
      var e := match t.stages[i].phase
        case Idle => Begin(i)
        case Working(_) => Work(i)
        case Worked(_) => Report(i)
        case Reported(_) => HandOn(i);
      assert StageEnabled(t.stages, e);
    } else {
      AllReceived(t, |t.stages| - 1);
    }
  }
}
