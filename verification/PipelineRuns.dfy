// The strand pipeline as a transition system (src/Pipeline/WorkWrapper.h, src/Pipeline/Pipeline.h).
// Every element has a strand: a FIFO queue of which at most one handler runs at a time. do_work is taken apart
// at the points where other threads may come in between: taking the frame, doing the work, emplacing the
// times, handing the frame to the next strand. Frames are numbered in the order the camera makes them.
module PipelineRuns {
  import opened Common
  import opened TimedWork

  type Frame = nat

  datatype Phase = Idle | Working(frame: Frame) | Worked(frame: Frame) | Reported(frame: Frame)

  // An element: what waits on its strand, what its handler is doing, what it has handed on, and the time stats
  // queue, each entry named by the frame it was taken for.
  datatype Stage = Stage(queue: seq<Frame>, phase: Phase, done: seq<Frame>, stats: seq<Frame>)

  const NEW_STAGE := Stage([], Idle, [], [])

  // collect_stats: between collections, at the loop test with its counter, or within a row.
  datatype Collector = Resting | Checking(i: nat) | Popping(i: nat, row: seq<Frame>)

  datatype System = System(
    pump: Pump,
    stages: seq<Stage>,
    produced: nat,              // frames made by the camera element
    collector: Collector,
    rows: seq<seq<Frame>>,      // rows written, each cell named by the entry it was computed from
    fault: bool)                // an empty time stats queue was popped

  datatype Event =
    | Timer(e: PumpEvent)
    | Begin(i: nat) | Work(i: nat) | Report(i: nat) | HandOn(i: nat)
    | CollectStart | CollectCheck | CollectPop

  function Initial(elements: nat, milliseconds: nat): System
    requires elements > 0
  {
    System(Created(milliseconds), Repeat(NEW_STAGE, elements), 0, Resting, [], false)
  }

  // ---- Steps of the elements ----

  predicate StageEnabled(stages: seq<Stage>, e: Event) {
    match e
    case Begin(i) => 1 <= i < |stages| && stages[i].phase == Idle && stages[i].queue != []
    case Work(i) => i < |stages| && stages[i].phase.Working?
    case Report(i) => i < |stages| && stages[i].phase.Worked?
    case HandOn(i) => i < |stages| && stages[i].phase.Reported?
    case _ => false
  }

  function StageStep(stages: seq<Stage>, e: Event): (after: seq<Stage>)
    requires StageEnabled(stages, e)
    ensures |after| == |stages|
  {
    var s := stages[e.i];
    match e
    case Begin(i) => stages[i := s.(queue := s.queue[1..], phase := Working(s.queue[0]))]
    case Work(i) => stages[i := s.(phase := Worked(s.phase.frame))]
    case Report(i) => stages[i := s.(phase := Reported(s.phase.frame), stats := s.stats + [s.phase.frame])]
    case HandOn(i) =>
      var left := stages[i := s.(phase := Idle, done := s.done + [s.phase.frame])];
      if i + 1 == |stages| then left
      else left[i + 1 := left[i + 1].(queue := left[i + 1].queue + [s.phase.frame])]
  }

  // do_work on the frame that element i has taken, with nothing in between.
  function DoWorkSteps(stages: seq<Stage>, i: nat): seq<Stage>
    requires i < |stages| && stages[i].phase.Working?
  {
    StageStep(StageStep(StageStep(stages, Work(i)), Report(i)), HandOn(i))
  }

  // ---- Steps of the whole ----

  predicate Enabled(s: System, e: Event) {
    match e
    case Timer(pe) => PumpEnabled(s.pump, pe) && s.stages != [] && (pe == Finish ==> s.stages[0].phase == Idle)
    case CollectStart => s.collector == Resting && s.pump.started
    case CollectCheck => s.collector.Checking? && s.stages != []
    case CollectPop => s.collector.Popping? && |s.collector.row| < |s.stages|
    case _ => StageEnabled(s.stages, e)
  }

  function Step(s: System, e: Event): System
    requires Enabled(s, e)
  {
    match e
    case Timer(pe) =>
      var t := s.(pump := PumpStep(s.pump, pe));
      // A fired handler calls do_work of the first element, which makes a new frame.
      if pe == Dispatch && t.pump.running then
        t.(stages := s.stages[0 := s.stages[0].(phase := Working(s.produced))], produced := s.produced + 1)
      else t
    case CollectStart => s.(collector := Checking(0))
    case CollectCheck =>
      var i := s.collector.i;
      s.(collector := if i < |s.stages[|s.stages| - 1].stats| then Popping(i, []) else Resting)
    case CollectPop =>
      var Popping(i, row) := s.collector;
      var k := |row|;
      var stage := s.stages[k];
      if stage.stats == [] then s.(fault := true)
      else
        var longer := row + [stage.stats[0]];
        var t := s.(stages := s.stages[k := stage.(stats := stage.stats[1..])]);
        if |longer| == |s.stages| then t.(collector := Checking(i + 1), rows := s.rows + [longer])
        else t.(collector := Popping(i, longer))
    case _ => s.(stages := StageStep(s.stages, e))
  }

  predicate Runs(s: System, events: seq<Event>)
    decreases |events|
  {
    events == [] || (Enabled(s, events[0]) && Runs(Step(s, events[0]), events[1..]))
  }

  function After(s: System, events: seq<Event>): System
    requires Runs(s, events)
    decreases |events|
  {
    if events == [] then s else After(Step(s, events[0]), events[1..])
  }

  lemma {:induction false} RunsAppend(s: System, a: seq<Event>, b: seq<Event>)
    requires Runs(s, a)
    ensures Runs(s, a + b) <==> Runs(After(s, a), b)
    ensures Runs(s, a + b) ==> After(s, a + b) == After(After(s, a), b)
    decreases |a|
  {
    if a == [] {
      assert a + b == b;
    } else {
      assert (a + b)[1..] == a[1..] + b;
      RunsAppend(Step(s, a[0]), a[1..], b);
    }
  }

  // ---- The invariant ----

  function InFlight(s: Stage): seq<Frame> {
    if s.phase == Idle then [] else [s.phase.frame]
  }

  // How many entries the element has put into its time stats queue so far.
  function Emplaced(s: Stage): nat {
    |s.done| + if s.phase.Reported? then 1 else 0
  }

  // An element that received the frames below `received`, from whose stats queue `popped` entries were taken.
  ghost predicate StageInv(s: Stage, received: nat, popped: nat) {
    var d, begun := |s.done|, |s.done| + |InFlight(s)|;
    && s.done == Range(0, d)
    && (s.phase != Idle ==> s.phase.frame == d)
    && begun <= received && s.queue == Range(begun, received)
    && popped <= Emplaced(s) && s.stats == Range(popped, Emplaced(s))
  }

  function Received(s: System, i: nat): nat
    requires i < |s.stages|
  {
    if i == 0 then s.produced else |s.stages[i - 1].done|
  }

  function Popped(s: System, i: nat): nat {
    |s.rows| + if s.collector.Popping? && i < |s.collector.row| then 1 else 0
  }

  ghost predicate StageOk(s: System, i: nat)
    requires i < |s.stages|
  {
    StageInv(s.stages[i], Received(s, i), Popped(s, i))
  }

  ghost predicate RowsAligned(s: System) {
    && (forall r :: 0 <= r < |s.rows| ==> s.rows[r] == Repeat(r, |s.stages|))
    && (s.collector.Popping? ==>
          && |s.collector.row| < |s.stages| && s.collector.row == Repeat(|s.rows|, |s.collector.row|)
          && |s.rows| < Emplaced(s.stages[|s.stages| - 1]))
  }

  ghost predicate Inv(s: System) {
    && PumpInv(s.pump)
    && s.stages != [] && s.stages[0].queue == []
    && (s.stages[0].phase != Idle ==> s.pump.running)
    && (forall i :: 0 <= i < |s.stages| ==> StageOk(s, i))
    && RowsAligned(s)
    && !s.fault
  }

  // ---- One element at a time ----

  lemma BeginKeeps(s: Stage, received: nat, popped: nat)
    requires StageInv(s, received, popped) && s.phase == Idle && s.queue != []
    ensures StageInv(s.(queue := s.queue[1..], phase := Working(s.queue[0])), received, popped)
  {
  }

  lemma ReportKeeps(s: Stage, received: nat, popped: nat)
    requires StageInv(s, received, popped) && s.phase.Worked?
    ensures StageInv(s.(phase := Reported(s.phase.frame), stats := s.stats + [s.phase.frame]), received, popped)
  {
  }

  lemma HandOnKeeps(s: Stage, received: nat, popped: nat)
    requires StageInv(s, received, popped) && s.phase.Reported?
    ensures s.phase.frame == |s.done|
    ensures StageInv(s.(phase := Idle, done := s.done + [s.phase.frame]), received, popped)
  {
  }

  lemma ReceiveKeeps(s: Stage, received: nat, popped: nat)
    requires StageInv(s, received, popped)
    ensures StageInv(s.(queue := s.queue + [received]), received + 1, popped)
  {
  }

  lemma PopKeeps(s: Stage, received: nat, popped: nat)
    requires StageInv(s, received, popped) && popped < Emplaced(s)
    ensures s.stats != [] && s.stats[0] == popped
    ensures StageInv(s.(stats := s.stats[1..]), received, popped + 1)
  {
  }

  lemma EmplacedBounds(s: Stage, received: nat, popped: nat)
    requires StageInv(s, received, popped)
    ensures |s.done| <= Emplaced(s) <= received && popped <= Emplaced(s) && |s.stats| == Emplaced(s) - popped
  {
  }

  // Elements further down have emplaced no more entries.
  lemma {:induction false} EmplacedFalls(s: System, i: nat, j: nat)
    requires i <= j < |s.stages| && forall k :: 0 <= k < |s.stages| ==> StageOk(s, k)
    ensures Emplaced(s.stages[i]) >= Emplaced(s.stages[j])
    decreases j
  {
    if i < j {
      assert StageOk(s, j) && StageOk(s, j - 1);
      EmplacedBounds(s.stages[j], Received(s, j), Popped(s, j));
      EmplacedBounds(s.stages[j - 1], Received(s, j - 1), Popped(s, j - 1));
      EmplacedFalls(s, i, j - 1);
    }
  }

  // ---- One step at a time ----

  lemma InnerStepAt(s: System, e: Event)
    requires Inv(s) && StageEnabled(s.stages, e) && !e.HandOn?
    ensures var t, i := Step(s, e).stages[e.i], e.i;
            StageInv(t, Received(s, i), Popped(s, i)) && t.done == s.stages[i].done
  {
    var i := e.i;
    assert StageOk(s, i);
    if e.Begin? {
      BeginKeeps(s.stages[i], Received(s, i), Popped(s, i));
    } else if e.Report? {
      ReportKeeps(s.stages[i], Received(s, i), Popped(s, i));
    }
  }

  lemma InnerStepKeepsStage(s: System, e: Event, k: nat)
    requires Inv(s) && StageEnabled(s.stages, e) && !e.HandOn? && k < |s.stages|
    ensures StageOk(Step(s, e), k)
  {
    var t := Step(s, e);
    InnerStepAt(s, e);
    assert StageOk(s, k);
    assert k != e.i ==> t.stages[k] == s.stages[k];
    assert k > 0 ==> t.stages[k - 1].done == s.stages[k - 1].done;
  }

  lemma HandOnAt(s: System, i: nat)
    requires Inv(s) && StageEnabled(s.stages, HandOn(i))
    ensures var t := Step(s, HandOn(i)).stages;
            && s.stages[i].phase.frame == |s.stages[i].done|
            && t[i].done == s.stages[i].done + [|s.stages[i].done|]
            && StageInv(t[i], Received(s, i), Popped(s, i))
            && (i + 1 < |t| ==> t[i + 1].done == s.stages[i + 1].done
                                && StageInv(t[i + 1], Received(s, i + 1) + 1, Popped(s, i + 1)))
  {
    assert StageOk(s, i);
    HandOnKeeps(s.stages[i], Received(s, i), Popped(s, i));
    if i + 1 < |s.stages| {
      assert StageOk(s, i + 1);
      ReceiveKeeps(s.stages[i + 1], Received(s, i + 1), Popped(s, i + 1));
    }
  }

  lemma HandOnKeepsStage(s: System, i: nat, k: nat)
    requires Inv(s) && StageEnabled(s.stages, HandOn(i)) && k < |s.stages|
    ensures StageOk(Step(s, HandOn(i)), k)
  {
    var t := Step(s, HandOn(i));
    HandOnAt(s, i);
    assert StageOk(s, k);
    assert k != i && k != i + 1 ==> t.stages[k] == s.stages[k];
    assert Popped(t, k) == Popped(s, k);
    assert k > 0 && k - 1 != i ==> t.stages[k - 1].done == s.stages[k - 1].done;
  }

  lemma StageStepKeepsInv(s: System, e: Event)
    requires Inv(s) && StageEnabled(s.stages, e)
    ensures Inv(Step(s, e))
  {
    var t, n := Step(s, e), |s.stages|;
    forall k | 0 <= k < n ensures StageOk(t, k) {
      if e.HandOn? {
        HandOnKeepsStage(s, e.i, k);
      } else {
        InnerStepKeepsStage(s, e, k);
      }
    }
    assert Emplaced(t.stages[n - 1]) >= Emplaced(s.stages[n - 1]);
  }

  lemma TimerStepKeepsInv(s: System, pe: PumpEvent)
    requires Inv(s) && Enabled(s, Timer(pe))
    ensures Inv(Step(s, Timer(pe)))
  {
    PumpStepKeepsInv(s.pump, pe);
    var t := Step(s, Timer(pe));
    assert StageOk(s, 0);
    assert pe != Finish && pe != Dispatch ==> t.pump.running == s.pump.running;
    assert t.stages[0].done == s.stages[0].done;
    forall k | 0 <= k < |s.stages| ensures StageOk(t, k) {
      assert StageOk(s, k);
      assert Popped(t, k) == Popped(s, k);
      assert k > 0 ==> Received(t, k) == Received(s, k);
    }
  }

  lemma CheckKeepsInv(s: System, e: Event)
    requires Inv(s) && Enabled(s, e) && (e == CollectStart || e == CollectCheck)
    ensures Inv(Step(s, e))
  {
    var t, n := Step(s, e), |s.stages|;
    assert StageOk(s, n - 1);
    EmplacedBounds(s.stages[n - 1], Received(s, n - 1), Popped(s, n - 1));
    forall k | 0 <= k < n ensures StageOk(t, k) {
      assert StageOk(s, k);
    }
  }

  // What is popped is the entry of the row's frame.
  lemma PopEntry(s: System)
    requires Inv(s) && Enabled(s, CollectPop)
    ensures var k := |s.collector.row|; var stage := s.stages[k];
            && stage.stats != [] && stage.stats[0] == |s.rows|
            && StageInv(stage.(stats := stage.stats[1..]), Received(s, k), |s.rows| + 1)
  {
    var k := |s.collector.row|;
    assert StageOk(s, k);
    EmplacedFalls(s, k, |s.stages| - 1);
    PopKeeps(s.stages[k], Received(s, k), Popped(s, k));
  }

  lemma PopKeepsStage(s: System, j: nat)
    requires Inv(s) && Enabled(s, CollectPop) && j < |s.stages|
    ensures StageOk(Step(s, CollectPop), j)
  {
    var t, k := Step(s, CollectPop), |s.collector.row|;
    PopEntry(s);
    assert StageOk(s, j);
    assert j != k ==> t.stages[j] == s.stages[j];
    assert j > 0 ==> t.stages[j - 1].done == s.stages[j - 1].done;
    assert Popped(t, j) == if j == k then |s.rows| + 1 else Popped(s, j);
  }

  lemma PopKeepsRows(s: System)
    requires Inv(s) && Enabled(s, CollectPop)
    ensures RowsAligned(Step(s, CollectPop)) && !Step(s, CollectPop).fault
  {
    var t, k, n := Step(s, CollectPop), |s.collector.row|, |s.stages|;
    PopEntry(s);
    assert s.collector.row + [|s.rows|] == Repeat(|s.rows|, k + 1);
    assert Emplaced(t.stages[n - 1]) == Emplaced(s.stages[n - 1]);
  }

  lemma PopKeepsInv(s: System)
    requires Inv(s) && Enabled(s, CollectPop)
    ensures Inv(Step(s, CollectPop))
  {
    var t := Step(s, CollectPop);
    PopKeepsRows(s);
    forall j | 0 <= j < |s.stages| ensures StageOk(t, j) {
      PopKeepsStage(s, j);
    }
    PopEntry(s);
  }

  lemma StepKeepsInv(s: System, e: Event)
    requires Inv(s) && Enabled(s, e)
    ensures Inv(Step(s, e))
  {
    match e
    case Timer(pe) => TimerStepKeepsInv(s, pe);
    case CollectStart => CheckKeepsInv(s, e);
    case CollectCheck => CheckKeepsInv(s, e);
    case CollectPop => PopKeepsInv(s);
    case _ => StageStepKeepsInv(s, e);
  }

  lemma InitialInv(elements: nat, milliseconds: nat)
    requires elements > 0
    ensures Inv(Initial(elements, milliseconds))
  {
  }

  lemma {:induction false} RunsKeepInv(s: System, events: seq<Event>)
    requires Inv(s) && Runs(s, events)
    ensures Inv(After(s, events))
    decreases |events|
  {
    if events != [] {
      StepKeepsInv(s, events[0]);
      RunsKeepInv(Step(s, events[0]), events[1..]);
    }
  }
}
