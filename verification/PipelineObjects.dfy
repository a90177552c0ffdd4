// The objects of the pipeline: WorkWrapper (src/Pipeline/WorkWrapper.h) and Pipeline (src/Pipeline/Pipeline.h).
// Seen between two handlers, a Pipeline object is a state of the transition system of PipelineRuns, and each of its
// methods, each handler and each collection makes a run of that system.
module PipelineObjects {
  import opened Common
  import opened TimedWork
  import opened PipelineRuns
  import opened PipelineProperties
  import opened CollectionProperties

  class WorkWrapper {
    var strand: seq<Frame>          // do_work handlers posted to the strand
    var next: WorkWrapper?          // the element whose schedule_work next_ calls, if any
    const collects: bool            // whether there is a time stats queue
    var timeStats: seq<Frame>
    ghost var done: seq<Frame>
    ghost const position: nat       // its place in the pipeline

    constructor (collects: bool, ghost position: nat)
      ensures Shows(NEW_STAGE) && next == null && this.collects == collects && this.position == position
    {
      strand, next, this.collects, timeStats, done, this.position := [], null, collects, [], [], position;
    }

    // The element between handlers. Without a time stats queue its state still counts the times it would have reported.
    ghost predicate Shows(s: Stage)
      reads this`strand, this`done, this`timeStats
    {
      s.queue == strand && s.phase == Idle && s.done == done && (collects ==> s.stats == timeStats)
    }

    method SetNext(next: WorkWrapper)
      modifies this`next
      ensures this.next == next
    {
      this.next := next;
    }

    method ScheduleWork(data: Frame)
      modifies this`strand
      ensures strand == old(strand) + [data]
    {
      strand := strand + [data];
    }

    method DoWork(data: Frame)
      requires next != this
      modifies this`timeStats, this`done, (if next != null then {next} else {})`strand
      ensures done == old(done) + [data]
      ensures timeStats == if collects then old(timeStats) + [data] else old(timeStats)
      ensures next != null ==> next.strand == old(next.strand) + [data]
    {
      if collects {
        timeStats := timeStats + [data];
      }
      done := done + [data];
      if next != null {
        next.ScheduleWork(data);
      }
    }
  }

  // The strings thrown.
  datatype Thrown = AlreadyCompiled | NotEmpty | NoFirstElement | NotCompiled | NotStarted | AlreadyStarted

  // ---- Handlers as runs ----

  // A handler on the strand of element i, from its start to its end.
  function HandlerEvents(i: nat): seq<Event> {
    [Begin(i), Work(i), Report(i), HandOn(i)]
  }

  // A timer handler on the strand of the first element.
  function TimerEvents(works: bool): seq<Event> {
    if works then [Timer(Dispatch), Work(0), Report(0), HandOn(0), Timer(Finish)] else [Timer(Dispatch)]
  }

  lemma RunsFirst(s: System, e: Event, rest: seq<Event>)
    requires Enabled(s, e) && Runs(Step(s, e), rest)
    ensures Runs(s, [e] + rest) && After(s, [e] + rest) == After(Step(s, e), rest)
  {
    assert ([e] + rest)[1..] == rest;
  }

  lemma DoWorkRuns(s: System, i: nat, rest: seq<Event>)
    requires i < |s.stages| && s.stages[i].phase.Working?
    requires Runs(s.(stages := DoWorkSteps(s.stages, i)), rest)
    ensures var events := [Work(i), Report(i), HandOn(i)] + rest;
            Runs(s, events) && After(s, events) == After(s.(stages := DoWorkSteps(s.stages, i)), rest)
  {
    var worked := Step(s, Work(i));
    var reported := Step(worked, Report(i));
    RunsFirst(reported, HandOn(i), rest);
    RunsFirst(worked, Report(i), [HandOn(i)] + rest);
    RunsFirst(s, Work(i), [Report(i)] + ([HandOn(i)] + rest));
    assert [Work(i)] + ([Report(i)] + ([HandOn(i)] + rest)) == [Work(i), Report(i), HandOn(i)] + rest;
  }

  function HandlerDone(s: System, i: nat): System
    requires StageEnabled(s.stages, Begin(i))
  {
    s.(stages := DoWorkSteps(StageStep(s.stages, Begin(i)), i))
  }

  lemma HandlerRuns(s: System, i: nat)
    requires StageEnabled(s.stages, Begin(i))
    ensures Runs(s, HandlerEvents(i)) && After(s, HandlerEvents(i)) == HandlerDone(s, i)
  {
    DoWorkRuns(Step(s, Begin(i)), i, []);
    RunsFirst(s, Begin(i), [Work(i), Report(i), HandOn(i)] + []);
    assert [Begin(i)] + ([Work(i), Report(i), HandOn(i)] + []) == HandlerEvents(i);
  }

  function FrameTaken(s: System): (stages: seq<Stage>)
    requires s.stages != []
    ensures |stages| == |s.stages| && stages[0].phase == Working(s.produced)
  {
    s.stages[0 := s.stages[0].(phase := Working(s.produced))]
  }

  function FrameMade(s: System): (t: System)
    requires s.stages != []
    ensures t.pump == s.pump && t.produced == s.produced + 1 && t.collector == s.collector && t.fault == s.fault
  {
    s.(produced := s.produced + 1, stages := DoWorkSteps(FrameTaken(s), 0))
  }

  function TickDone(s: System): System
    requires s.stages != [] && PumpEnabled(s.pump, Dispatch)
  {
    if s.pump.handlers[0] == Fired then
      FrameMade(s).(pump := PumpStep(PumpStep(s.pump, Dispatch), Finish))
    else
      s.(pump := PumpStep(s.pump, Dispatch))
  }

  lemma TimerRuns(s: System)
    requires Enabled(s, Timer(Dispatch))
    ensures var works := s.pump.handlers[0] == Fired;
            && Runs(s, TimerEvents(works))
            && After(s, TimerEvents(works)) == TickDone(s)
  {
    var t := Step(s, Timer(Dispatch));
    if s.pump.handlers[0] == Fired {
      var done := t.(stages := DoWorkSteps(t.stages, 0));
      RunsFirst(done, Timer(Finish), []);
      assert [Timer(Finish)] + [] == [Timer(Finish)];
      DoWorkRuns(t, 0, [Timer(Finish)]);
      RunsFirst(s, Timer(Dispatch), [Work(0), Report(0), HandOn(0)] + [Timer(Finish)]);
      assert [Timer(Dispatch)] + ([Work(0), Report(0), HandOn(0)] + [Timer(Finish)]) == TimerEvents(true);
    } else {
      RunsFirst(s, Timer(Dispatch), []);
      assert [Timer(Dispatch)] + [] == TimerEvents(false);
    }
  }

  lemma RunsOneMore(s: System, events: seq<Event>, e: Event)
    requires Runs(s, events) && Enabled(After(s, events), e)
    ensures Runs(s, events + [e]) && After(s, events + [e]) == Step(After(s, events), e)
  {
    RunsFirst(After(s, events), e, []);
    assert [e] + [] == [e];
    RunsAppend(s, events, [e]);
  }

  // A collection under way: it began at `from`, when the last queue held n entries, and has made the events so far.
  ghost predicate Within(from: System, n: nat, events: seq<Event>, s: System) {
    && Inv(s) && Midway(s) && s.collector.i + Backlog(s) == n
    && Runs(from, events) && ChecksAndPops(events) && After(from, events) == s
    && s.pump == from.pump && s.produced == from.produced
  }

  lemma WithinStep(from: System, n: nat, events: seq<Event>, s: System, e: Event)
    requires Within(from, n, events, s) && Enabled(s, e) && (e == CollectCheck || e == CollectPop)
    ensures Step(s, e).collector != Resting ==> Within(from, n, events + [e], Step(s, e))
    ensures Runs(from, events + [e]) && ChecksAndPops(events + [e]) && After(from, events + [e]) == Step(s, e)
  {
    RunsOneMore(from, events, e);
    CollectionStep(s, e);
    StepKeepsInv(s, e);
  }

  lemma BeginsWithin(s: System)
    requires Inv(s) && Enabled(s, CollectStart)
    ensures var t := Step(s, CollectStart);
            && Within(t, Backlog(s), [], t) && t.collector == Checking(0)
            && t.stages == s.stages && t.rows == s.rows && t.pump == s.pump && t.produced == s.produced
  {
    StepKeepsInv(s, CollectStart);
  }

  // At the loop's test, with i rows written.
  ghost predicate AtTest(from: System, n: nat, events: seq<Event>, s: System, written: seq<seq<Frame>>) {
    Within(from, n, events, s) && s.collector == Checking(|written|) && s.rows == from.rows + written
  }

  lemma CollectionDone(s: System, events: seq<Event>)
    requires Inv(s) && Enabled(s, CollectStart) && Runs(Step(s, CollectStart), events) && ChecksAndPops(events)
    requires After(Step(s, CollectStart), events).collector == Resting
    ensures Collection(s, [CollectStart] + events)
    ensures var t := After(s, [CollectStart] + events); t == After(Step(s, CollectStart), events) && Inv(t)
  {
    RunsFirst(s, CollectStart, events);
    assert ([CollectStart] + events)[1..] == events;
    RunsKeepInv(s, [CollectStart] + events);
  }

  function Follower(elements: seq<WorkWrapper>, i: nat): WorkWrapper? {
    if i + 1 < |elements| then elements[i + 1] else null
  }

  class Pipeline {
    const statsInterval: nat
    var paused: bool
    var started: bool
    var compiled: bool
    var elements: seq<WorkWrapper>
    var pump: TimedWorkWrapper?     // the timer of the first element
    var produced: nat               // frames the first element's work has made
    ghost var now: System           // the state of the transition system

    constructor (statsInterval: nat)
      ensures Valid() && elements == [] && !compiled && !started && this.statsInterval == statsInterval
    {
      this.statsInterval := statsInterval;
      paused, started, compiled, elements, pump, produced := false, false, false, [], null, 0;
    }

    // Every element has its own place, so all are distinct.
    ghost predicate Distinct()
      reads this`elements
    {
      forall i :: 0 <= i < |elements| ==> elements[i].position == i
    }

    // The elements are distinct, and a compiled pipeline is linked in their order.
    ghost predicate Linked()
      reads this`elements, this`compiled, elements`next
    {
      && Distinct()
      && (forall i :: 0 <= i < |elements| ==> elements[i].collects == (statsInterval > 0))
      && forall i {:trigger elements[i].next} :: 0 <= i < |elements| ==>
           elements[i].next == if compiled then Follower(elements, i) else null
    }

    // The flags are those of the timer, which is there once there is an element.
    ghost predicate Agrees()
      reads this`elements, this`pump, this`started, this`paused, pump
    {
      if pump == null then elements == [] && !started && !paused
      else elements != [] && pump.started == started && pump.paused == paused
    }

    ghost predicate Shows(stages: seq<Stage>)
      reads this`elements, elements`strand, elements`done, elements`timeStats
    {
      |stages| == |elements| && forall k :: 0 <= k < |elements| ==> elements[k].Shows(stages[k])
    }

    // The state is that of the fields, between handlers and collections.
    ghost predicate AtRest()
      reads this`elements, this`pump, this`produced, this`now
      reads elements`strand, elements`done, elements`timeStats, pump
    {
      && Shows(now.stages) && now.produced == produced && now.collector == Resting && !now.fault
      && pump != null && now.pump == pump.View() && !now.pump.running
    }

    // It keeps the invariant of all runs, and until the pipeline is compiled it is an initial one.
    ghost predicate Valid()
      reads this, elements, pump
    {
      && Linked() && Agrees() && (started ==> compiled)
      && (if pump == null then produced == 0 else AtRest() && Inv(now))
      && (pump != null && !compiled ==> now == Initial(|elements|, pump.milliseconds))
    }

    // So what holds of every reachable state holds of the object: each element has finished what the next one has
    // finished and has waiting, in camera order, and the statistics are in step.
    lemma KeepsOrder()
      requires Valid() && pump != null
      ensures InCameraOrder(now) && StatsInStep(now)
      ensures forall i :: 0 <= i < |elements| - 1 ==> elements[i].done == elements[i + 1].done + elements[i + 1].strand
    {
      InvMeansOrder(now);
      InvMeansStats(now);
      forall i | 0 <= i < |elements| - 1 ensures elements[i].done == elements[i + 1].done + elements[i + 1].strand {
        assert elements[i].Shows(now.stages[i]) && elements[i + 1].Shows(now.stages[i + 1]);
        assert now.stages[i].done == Taken(now.stages[i + 1]);
      }
    }

    method AddTimedElement(interval: nat) returns (thrown: Option<Thrown>)
      requires Valid()
      modifies this
      ensures Valid()
      ensures thrown == if old(compiled) then Some(AlreadyCompiled)
                        else if old(elements) != [] then Some(NotEmpty) else None
      ensures thrown.Some? ==> elements == old(elements) && pump == old(pump) && now == old(now)
      ensures thrown.None? ==> |elements| == 1 && pump != null && now == Initial(1, interval)
    {
      if compiled { return Some(AlreadyCompiled); }
      if elements != [] { return Some(NotEmpty); }
      pump := new TimedWorkWrapper(interval);
      var element := new WorkWrapper(statsInterval > 0, 0);
      elements := [element];
      now := Initial(1, interval);
      InitialInv(1, interval);
      return None;
    }

    method AddElement() returns (thrown: Option<Thrown>)
      requires Valid()
      modifies this`elements, this`now
      ensures Valid()
      ensures thrown == if old(compiled) then Some(AlreadyCompiled)
                        else if old(elements) == [] then Some(NoFirstElement) else None
      ensures thrown.Some? ==> elements == old(elements) && now == old(now)
      ensures thrown.None? ==> |elements| == |old(elements)| + 1 && elements[..|old(elements)|] == old(elements)
      ensures thrown.None? ==> pump != null && now == Initial(|elements|, pump.milliseconds)
    {
      if compiled { return Some(AlreadyCompiled); }
      if elements == [] { return Some(NoFirstElement); }
      var element := new WorkWrapper(statsInterval > 0, |elements|);
      elements := elements + [element];
      now := Initial(|elements|, pump.milliseconds);
      InitialInv(|elements|, pump.milliseconds);
      return None;
    }

    // Two iterators one apart walk the elements and link each to the one behind it.
    method LinkElements()
      requires Distinct() && (elements != [] ==> elements[|elements| - 1].next == null)
      modifies elements`next
      ensures forall i {:trigger elements[i].next} :: 0 <= i < |elements| ==> elements[i].next == Follower(elements, i)
    {
      if |elements| > 1 {
        var n := 1;
        while n != |elements|
          invariant 1 <= n <= |elements|
          invariant forall i {:trigger elements[i].next} :: 0 <= i < n - 1 ==> elements[i].next == Follower(elements, i)
          invariant elements[|elements| - 1].next == null
        {
          elements[n - 1].SetNext(elements[n]);
          n := n + 1;
        }
      }
    }

    method Compile()
      requires Valid()
      modifies this`compiled, elements`next
      ensures Valid() && compiled && elements == old(elements)
      ensures forall i {:trigger elements[i].next} :: 0 <= i < |elements| ==> elements[i].next == Follower(elements, i)
    {
      LinkElements();
      compiled := true;
    }

    method StartPump()
      requires AtRest() && Agrees() && !started
      modifies this`started, this`now, pump
      ensures AtRest() && Agrees() && started && Enabled(old(now), Timer(PumpEvent.Start))
      ensures now == Step(old(now), Timer(PumpEvent.Start))
    {
      pump.ScheduleWork();
      started := true;
      now := Step(now, Timer(PumpEvent.Start));
    }

    method Start() returns (thrown: Option<Thrown>)
      requires Valid() && (compiled ==> elements != [])
      modifies this`started, this`now, (if pump != null then {pump} else {})
      ensures Valid()
      ensures thrown == if !compiled then Some(NotCompiled) else if old(started) then Some(AlreadyStarted) else None
      ensures thrown.None? ==> started && Enabled(old(now), Timer(PumpEvent.Start))
                               && now == Step(old(now), Timer(PumpEvent.Start))
      ensures thrown.Some? ==> now == old(now)
    {
      if !compiled { return Some(NotCompiled); }
      if started { return Some(AlreadyStarted); }
      StepKeepsInv(now, Timer(PumpEvent.Start));
      StartPump();
      return None;
    }

    method TogglePump()
      requires AtRest() && Agrees() && started
      modifies this`paused, this`now, pump
      ensures AtRest() && Agrees() && paused == !old(paused) && Enabled(old(now), Timer(Toggle))
      ensures now == Step(old(now), Timer(Toggle))
    {
      pump.Pause();
      if paused { paused := false; } else { paused := true; }
      now := Step(now, Timer(Toggle));
    }

    method Pause() returns (thrown: Option<Thrown>)
      requires Valid()
      modifies this`paused, this`now, (if pump != null then {pump} else {})
      ensures Valid()
      ensures thrown == if !compiled then Some(NotCompiled) else if !started then Some(NotStarted) else None
      ensures thrown.None? ==> paused == !old(paused) && Enabled(old(now), Timer(Toggle))
                               && now == Step(old(now), Timer(Toggle))
      ensures thrown.Some? ==> paused == old(paused) && now == old(now)
    {
      if !compiled { return Some(NotCompiled); }
      if !started { return Some(NotStarted); }
      StepKeepsInv(now, Timer(Toggle));
      TogglePump();
      return None;
    }

    method ChangeTimer(milliseconds: nat) returns (thrown: Option<Thrown>)
      requires Valid() && (compiled ==> elements != [])
      modifies this`now, (if pump != null then {pump} else {})
      ensures Valid()
      ensures thrown == if !compiled then Some(NotCompiled) else None
      ensures thrown.None? ==> Enabled(old(now), Timer(ChangeInterval(milliseconds)))
                               && now == Step(old(now), Timer(ChangeInterval(milliseconds)))
      ensures thrown.Some? ==> now == old(now)
    {
      if !compiled { return Some(NotCompiled); }
      StepKeepsInv(now, Timer(ChangeInterval(milliseconds)));
      pump.SetInterval(milliseconds);
      now := Step(now, Timer(ChangeInterval(milliseconds)));
      return None;
    }

    // ---- Handlers ----

    // do_work of element i on a frame it has taken, without anything in between.
    method WorkAt(i: nat, data: Frame, ghost stages: seq<Stage>)
      requires Linked() && compiled && i < |elements| && |stages| == |elements|
      requires stages[i].phase == Working(data) && elements[i].Shows(stages[i].(phase := Idle))
      requires forall j :: 0 <= j < |elements| && j != i ==> elements[j].Shows(stages[j])
      modifies elements`timeStats, elements`done, elements`strand
      ensures Shows(DoWorkSteps(stages, i))
    {
      assert elements[i].next == Follower(elements, i);
      elements[i].DoWork(data);
      forall j | 0 <= j < |elements| ensures elements[j].Shows(DoWorkSteps(stages, i)[j]) {
      }
    }

    method TakeAndWork(i: nat)
      requires Linked() && AtRest() && compiled && i < |elements| && StageEnabled(now.stages, Begin(i))
      modifies elements`timeStats, elements`done, elements`strand, this`now
      ensures AtRest() && now == HandlerDone(old(now), i)
    {
      ghost var taken := StageStep(now.stages, Begin(i));
      var data := elements[i].strand[0];
      elements[i].strand := elements[i].strand[1..];
      WorkAt(i, data, taken);
      now := now.(stages := DoWorkSteps(taken, i));
    }

    // The strand of element i runs the handler at its front.
    method RunFront(i: nat)
      requires Valid() && compiled && 1 <= i < |elements| && elements[i].strand != []
      modifies elements`timeStats, elements`done, elements`strand, this`now
      ensures Valid()
      ensures Runs(old(now), HandlerEvents(i)) && now == After(old(now), HandlerEvents(i))
    {
      HandlerRuns(now, i);
      RunsKeepInv(now, HandlerEvents(i));
      TakeAndWork(i);
    }

    method MakeFrame()
      requires Linked() && compiled && elements != [] && Shows(now.stages) && now.produced == produced
      modifies elements`timeStats, elements`done, elements`strand, this`produced, this`now
      ensures Shows(now.stages) && now.produced == produced
      ensures now == FrameMade(old(now))
    {
      ghost var taken := FrameTaken(now);
      var frame := produced;
      produced := produced + 1;
      WorkAt(0, frame, taken);
      now := now.(produced := produced, stages := DoWorkSteps(taken, 0));
    }

    method WorkTick()
      requires Linked() && compiled && elements != [] && Shows(now.stages) && now.produced == produced
      requires pump != null && PumpEnabled(pump.View(), Finish)
      modifies elements`timeStats, elements`done, elements`strand, pump, this`produced, this`now
      ensures Shows(now.stages) && now.produced == produced && pump.View() == PumpStep(old(pump.View()), Finish)
      ensures now == FrameMade(old(now))
    {
      MakeFrame();
      pump.LeaveDoWork();
    }

    // The timer's half of the handler: the elements stay as they are.
    method EnterTick() returns (works: bool)
      requires Agrees() && AtRest() && pump.handlers != []
      modifies pump
      ensures Agrees() && Shows(now.stages) && works == (old(pump.handlers[0]) == Fired) && pump.running == works
      ensures pump.View() == PumpStep(old(pump.View()), Dispatch)
    {
      works := pump.EnterDoWork();
    }

    // Its other half, if it fired.
    method FinishTick()
      requires Linked() && Agrees() && compiled && elements != [] && Shows(now.stages) && now.produced == produced
      requires now.collector == Resting && !now.fault && PumpEnabled(pump.View(), Finish)
      modifies elements`timeStats, elements`done, elements`strand, pump, this`produced, this`now
      ensures Agrees() && AtRest() && now == FrameMade(old(now)).(pump := PumpStep(old(pump.View()), Finish))
    {
      WorkTick();
      now := now.(pump := pump.View());
    }

    method Tick() returns (works: bool)
      requires Linked() && Agrees() && AtRest() && compiled && pump.handlers != []
      modifies elements`timeStats, elements`done, elements`strand, pump, this`produced, this`now
      ensures Agrees() && AtRest() && works == (old(pump.handlers[0]) == Fired) && now == TickDone(old(now))
    {
      works := EnterTick();
      if works {
        FinishTick();
      } else {
        now := now.(pump := pump.View());
      }
    }

    // The first element's strand runs the timer handler at its front. Frames are numbered as they are made.
    method RunTimerHandler() returns (works: bool)
      requires Valid() && compiled && pump != null && pump.handlers != []
      modifies elements`timeStats, elements`done, elements`strand, pump, this`produced, this`now
      ensures Valid() && works == (old(pump.handlers[0]) == Fired)
      ensures Runs(old(now), TimerEvents(works)) && now == After(old(now), TimerEvents(works))
    {
      TimerRuns(now);
      RunsKeepInv(now, TimerEvents(now.pump.handlers[0] == Fired));
      works := Tick();
    }

    // ---- collect_stats ----

    ghost predicate Reporting()
      reads this`elements
    {
      Distinct() && forall k :: 0 <= k < |elements| ==> elements[k].collects
    }

    // The front entry of one queue.
    method PopFront(k: nat) returns (times: Frame)
      requires Reporting() && Shows(now.stages)
      requires Inv(now) && Enabled(now, CollectPop) && k == |now.collector.row|
      modifies {elements[k]}`timeStats, this`now
      ensures Shows(now.stages) && now == Step(old(now), CollectPop)
      ensures old(now).stages[k].stats != [] && times == old(now).stages[k].stats[0]
    {
      PopEntry(now);
      times := elements[k].timeStats[0];
      elements[k].timeStats := elements[k].timeStats[1..];
      now := Step(now, CollectPop);
    }

    method PopNext(k: nat, ghost from: System, ghost n: nat, ghost events: seq<Event>, row: seq<Frame>)
      returns (longer: seq<Frame>)
      requires Reporting() && Shows(now.stages) && Within(from, n, events, now) && |row| == k < |elements|
      requires now.collector.Popping? && now.collector.row == row
      modifies {elements[k]}`timeStats, this`now
      ensures Shows(now.stages) && Within(from, n, events + [CollectPop], now) && |longer| == k + 1
      ensures if k + 1 == |elements| then
                now.collector == Checking(old(now).collector.i + 1) && now.rows == old(now).rows + [longer]
              else
                now.collector == Popping(old(now).collector.i, longer) && now.rows == old(now).rows
    {
      WithinStep(from, n, events, now, CollectPop);
      var times := PopFront(k);
      longer := row + [times];
    }

    // One row: the front entry of every queue.
    method PopRow(ghost from: System, ghost n: nat, ghost events: seq<Event>)
      returns (row: seq<Frame>, ghost more: seq<Event>)
      requires Reporting() && Shows(now.stages) && Within(from, n, events, now)
      requires now.collector.Popping? && now.collector.row == []
      modifies elements`timeStats, this`now
      ensures Shows(now.stages) && Within(from, n, more, now)
      ensures now.collector == Checking(old(now).collector.i + 1) && now.rows == old(now).rows + [row]
    {
      row, more := [], events;
      for k := 0 to |elements|
        invariant Shows(now.stages) && Within(from, n, more, now) && |row| == k
        invariant if k == |elements| then
                    now.collector == Checking(old(now).collector.i + 1) && now.rows == old(now).rows + [row]
                  else
                    now.collector == Popping(old(now).collector.i, row) && now.rows == old(now).rows
      {
        row := PopNext(k, from, n, more, row);
        more := more + [CollectPop];
      }
    }

    // The loop's test.
    ghost method Check(from: System, n: nat, events: seq<Event>)
      requires Shows(now.stages) && Within(from, n, events, now) && now.collector.Checking?
      modifies this`now
      ensures Shows(now.stages) && now == Step(old(now), CollectCheck)
      ensures now.collector == if old(now).collector.i < Backlog(old(now)) then Popping(old(now).collector.i, [])
                               else Resting
      ensures now.collector != Resting ==> Within(from, n, events + [CollectCheck], now)
      ensures Runs(from, events + [CollectCheck]) && ChecksAndPops(events + [CollectCheck])
      ensures After(from, events + [CollectCheck]) == now
    {
      WithinStep(from, n, events, now, CollectCheck);
      now := Step(now, CollectCheck);
    }

    ghost method EnterRow(from: System, n: nat, events: seq<Event>, written: seq<seq<Frame>>)
      requires Shows(now.stages) && AtTest(from, n, events, now, written) && |written| < Backlog(now)
      modifies this`now
      ensures Shows(now.stages) && Within(from, n, events + [CollectCheck], now)
      ensures now.collector == Popping(|written|, []) && now.rows == from.rows + written
    {
      Check(from, n, events);
    }

    // One round of the loop.
    method CollectRow(ghost from: System, ghost n: nat, ghost events: seq<Event>, written: seq<seq<Frame>>)
      returns (longer: seq<seq<Frame>>, ghost more: seq<Event>)
      requires Reporting() && Shows(now.stages) && AtTest(from, n, events, now, written) && |written| < Backlog(now)
      modifies elements`timeStats, this`now
      ensures Shows(now.stages) && AtTest(from, n, more, now, longer) && |longer| == |written| + 1
    {
      EnterRow(from, n, events, written);
      var row;
      row, more := PopRow(from, n, events + [CollectCheck]);
      longer := written + [row];
    }

    method LastEntries() returns (size: nat)
      requires Reporting() && elements != [] && Shows(now.stages) && now.stages != []
      ensures size == Backlog(now)
    {
      size := |elements[|elements| - 1].timeStats|;
    }

    // The loop of collect_stats, run without anything in between. Its bound is read anew in every round, and
    // every round shortens that queue.
    method CollectRows(ghost from: System, ghost n: nat) returns (written: seq<seq<Frame>>, ghost events: seq<Event>)
      requires Reporting() && elements != [] && Shows(now.stages) && AtTest(from, n, [], now, [])
      modifies elements`timeStats, this`now
      ensures Shows(now.stages) && now.rows == from.rows + written && now.collector == Resting
      ensures Runs(from, events) && ChecksAndPops(events) && now == After(from, events)
      ensures now.pump == from.pump && now.produced == from.produced && !now.fault
    {
      written, events := [], [];
      var size := LastEntries();
      while |written| < size
        invariant Shows(now.stages) && AtTest(from, n, events, now, written) && size == Backlog(now)
        decreases n - |written|
      {
        written, events := CollectRow(from, n, events, written);
        size := LastEntries();
      }
      Check(from, n, events);
      events := events + [CollectCheck];
    }

    ghost method BeginCollection()
      requires Shows(now.stages) && Inv(now) && Enabled(now, CollectStart)
      modifies this`now
      ensures now == Step(old(now), CollectStart) && Shows(now.stages) && AtTest(now, Backlog(old(now)), [], now, [])
      ensures now.rows == old(now).rows && now.pump == old(now).pump && now.produced == old(now).produced
    {
      BeginsWithin(now);
      now := Step(now, CollectStart);
    }

    method CollectAtOnce() returns (written: seq<seq<Frame>>, ghost events: seq<Event>)
      requires Reporting() && Shows(now.stages) && Inv(now) && Enabled(now, CollectStart)
      modifies elements`timeStats, this`now
      ensures Shows(now.stages) && Inv(now) && now.rows == old(now).rows + written
      ensures now.collector == Resting && now.pump == old(now).pump && now.produced == old(now).produced
      ensures Collection(old(now), events) && now == After(old(now), events)
    {
      ghost var before := now;
      BeginCollection();
      written, events := CollectRows(now, Backlog(before));
      CollectionDone(before, events);
      events := [CollectStart] + events;
    }

    // The part of collect_stats after the test of its error code. The statistics timer runs once the pipeline does.
    // What the rows written hold, and what is left of the queues, CollectionWrites says of every such run.
    method CollectStats() returns (written: seq<seq<Frame>>, ghost events: seq<Event>)
      requires Valid() && started && statsInterval > 0
      modifies elements`timeStats, this`now
      ensures Valid() && now.rows == old(now).rows + written
      ensures Collection(old(now), events) && now == After(old(now), events)
    {
      written, events := CollectAtOnce();
    }
  }
}
