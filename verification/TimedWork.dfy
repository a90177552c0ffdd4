// The timer-driven pump at the head of the pipeline (src/Pipeline/TimedWorkWrapper.h).
// A timer keeps pending waits. Setting its expiry or cancelling it hands every pending wait to the strand as
// aborted; reaching the expiry hands it over as fired. The strand runs one handler at a time, in order.
module TimedWork {

  datatype TimerHandler = Fired | Aborted

  datatype Pump = Pump(
    started: bool,
    paused: bool,
    milliseconds: nat,
    clock: int,
    expiry: int,
    armed: nat,                     // pending waits
    handlers: seq<TimerHandler>,    // handed to the strand, not yet run
    running: bool)                  // a fired handler is between its start and restart_timer

  function Repeat<T>(x: T, n: nat): (r: seq<T>)
    ensures |r| == n && forall k :: 0 <= k < n ==> r[k] == x
  {
    seq(n, k => x)
  }

  function Created(milliseconds: nat): Pump {
    Pump(false, false, milliseconds, 0, 0, 0, [], false)
  }

  function Cancelled(p: Pump): Pump {
    p.(armed := 0, handlers := p.handlers + Repeat(Aborted, p.armed))
  }

  // start_timer: the deadline counts from now.
  function TimerStarted(p: Pump): Pump {
    Cancelled(p).(expiry := p.clock + p.milliseconds, armed := 1)
  }

  // restart_timer: the deadline counts from the last one.
  function TimerRestarted(p: Pump): Pump {
    Cancelled(p).(expiry := p.expiry + p.milliseconds, armed := 1)
  }

  function PauseToggled(p: Pump): Pump {
    if p.paused then TimerStarted(p).(paused := false) else Cancelled(p).(paused := true)
  }

  datatype PumpEvent =
    | Start | Toggle | ChangeInterval(milliseconds: nat)
    | Tick(elapsed: nat) | Expire | Dispatch | Finish

  predicate PumpEnabled(p: Pump, e: PumpEvent) {
    match e
    case Start => !p.started
    case Toggle => p.started
    case ChangeInterval(_) => true
    case Tick(_) => true
    case Expire => p.armed > 0 && p.expiry <= p.clock
    case Dispatch => !p.running && p.handlers != []
    case Finish => p.running
  }

  function PumpStep(p: Pump, e: PumpEvent): Pump
    requires PumpEnabled(p, e)
  {
    match e
    case Start => TimerStarted(p).(started := true)
    case Toggle => PauseToggled(p)
    case ChangeInterval(ms) => p.(milliseconds := ms)
    case Tick(elapsed) => p.(clock := p.clock + elapsed)
    case Expire => p.(armed := 0, handlers := p.handlers + Repeat(Fired, p.armed))
    case Dispatch => p.(handlers := p.handlers[1..], running := p.handlers[0] == Fired)
    case Finish => TimerRestarted(p).(running := false)
  }

  predicate PumpRuns(p: Pump, events: seq<PumpEvent>)
    decreases |events|
  {
    events == [] || (PumpEnabled(p, events[0]) && PumpRuns(PumpStep(p, events[0]), events[1..]))
  }

  function PumpAfter(p: Pump, events: seq<PumpEvent>): Pump
    requires PumpRuns(p, events)
    decreases |events|
  {
    if events == [] then p else PumpAfter(PumpStep(p, events[0]), events[1..])
  }

  // ---- What holds in every run ----

  predicate Alive(p: Pump) {
    p.armed > 0 || Fired in p.handlers || p.running
  }

  ghost predicate PumpInv(p: Pump) {
    && p.armed <= 1
    && (!p.started ==> !p.paused && !Alive(p) && p.handlers == [])
    && (p.started && !p.paused ==> Alive(p))
  }

  lemma PumpStepKeepsInv(p: Pump, e: PumpEvent)
    requires PumpInv(p) && PumpEnabled(p, e)
    ensures PumpInv(PumpStep(p, e))
  {
    if e == Expire {
      assert Repeat(Fired, p.armed)[0] == Fired;
      assert PumpStep(p, e).handlers[|p.handlers|] == Fired;
    }
    if e == Dispatch && Fired in p.handlers {
      assert p.handlers == [p.handlers[0]] + p.handlers[1..];
    }
  }

  // In every run at most one wait is armed, and the pump is never lost while it is started and not paused.
  lemma {:induction false} PumpRunsKeepInv(p: Pump, events: seq<PumpEvent>)
    requires PumpInv(p) && PumpRuns(p, events)
    ensures PumpInv(PumpAfter(p, events))
    decreases |events|
  {
    if events != [] {
      PumpStepKeepsInv(p, events[0]);
      PumpRunsKeepInv(PumpStep(p, events[0]), events[1..]);
    }
  }

  lemma EveryPumpRun(milliseconds: nat, events: seq<PumpEvent>)
    requires PumpRuns(Created(milliseconds), events)
    ensures PumpInv(PumpAfter(Created(milliseconds), events))
  {
    PumpRunsKeepInv(Created(milliseconds), events);
  }

  // ---- What a pause achieves ----

  predicate PumpSilent(p: Pump) {
    !Alive(p)
  }

  // A pause silences the pump exactly when no tick is on the strand or at work.
  lemma PauseSilencesIff(p: Pump)
    requires PumpInv(p) && p.started && !p.paused
    ensures PumpSilent(PauseToggled(p)) <==> !p.running && Fired !in p.handlers
  {
  }

  lemma AliveStep(p: Pump, e: PumpEvent)
    requires PumpEnabled(p, e) && e != Toggle && Alive(p)
    ensures Alive(PumpStep(p, e))
  {
    if e == Expire && p.armed > 0 {
      assert PumpStep(p, e).handlers[|p.handlers|] == Fired;
    }
    if e == Dispatch {
      assert p.handlers == [p.handlers[0]] + p.handlers[1..];
    }
  }

  // A pump that a pause left alive stays alive until it is toggled again, paused or not.
  lemma {:induction false} AliveUntilToggled(p: Pump, events: seq<PumpEvent>)
    requires PumpRuns(p, events) && Toggle !in events && Alive(p)
    ensures Alive(PumpAfter(p, events)) && PumpAfter(p, events).paused == p.paused
    decreases |events|
  {
    if events != [] {
      assert events[0] in events && forall e :: e in events[1..] ==> e in events;
      AliveStep(p, events[0]);
      AliveUntilToggled(PumpStep(p, events[0]), events[1..]);
    }
  }

  ghost predicate PumpPath(states: seq<Pump>, events: seq<PumpEvent>) {
    && |states| == |events| + 1
    && forall k :: 0 <= k < |events| ==>
         PumpEnabled(states[k], events[k]) && states[k + 1] == PumpStep(states[k], events[k])
  }

  lemma {:induction false} PathIsRun(states: seq<Pump>, events: seq<PumpEvent>)
    requires PumpPath(states, events)
    ensures PumpRuns(states[0], events) && PumpAfter(states[0], events) == states[|events|]
    decreases |events|
  {
    if events != [] {
      PathIsRun(states[1..], events[1..]);
    }
  }

  // A run in which the pump is paused during a tick and begins the next one all the same.
  lemma PauseCanFail(milliseconds: nat)
    ensures var p, events := Created(milliseconds),
                             [Start, Tick(milliseconds), Expire, Dispatch, Toggle,
                              Finish, Tick(milliseconds), Expire, Dispatch];
            PumpRuns(p, events) && PumpAfter(p, events).paused && PumpAfter(p, events).running
  {
    var p0 := Created(milliseconds);
    var p1 := PumpStep(p0, Start);
    var p2 := PumpStep(p1, Tick(milliseconds));
    var p3 := PumpStep(p2, Expire);
    var p4 := PumpStep(p3, Dispatch);
    var p5 := PumpStep(p4, Toggle);
    var p6 := PumpStep(p5, Finish);
    var p7 := PumpStep(p6, Tick(milliseconds));
    var p8 := PumpStep(p7, Expire);
    var p9 := PumpStep(p8, Dispatch);
    PathIsRun([p0, p1, p2, p3, p4, p5, p6, p7, p8, p9],
              [Start, Tick(milliseconds), Expire, Dispatch, Toggle, Finish, Tick(milliseconds), Expire, Dispatch]);
  }

  // ---- Pausing and resuming while a tick is under way ----

  function CountFired(handlers: seq<TimerHandler>): nat {
    multiset(handlers)[Fired]
  }

  // The ticks that are armed, on the strand, or at work.
  function Chains(p: Pump): nat {
    p.armed + CountFired(p.handlers) + if p.running then 1 else 0
  }

  lemma CountAppend(a: seq<TimerHandler>, b: seq<TimerHandler>)
    ensures CountFired(a + b) == CountFired(a) + CountFired(b)
  {
    assert multiset(a + b) == multiset(a) + multiset(b);
  }

  lemma CountRepeat(x: TimerHandler, n: nat)
    ensures CountFired(Repeat(x, n)) == if x == Fired then n else 0
  {
    if n == 0 {
    } else {
      CountRepeat(x, n - 1);
      assert Repeat(x, n) == Repeat(x, n - 1) + [x];
    }
  }

  // The only steps that add a chain are the first start and a resume. A resume leaves a single chain exactly when
  // no earlier tick is on the strand or at work: pausing does not recall those.
  lemma ResumeLeavesOneChainIff(p: Pump)
    requires PumpInv(p) && p.started && p.paused
    ensures Chains(PauseToggled(p)) == 1 <==> !p.running && Fired !in p.handlers
  {
    CountAppend(p.handlers, Repeat(Aborted, p.armed));
    CountRepeat(Aborted, p.armed);
  }

  lemma OtherStepsAddNoChain(p: Pump, e: PumpEvent)
    requires PumpEnabled(p, e) && e != Start && (e == Toggle ==> !p.paused)
    ensures Chains(PumpStep(p, e)) <= Chains(p)
  {
    CountAppend(p.handlers, Repeat(Aborted, p.armed));
    CountRepeat(Aborted, p.armed);
    CountAppend(p.handlers, Repeat(Fired, p.armed));
    CountRepeat(Fired, p.armed);
    if e == Dispatch {
      assert p.handlers == [p.handlers[0]] + p.handlers[1..];
      CountAppend([p.handlers[0]], p.handlers[1..]);
    }
  }

  // ---- The object ----

  class TimedWorkWrapper {
    var started: bool
    var paused: bool
    var milliseconds: nat
    var clock: int
    var expiry: int
    var armed: nat
    var handlers: seq<TimerHandler>
    var running: bool

    constructor (milliseconds: nat)
      ensures View() == Created(milliseconds)
    {
      started, paused, this.milliseconds, clock, expiry, armed := false, false, milliseconds, 0, 0, 0;
      handlers, running := [], false;
    }

    ghost function View(): Pump
      reads this
    {
      Pump(started, paused, milliseconds, clock, expiry, armed, handlers, running)
    }

    // timer_.cancel(), also part of setting the expiry
    method CancelWaits()
      modifies this`armed, this`handlers
      ensures View() == Cancelled(old(View()))
    {
      handlers := handlers + Repeat(Aborted, armed);
      armed := 0;
    }

    method StartTimer()
      modifies this`armed, this`handlers, this`expiry
      ensures View() == TimerStarted(old(View()))
    {
      CancelWaits();
      expiry := clock + milliseconds;
      armed := armed + 1;
    }

    method RestartTimer()
      modifies this`armed, this`handlers, this`expiry
      ensures View() == TimerRestarted(old(View()))
    {
      CancelWaits();
      expiry := expiry + milliseconds;
      armed := armed + 1;
    }

    method ScheduleWork()
      requires PumpEnabled(View(), Start)
      modifies this
      ensures View() == PumpStep(old(View()), Start)
    {
      StartTimer();
      started := true;
    }

    method Pause()
      modifies this
      ensures View() == PauseToggled(old(View()))
    {
      if paused {
        StartTimer();
        paused := false;
      } else {
        CancelWaits();
        paused := true;
      }
    }

    method SetInterval(milliseconds: nat)
      modifies this`milliseconds
      ensures View() == PumpStep(old(View()), ChangeInterval(milliseconds))
    {
      this.milliseconds := milliseconds;
    }

    // do_work as the strand calls it for the handler at its front, up to the call of the work ...
    method EnterDoWork() returns (works: bool)
      requires PumpEnabled(View(), Dispatch)
      modifies this`handlers, this`running
      ensures View() == PumpStep(old(View()), Dispatch) && works == running
    {
      var ec := handlers[0];
      handlers := handlers[1..];
      if ec == Aborted {
        running := false;
        return false;
      }
      running := true;
      return true;
    }

    // ... and from its return.
    method LeaveDoWork()
      requires PumpEnabled(View(), Finish)
      modifies this
      ensures View() == PumpStep(old(View()), Finish)
    {
      RestartTimer();
      running := false;
    }
  }
}
