// From the camera to the socket, nothing missing: what a connection writes after it subscribed, when no frame is
// dropped and no write fails (src/ScenePublisher.cpp, src/GUI/StreamConnection.cpp, src/Pipeline/WorkWrapper.h).
module Completeness {
  import opened Common
  import opened PipelineRuns
  import opened PipelineProperties
  import opened StreamConnection
  import opened EndToEnd

  function PublishedBy(w: World): nat
    requires w.sys.stages != []
  {
    Published(w.sys.stages[LastOf(w.sys)])
  }

  // Every frame published from the one numbered `from` on has been delivered, and nothing else.
  ghost predicate DeliveredFrom(w: World, from: nat) {
    && WorldInv(w) && w.conn.subscribed && !w.conn.failed
    && from <= PublishedBy(w) && w.conn.delivered == Range(from, PublishedBy(w))
  }

  // Only its work takes the last element past a frame.
  lemma PublishedSame(s: System, e: Event)
    requires Inv(s) && Enabled(s, e) && e != Work(LastOf(s))
    ensures Step(s, e).stages != [] && LastOf(Step(s, e)) == LastOf(s)
    ensures Published(Step(s, e).stages[LastOf(s)]) == Published(s.stages[LastOf(s)])
  {
  }

  lemma RangeGrows(from: nat, n: nat)
    requires from <= n
    ensures Range(from, n) + [n] == Range(from, n + 1)
  {
  }

  lemma PublishKeepsDelivered(w: World, from: nat)
    requires DeliveredFrom(w, from) && WorldEnabled(w, Publish(true))
    ensures DeliveredFrom(WorldStep(w, Publish(true)), from)
  {
    WorldStepKeepsInv(w, Publish(true));
    PublishedGrows(w.sys, Work(LastOf(w.sys)));
    RangeGrows(from, PublishedBy(w));
  }

  lemma PipelineKeepsDelivered(w: World, from: nat, pe: Event)
    requires DeliveredFrom(w, from) && WorldEnabled(w, InPipeline(pe))
    ensures DeliveredFrom(WorldStep(w, InPipeline(pe)), from)
  {
    WorldStepKeepsInv(w, InPipeline(pe));
    PublishedSame(w.sys, pe);
  }

  lemma ConnectionKeepsDelivered(w: World, from: nat, ce: ConnEvent)
    requires DeliveredFrom(w, from) && WorldEnabled(w, OnConnection(ce))
    ensures !ConnStep(w.conn, ce).failed ==> DeliveredFrom(w.(conn := ConnStep(w.conn, ce)), from)
  {
    WorldStepKeepsInv(w, OnConnection(ce));
    OnlyDeliverDelivers(w.conn, ce);
    FailureUnsubscribes(w.conn, ce);
  }

  // A subscription ends with a failure only.
  lemma FailureUnsubscribes(c: Conn, ce: ConnEvent)
    requires c.subscribed && ConnEnabled(c, ce)
    ensures !ConnStep(c, ce).failed ==> ConnStep(c, ce).subscribed
  {
  }

  lemma StepKeepsDelivered(w: World, from: nat, e: WorldEvent)
    requires DeliveredFrom(w, from) && WorldEnabled(w, e) && e != Publish(false)
    ensures !WorldStep(w, e).conn.failed ==> DeliveredFrom(WorldStep(w, e), from)
  {
    match e
    case InPipeline(pe) => PipelineKeepsDelivered(w, from, pe);
    case Publish(_) => PublishKeepsDelivered(w, from);
    case OnConnection(ce) => ConnectionKeepsDelivered(w, from, ce);
  }

  lemma {:induction false} FailureStays(w: World, events: seq<WorldEvent>)
    requires WorldRuns(w, events) && w.conn.failed
    ensures WorldAfter(w, events).conn.failed
    decreases |events|
  {
    if events != [] {
      assert WorldStep(w, events[0]).conn.failed;
      FailureStays(WorldStep(w, events[0]), events[1..]);
    }
  }

  lemma {:induction false} RunsKeepDelivered(w: World, from: nat, events: seq<WorldEvent>)
    requires DeliveredFrom(w, from) && WorldRuns(w, events) && Publish(false) !in events
    requires !WorldAfter(w, events).conn.failed
    ensures DeliveredFrom(WorldAfter(w, events), from)
    decreases |events|
  {
    if events != [] {
      var t := WorldStep(w, events[0]);
      assert events[0] in events && forall e :: e in events[1..] ==> e in events;
      if t.conn.failed {
        FailureStays(t, events[1..]);
      }
      StepKeepsDelivered(w, from, events[0]);
      RunsKeepDelivered(t, from, events[1..]);
    }
  }

  // ---- Before the subscription ----

  predicate NothingBefore(c: Conn) {
    !c.signalled ==> !c.subscribed && c.delivered == []
  }

  lemma {:induction false} NothingDeliveredBefore(w: World, events: seq<WorldEvent>)
    requires WorldRuns(w, events) && NothingBefore(w.conn)
    ensures NothingBefore(WorldAfter(w, events).conn)
    decreases |events|
  {
    if events != [] {
      assert NothingBefore(WorldStep(w, events[0]).conn);
      NothingDeliveredBefore(WorldStep(w, events[0]), events[1..]);
    }
  }

  // ---- The whole ----

  lemma IdleMeansPublished(w: World)
    requires WorldInv(w) && AllIdle(w.sys.stages)
    ensures PublishedBy(w) == w.sys.produced
  {
    AllReceived(w.sys, LastOf(w.sys));
  }

  lemma SubscribeStarts(w: World)
    requires WorldInv(w) && NothingBefore(w.conn) && WorldEnabled(w, OnConnection(Subscribe))
    ensures var t := WorldStep(w, OnConnection(Subscribe));
            && WorldInv(t) && t.sys == w.sys && t.conn.begun
            && (!t.conn.failed ==> DeliveredFrom(t, PublishedBy(w)))
  {
    WorldStepKeepsInv(w, OnConnection(Subscribe));
  }

  lemma ReachedWorld(elements: nat, milliseconds: nat, events: seq<WorldEvent>)
    requires elements > 0 && WorldRuns(World(Initial(elements, milliseconds), NEW_CONN), events)
    ensures var w := WorldAfter(World(Initial(elements, milliseconds), NEW_CONN), events);
            WorldInv(w) && NothingBefore(w.conn)
  {
    var w0 := World(Initial(elements, milliseconds), NEW_CONN);
    InitialInv(elements, milliseconds);
    NewConnInv();
    WorldRunsKeepInv(w0, events);
    NothingDeliveredBefore(w0, events);
  }

  // A connection subscribes, at any time in any run of any pipeline. From then on, in every run in which no frame is
  // dropped and no write has failed, it has been brought exactly the frames published since, in order; and when the
  // pipeline is idle and the connection quiet, exactly the frames not yet published at its subscription, up to the last
  // one the camera made, have been written after the headers.
  lemma EverythingArrives(elements: nat, milliseconds: nat, before: seq<WorldEvent>, after: seq<WorldEvent>)
    requires elements > 0 && WorldRuns(World(Initial(elements, milliseconds), NEW_CONN), before)
    requires WorldEnabled(WorldAfter(World(Initial(elements, milliseconds), NEW_CONN), before), OnConnection(Subscribe))
    requires var w := WorldAfter(World(Initial(elements, milliseconds), NEW_CONN), before);
             WorldRuns(WorldStep(w, OnConnection(Subscribe)), after) && Publish(false) !in after
    ensures var w := WorldAfter(World(Initial(elements, milliseconds), NEW_CONN), before);
            var t := WorldAfter(WorldStep(w, OnConnection(Subscribe)), after);
            && w.sys.stages != [] && t.sys.stages != []
            && var from := PublishedBy(w);
               && (!t.conn.failed ==> from <= PublishedBy(t) && t.conn.delivered == Range(from, PublishedBy(t)))
               && (!t.conn.failed && Quiet(t.conn) && AllIdle(t.sys.stages) ==>
                     && from <= t.sys.produced && Frames(t.conn.box.started) == Range(from, t.sys.produced)
                     && t.conn.box.started != [] && t.conn.box.started[0] == Headers)
  {
    var w := WorldAfter(World(Initial(elements, milliseconds), NEW_CONN), before);
    var s := WorldStep(w, OnConnection(Subscribe));
    var t := WorldAfter(s, after);
    ReachedWorld(elements, milliseconds, before);
    SubscribeStarts(w);
    WorldRunsKeepInv(s, after);
    if !t.conn.failed {
      if s.conn.failed {
        FailureStays(s, after);
      }
      RunsKeepDelivered(s, PublishedBy(w), after);
      if Quiet(t.conn) && AllIdle(t.sys.stages) {
        QuietMeansWritten(t.conn);
        IdleMeansPublished(t);
        StaysBegun(s, after);
        SentIsDelivered(t);
      }
    }
  }

  lemma {:induction false} StaysBegun(w: World, events: seq<WorldEvent>)
    requires WorldRuns(w, events) && w.conn.begun
    ensures WorldAfter(w, events).conn.begun
    decreases |events|
  {
    if events != [] {
      assert WorldStep(w, events[0]).conn.begun;
      StaysBegun(WorldStep(w, events[0]), events[1..]);
    }
  }
}
