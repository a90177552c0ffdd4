// The publisher at the end of the pipeline (src/ScenePublisher.cpp) and one stream connection: from the
// camera to the socket.
module EndToEnd {
  import opened Common
  import opened PipelineRuns
  import opened StreamConnection

  // ---- The publisher ----

  class Stream {
    const name: string
    var slots: nat              // connections to the signal
    var raised: seq<Frame>      // the frames it was raised for

    constructor (name: string)
      ensures this.name == name && slots == 0 && raised == []
    {
      this.name, slots, raised := name, 0, [];
    }
  }

  class ScenePublisher {
    var streams: seq<Stream>

    constructor ()
      ensures Valid() && forall i :: 0 <= i < |streams| ==> fresh(streams[i])
      ensures |streams| == 4 && streams[0].name == "main" && streams[1].name == "overlay"
      ensures streams[2].name == "foreground" && streams[3].name == "difference"
    {
      streams := [];
      new;
      AddStream("main");
      AddStream("overlay");
      AddStream("foreground");
      AddStream("difference");
    }

    ghost predicate Valid()
      reads this
    {
      forall i, j :: 0 <= i < j < |streams| ==> streams[i] != streams[j]
    }

    method AddStream(name: string)
      requires Valid()
      modifies this
      ensures Valid() && |streams| == |old(streams)| + 1 && streams[..|old(streams)|] == old(streams)
      ensures var s := streams[|old(streams)|]; fresh(s) && s.name == name && s.slots == 0 && s.raised == []
    {
      var s := new Stream(name);
      streams := streams + [s];
    }

    // encodes says for which streams the frame's image can be made; for the others the exception is caught.
    method ProcessNextFrame(frame: Frame, encodes: string -> bool)
      requires Valid()
      modifies streams`raised
      ensures forall i :: 0 <= i < |streams| ==>
                streams[i].raised == old(streams[i].raised)
                                     + if streams[i].slots > 0 && encodes(streams[i].name) then [frame] else []
    {
      for k := 0 to |streams|
        invariant forall i :: 0 <= i < k ==>
                    streams[i].raised == old(streams[i].raised)
                                         + if streams[i].slots > 0 && encodes(streams[i].name) then [frame] else []
        invariant forall i :: k <= i < |streams| ==> streams[i].raised == old(streams[i].raised)
      {
        var stream := streams[k];
        if stream.slots > 0 {
          if encodes(stream.name) {
            stream.raised := stream.raised + [frame];
          }
        }
      }
    }
  }

  // ---- Pipeline and connection together ----

  datatype World = World(sys: System, conn: Conn)

  // Publish is the work of the last element; encoded says whether the image for this connection's stream could
  // be made.
  datatype WorldEvent = InPipeline(e: Event) | Publish(encoded: bool) | OnConnection(ce: ConnEvent)

  function LastOf(s: System): nat {
    if s.stages == [] then 0 else |s.stages| - 1
  }

  predicate WorldEnabled(w: World, e: WorldEvent) {
    match e
    case InPipeline(pe) => pe != Work(LastOf(w.sys)) && Enabled(w.sys, pe)
    case Publish(_) => Enabled(w.sys, Work(LastOf(w.sys)))
    case OnConnection(ce) => !ce.Deliver? && ConnEnabled(w.conn, ce)
  }

  function WorldStep(w: World, e: WorldEvent): World
    requires WorldEnabled(w, e)
  {
    match e
    case InPipeline(pe) => w.(sys := Step(w.sys, pe))
    case Publish(encoded) =>
      var last := LastOf(w.sys);
      var t := w.(sys := Step(w.sys, Work(last)));
      if encoded && w.conn.subscribed then t.(conn := ConnStep(w.conn, Deliver(w.sys.stages[last].phase.frame))) else t
    case OnConnection(ce) => w.(conn := ConnStep(w.conn, ce))
  }

  predicate WorldRuns(w: World, events: seq<WorldEvent>)
    decreases |events|
  {
    events == [] || (WorldEnabled(w, events[0]) && WorldRuns(WorldStep(w, events[0]), events[1..]))
  }

  function WorldAfter(w: World, events: seq<WorldEvent>): World
    requires WorldRuns(w, events)
    decreases |events|
  {
    if events == [] then w else WorldAfter(WorldStep(w, events[0]), events[1..])
  }

  // The frames the publisher has been through.
  function Published(s: Stage): nat {
    |s.done| + if s.phase.Worked? || s.phase.Reported? then 1 else 0
  }

  ghost predicate WorldInv(w: World) {
    && Inv(w.sys) && ConnInv(w.conn)
    && Increasing(w.conn.delivered)
    && forall k :: 0 <= k < |w.conn.delivered| ==> w.conn.delivered[k] < Published(w.sys.stages[LastOf(w.sys)])
  }

  lemma PublishedGrows(s: System, e: Event)
    requires Inv(s) && Enabled(s, e)
    ensures var last := LastOf(s);
            && last == LastOf(Step(s, e))
            && Published(Step(s, e).stages[last]) >= Published(s.stages[last])
    ensures e == Work(LastOf(s)) ==>
              var last := LastOf(s);
              && s.stages[last].phase.frame == Published(s.stages[last])
              && Published(Step(s, e).stages[last]) == Published(s.stages[last]) + 1
  {
    assert StageOk(s, LastOf(s));
  }

  lemma PipelineStepKeepsInv(w: World, e: Event)
    requires WorldInv(w) && Enabled(w.sys, e)
    ensures WorldInv(w.(sys := Step(w.sys, e)))
  {
    StepKeepsInv(w.sys, e);
    PublishedGrows(w.sys, e);
  }

  lemma DeliverKeepsInv(w: World, f: Frame)
    requires WorldInv(w) && w.conn.subscribed && f + 1 == Published(w.sys.stages[LastOf(w.sys)])
    requires forall k :: 0 <= k < |w.conn.delivered| ==> w.conn.delivered[k] < f
    ensures WorldInv(w.(conn := ConnStep(w.conn, Deliver(f))))
  {
    ConnStepKeepsInv(w.conn, Deliver(f));
  }

  lemma PublishKeepsInv(w: World, encoded: bool)
    requires WorldInv(w) && WorldEnabled(w, Publish(encoded))
    ensures WorldInv(WorldStep(w, Publish(encoded)))
  {
    var work := Work(LastOf(w.sys));
    PipelineStepKeepsInv(w, work);
    PublishedGrows(w.sys, work);
    if encoded && w.conn.subscribed {
      DeliverKeepsInv(w.(sys := Step(w.sys, work)), w.sys.stages[LastOf(w.sys)].phase.frame);
    }
  }

  lemma KeepConn(w: World, d: Conn)
    requires WorldInv(w) && ConnInv(d) && d.delivered == w.conn.delivered
    ensures WorldInv(w.(conn := d))
  {
  }

  lemma ConnectionStepKeepsInv(w: World, e: ConnEvent)
    requires WorldInv(w) && ConnEnabled(w.conn, e) && !e.Deliver?
    ensures WorldInv(w.(conn := ConnStep(w.conn, e)))
  {
    var d := ConnStep(w.conn, e);
    ConnStepKeepsInv(w.conn, e);
    OnlyDeliverDelivers(w.conn, e);
    KeepConn(w, d);
  }

  lemma WorldStepKeepsInv(w: World, e: WorldEvent)
    requires WorldInv(w) && WorldEnabled(w, e)
    ensures WorldInv(WorldStep(w, e))
  {
    match e
    case InPipeline(pe) => PipelineStepKeepsInv(w, pe);
    case Publish(encoded) => PublishKeepsInv(w, encoded);
    case OnConnection(ce) => ConnectionStepKeepsInv(w, ce);
  }

  lemma {:induction false} WorldRunsKeepInv(w: World, events: seq<WorldEvent>)
    requires WorldInv(w) && WorldRuns(w, events)
    ensures WorldInv(WorldAfter(w, events))
    decreases |events|
  {
    if events != [] {
      WorldStepKeepsInv(w, events[0]);
      WorldRunsKeepInv(WorldStep(w, events[0]), events[1..]);
    }
  }

  lemma IncreasingPrefix(a: seq<int>, b: seq<int>)
    requires a <= b && Increasing(b)
    ensures Increasing(a)
  {
    forall i, j | 0 <= i < j < |a| ensures a[i] < a[j] {
      assert a[i] == b[i] && a[j] == b[j];
    }
  }

  lemma FramesPrefix(a: seq<Message>, b: seq<Message>)
    requires a <= b
    ensures Frames(a) <= Frames(b)
  {
    FramesAppend(a, b[|a|..]);
    assert a + b[|a|..] == b;
  }

  lemma {:induction false} PublishedBelowProduced(s: System, i: nat)
    requires Inv(s) && i < |s.stages|
    ensures Published(s.stages[i]) <= s.produced
    decreases i
  {
    assert StageOk(s, i);
    if i > 0 {
      PublishedBelowProduced(s, i - 1);
    }
  }

  lemma BelowIsSubsequence(frames: seq<int>, n: nat)
    requires Increasing(frames) && forall i :: 0 <= i < |frames| ==> 0 <= frames[i] < n
    ensures SubsequenceVia(frames, Range(0, n), frames)
  {
  }

  function Sent(w: World): seq<int> {
    Frames(w.conn.box.started)
  }

  lemma SentIsDelivered(w: World)
    requires WorldInv(w)
    ensures Sent(w) <= w.conn.delivered && Increasing(Sent(w))
    ensures w.conn.box.started != [] ==> w.conn.box.started[0] == Headers
  {
    InvMeansProtocol(w.conn);
    FramesPrefix(w.conn.box.started, w.conn.box.posted);
    IncreasingPrefix(Sent(w), w.conn.delivered);
  }

  lemma SentBelowProduced(w: World, i: nat)
    requires WorldInv(w) && i < |Sent(w)|
    ensures 0 <= Sent(w)[i] < w.sys.produced
  {
    SentIsDelivered(w);
    PublishedBelowProduced(w.sys, LastOf(w.sys));
    assert Sent(w)[i] == w.conn.delivered[i];
  }

  // For every number of elements, every interleaving, every time of subscription, every failure of a write and
  // every frame the publisher drops: the frames whose writes start on the connection are an in-order,
  // duplicate-free subsequence of the frames the camera made, and the header write goes before them.
  lemma CameraToSocket(elements: nat, milliseconds: nat, events: seq<WorldEvent>) returns (positions: seq<int>)
    requires elements > 0 && WorldRuns(World(Initial(elements, milliseconds), NEW_CONN), events)
    ensures var w := WorldAfter(World(Initial(elements, milliseconds), NEW_CONN), events);
            && SubsequenceVia(Frames(w.conn.box.started), Range(0, w.sys.produced), positions)
            && (w.conn.box.started != [] ==> w.conn.box.started[0] == Headers)
            && Frames(w.conn.box.started) <= w.conn.delivered
  {
    var w0 := World(Initial(elements, milliseconds), NEW_CONN);
    var w := WorldAfter(w0, events);
    InitialInv(elements, milliseconds);
    NewConnInv();
    WorldRunsKeepInv(w0, events);
    SentIsDelivered(w);
    positions := Sent(w);
    forall i | 0 <= i < |positions| ensures 0 <= positions[i] < w.sys.produced {
      SentBelowProduced(w, i);
    }
    BelowIsSubsequence(positions, w.sys.produced);
  }
}
