// The outbox write protocol of a stream connection (src/GUI/StreamConnection.cpp). The outbox doubles as the
// sign that a write is in flight; a placeholder stands in it for the header write made at the start.
// Handlers of the connection run one at a time, in order, on its strand; a completed write puts handle_write
// on the strand.
module StreamConnection {
  import opened PipelineRuns

  datatype Message = Headers | Image(frame: Frame)

  datatype Outbox = Outbox(
    queue: seq<Message>,        // outbox_
    inFlight: seq<Message>,     // writes started and not completed
    posted: seq<Message>,       // all messages put into the outbox, in order
    started: seq<Message>)      // all writes started, in order

  function Write(b: Outbox, m: Message): Outbox {
    b.(inFlight := b.inFlight + [m], started := b.started + [m])
  }

  function WriteNext(b: Outbox): Outbox {
    if b.queue != [] then Write(b, b.queue[0]) else b
  }

  function Post(b: Outbox, m: Message): Outbox {
    b.(queue := b.queue + [m], posted := b.posted + [m])
  }

  // addToOutbox
  function Added(b: Outbox, m: Message): Outbox {
    if |b.queue| + 1 > 1 then Post(b, m) else WriteNext(Post(b, m))
  }

  function Popped(b: Outbox): Outbox {
    if b.queue != [] then b.(queue := b.queue[1..]) else b
  }

  // handle_write
  function Written(b: Outbox, ok: bool): Outbox {
    if ok then WriteNext(Popped(b)) else Popped(b)
  }

  datatype Handler = SendFrame(frame: Frame) | AddToOutbox(frame: Frame) | HandleWrite(ok: bool)

  datatype Conn = Conn(
    begun: bool,                // sendInitialHeaders was called
    signalled: bool,            // connectToSignal was called
    subscribed: bool,           // and not disconnected since
    box: Outbox,
    strand: seq<Handler>,
    delivered: seq<Frame>,      // all frames the signal brought, in order
    failed: bool,               // a write failed
    missed: bool)               // handle_write met an empty outbox

  const NEW_CONN := Conn(false, false, false, Outbox([], [], [], []), [], [], false, false)

  function Handled(c: Conn, h: Handler): Conn {
    match h
    case SendFrame(f) => c.(strand := c.strand + [AddToOutbox(f)])
    case AddToOutbox(f) => c.(box := Added(c.box, Image(f)))
    case HandleWrite(ok) =>
      c.(box := Written(c.box, ok), missed := c.missed || c.box.queue == [],
         subscribed := c.subscribed && ok, failed := c.failed || !ok)
  }

  datatype ConnEvent = Open | Subscribe | Deliver(frame: Frame) | Complete(ok: bool) | RunHandler

  predicate ConnEnabled(c: Conn, e: ConnEvent) {
    match e
    case Open => !c.begun
    case Subscribe => c.begun && !c.signalled
    case Deliver(_) => c.subscribed
    case Complete(_) => c.box.inFlight != []
    case RunHandler => c.strand != []
  }

  function ConnStep(c: Conn, e: ConnEvent): Conn
    requires ConnEnabled(c, e)
  {
    match e
    case Open => c.(begun := true, box := Write(Post(c.box, Headers), Headers))
    case Subscribe => c.(signalled := true, subscribed := true)
    case Deliver(f) => c.(strand := c.strand + [SendFrame(f)], delivered := c.delivered + [f])
    case Complete(ok) => c.(box := c.box.(inFlight := c.box.inFlight[1..]), strand := c.strand + [HandleWrite(ok)])
    case RunHandler => Handled(c.(strand := c.strand[1..]), c.strand[0])
  }

  predicate ConnRuns(c: Conn, events: seq<ConnEvent>)
    decreases |events|
  {
    events == [] || (ConnEnabled(c, events[0]) && ConnRuns(ConnStep(c, events[0]), events[1..]))
  }

  function ConnAfter(c: Conn, events: seq<ConnEvent>): Conn
    requires ConnRuns(c, events)
    decreases |events|
  {
    if events == [] then c else ConnAfter(ConnStep(c, events[0]), events[1..])
  }

  // ---- The outbox ----

  // The writes started are the messages taken out of the queue, then the one outstanding: its head.
  // `completions` counts the writes completed whose handle_write has not run.
  ghost predicate InOrder(b: Outbox, completions: nat) {
    var outstanding, taken := |b.inFlight| + completions, |b.posted| - |b.queue|;
    && outstanding <= 1
    && (outstanding == 1 ==> b.queue != [])
    && (b.inFlight != [] ==> b.queue != [] && b.inFlight == [b.queue[0]])
    && taken >= 0 && b.queue == b.posted[taken..]
    && b.started == b.posted[..taken + outstanding]
  }

  ghost predicate HeadersFirst(posted: seq<Message>) {
    && (posted != [] ==> posted[0] == Headers)
    && forall k :: 1 <= k < |posted| ==> posted[k].Image?
  }

  lemma AddKeepsOrder(b: Outbox, completions: nat, m: Message)
    requires InOrder(b, completions)
    ensures var d := Added(b, m);
            && InOrder(d, completions) && d.posted == b.posted + [m] && d.queue != []
            && (b.queue == [] || |b.inFlight| + completions == 1 ==> |d.inFlight| + completions == 1)
  {
    var taken := |b.posted| - |b.queue|;
    assert (b.posted + [m])[taken..] == b.posted[taken..] + [m];
    if b.queue == [] {
      assert b.posted[..taken] == b.posted && (b.posted + [m])[..taken + 1] == b.posted + [m];
    }
  }

  lemma WrittenKeepsOrder(b: Outbox, ok: bool)
    requires InOrder(b, 1)
    ensures var d := Written(b, ok);
            && b.queue != [] && b.inFlight == [] && InOrder(d, 0) && d.posted == b.posted && d.queue == b.queue[1..]
            && (d.queue != [] && |d.inFlight| == 0 <==> !ok && |b.queue| > 1)
  {
    var taken := |b.posted| - |b.queue|;
    assert b.posted[taken..][1..] == b.posted[taken + 1..];
    if |b.queue| > 1 {
      assert b.queue[1] == b.posted[taken + 1];
      assert b.posted[..taken + 1] + [b.posted[taken + 1]] == b.posted[..taken + 2];
    }
  }

  // ---- What is on the strand ----

  function Frames(messages: seq<Message>): seq<Frame> {
    if messages == [] then []
    else (if messages[0].Image? then [messages[0].frame] else []) + Frames(messages[1..])
  }

  function Completions(strand: seq<Handler>): nat {
    if strand == [] then 0 else (if strand[0].HandleWrite? then 1 else 0) + Completions(strand[1..])
  }

  function Adds(strand: seq<Handler>): seq<Frame> {
    if strand == [] then []
    else (if strand[0].AddToOutbox? then [strand[0].frame] else []) + Adds(strand[1..])
  }

  function Sends(strand: seq<Handler>): seq<Frame> {
    if strand == [] then []
    else (if strand[0].SendFrame? then [strand[0].frame] else []) + Sends(strand[1..])
  }

  lemma {:induction false} FramesAppend(a: seq<Message>, b: seq<Message>)
    ensures Frames(a + b) == Frames(a) + Frames(b)
  {
    if a == [] {
      assert a + b == b;
    } else {
      assert (a + b)[1..] == a[1..] + b && (a + b)[0] == a[0];
      FramesAppend(a[1..], b);
    }
  }

  lemma {:induction false} CompletionsAppend(a: seq<Handler>, h: Handler)
    ensures Completions(a + [h]) == Completions(a) + if h.HandleWrite? then 1 else 0
  {
    if a == [] {
      assert a + [h] == [h];
    } else {
      assert (a + [h])[1..] == a[1..] + [h] && (a + [h])[0] == a[0];
      CompletionsAppend(a[1..], h);
    }
  }

  lemma {:induction false} WaitingAppend(a: seq<Handler>, h: Handler)
    ensures Adds(a + [h]) == Adds(a) + if h.AddToOutbox? then [h.frame] else []
    ensures Sends(a + [h]) == Sends(a) + if h.SendFrame? then [h.frame] else []
  {
    if a == [] {
      assert a + [h] == [h];
    } else {
      assert (a + [h])[1..] == a[1..] + [h] && (a + [h])[0] == a[0];
      WaitingAppend(a[1..], h);
    }
  }

  // The frames delivered are those posted, those about to be added, and those about to be sent, in this order.
  ghost predicate FramesInOrder(delivered: seq<Frame>, posted: seq<Message>, strand: seq<Handler>) {
    delivered == Frames(posted) + Adds(strand) + Sends(strand)
  }

  lemma DeliverKeepsFrames(delivered: seq<Frame>, posted: seq<Message>, strand: seq<Handler>, f: Frame)
    requires FramesInOrder(delivered, posted, strand)
    ensures FramesInOrder(delivered + [f], posted, strand + [SendFrame(f)])
  {
    WaitingAppend(strand, SendFrame(f));
  }

  lemma CompleteKeepsFrames(delivered: seq<Frame>, posted: seq<Message>, strand: seq<Handler>, ok: bool)
    requires FramesInOrder(delivered, posted, strand)
    ensures FramesInOrder(delivered, posted, strand + [HandleWrite(ok)])
  {
    WaitingAppend(strand, HandleWrite(ok));
  }

  lemma HandlerKeepsFrames(delivered: seq<Frame>, posted: seq<Message>, strand: seq<Handler>)
    requires FramesInOrder(delivered, posted, strand) && strand != []
    ensures match strand[0]
            case SendFrame(f) => FramesInOrder(delivered, posted, strand[1..] + [AddToOutbox(f)])
            case AddToOutbox(f) => FramesInOrder(delivered, posted + [Image(f)], strand[1..])
            case HandleWrite(_) => FramesInOrder(delivered, posted, strand[1..])
  {
    match strand[0]
    case SendFrame(f) => WaitingAppend(strand[1..], AddToOutbox(f));
    case AddToOutbox(f) => FramesAppend(posted, [Image(f)]);
    case HandleWrite(_) =>
  }

  // ---- The invariant ----

  // Writes started whose handle_write has not run.
  function Outstanding(c: Conn): nat {
    |c.box.inFlight| + Completions(c.strand)
  }

  ghost predicate ConnInv(c: Conn) {
    && InOrder(c.box, Completions(c.strand))
    && HeadersFirst(c.box.posted)
    && FramesInOrder(c.delivered, c.box.posted, c.strand)
    && (if c.begun then c.box.posted != [] else c.box.posted == [] && c.strand == [] && !c.subscribed)
    && (!c.failed ==> (c.box.queue != [] <==> Outstanding(c) == 1))
    && !c.missed
  }

  lemma OpenKeepsInv(c: Conn)
    requires ConnInv(c) && ConnEnabled(c, Open)
    ensures ConnInv(ConnStep(c, Open))
  {
    FirstPost(c.box);
  }

  lemma FirstPost(b: Outbox)
    requires InOrder(b, 0) && b.posted == []
    ensures var d := Write(Post(b, Headers), Headers);
            && InOrder(d, 0) && d.queue == [Headers] && d.inFlight == [Headers] && d.posted == [Headers]
            && Frames(d.posted) == []
  {
    assert b.queue == [] && b.inFlight == [] && b.started == [];
    assert [Headers][..1] == [Headers];
  }

  lemma RunSendKeepsInv(c: Conn)
    requires ConnInv(c) && c.strand != [] && c.strand[0].SendFrame?
    ensures ConnInv(ConnStep(c, RunHandler))
  {
    HandlerKeepsFrames(c.delivered, c.box.posted, c.strand);
    CompletionsAppend(c.strand[1..], AddToOutbox(c.strand[0].frame));
  }

  lemma OneMoreImage(posted: seq<Message>, f: Frame)
    requires HeadersFirst(posted) && posted != []
    ensures HeadersFirst(posted + [Image(f)])
  {
  }

  lemma RunAddKeepsInv(c: Conn)
    requires ConnInv(c) && c.strand != [] && c.strand[0].AddToOutbox?
    ensures ConnInv(ConnStep(c, RunHandler))
  {
    var m, rest := Image(c.strand[0].frame), c.strand[1..];
    assert ConnStep(c, RunHandler) == c.(box := Added(c.box, m), strand := rest);
    assert Completions(rest) == Completions(c.strand);
    HandlerKeepsFrames(c.delivered, c.box.posted, c.strand);
    AddKeepsOrder(c.box, Completions(rest), m);
    OneMoreImage(c.box.posted, m.frame);
  }

  lemma RunWriteKeepsInv(c: Conn)
    requires ConnInv(c) && c.strand != [] && c.strand[0].HandleWrite?
    ensures ConnInv(ConnStep(c, RunHandler))
  {
    HandlerKeepsFrames(c.delivered, c.box.posted, c.strand);
    assert Completions(c.strand) == 1 && Completions(c.strand[1..]) == 0;
    WrittenKeepsOrder(c.box, c.strand[0].ok);
  }

  lemma ConnStepKeepsInv(c: Conn, e: ConnEvent)
    requires ConnInv(c) && ConnEnabled(c, e)
    ensures ConnInv(ConnStep(c, e))
  {
    match e
    case Open => OpenKeepsInv(c);
    case Subscribe =>
    case Deliver(f) =>
      DeliverKeepsFrames(c.delivered, c.box.posted, c.strand, f);
      CompletionsAppend(c.strand, SendFrame(f));
    case Complete(ok) =>
      CompleteKeepsFrames(c.delivered, c.box.posted, c.strand, ok);
      CompletionsAppend(c.strand, HandleWrite(ok));
    case RunHandler =>
      match c.strand[0]
      case SendFrame(_) => RunSendKeepsInv(c);
      case AddToOutbox(_) => RunAddKeepsInv(c);
      case HandleWrite(_) => RunWriteKeepsInv(c);
  }

  lemma OnlyDeliverDelivers(c: Conn, e: ConnEvent)
    requires ConnEnabled(c, e) && !e.Deliver?
    ensures ConnStep(c, e).delivered == c.delivered
  {
  }

  lemma {:induction false} ConnRunsKeepInv(c: Conn, events: seq<ConnEvent>)
    requires ConnInv(c) && ConnRuns(c, events)
    ensures ConnInv(ConnAfter(c, events))
    decreases |events|
  {
    if events != [] {
      ConnStepKeepsInv(c, events[0]);
      ConnRunsKeepInv(ConnStep(c, events[0]), events[1..]);
    }
  }

  // At most one write is in flight and it is the head of the outbox; handle_write never met an empty outbox; the
  // writes started are a prefix of the messages posted, the header write first; a message waits only behind an
  // outstanding write, unless one has failed; and frames were posted in the order they were delivered.
  ghost predicate ProtocolKept(c: Conn) {
    var b := c.box;
    && |b.inFlight| <= 1 && (b.inFlight != [] ==> b.queue != [] && b.inFlight[0] == b.queue[0])
    && !c.missed
    && b.started <= b.posted && (b.started != [] ==> b.started[0] == Headers)
    && (!c.failed ==> (b.queue != [] <==> Outstanding(c) == 1))
    && Frames(b.posted) <= c.delivered
  }

  lemma InvMeansProtocol(c: Conn)
    requires ConnInv(c)
    ensures ProtocolKept(c)
  {
  }

  lemma NewConnInv()
    ensures ConnInv(NEW_CONN)
  {
    assert InOrder(NEW_CONN.box, 0) && HeadersFirst([]);
    assert Frames([]) + Adds([]) + Sends([]) == [];
  }

  // In every run, whether writes succeed or fail and whenever frames come in.
  lemma WriteProtocol(events: seq<ConnEvent>)
    requires ConnRuns(NEW_CONN, events)
    ensures ProtocolKept(ConnAfter(NEW_CONN, events))
  {
    NewConnInv();
    ConnRunsKeepInv(NEW_CONN, events);
    InvMeansProtocol(ConnAfter(NEW_CONN, events));
  }

  // ---- After a failed write ----

  // Messages wait, but no write is outstanding whose completion would start the next one.
  predicate Stalled(c: Conn) {
    c.box.queue != [] && Outstanding(c) == 0
  }

  // Running handle_write stalls the connection exactly when the write failed with another message behind it.
  lemma FailureStallsIff(c: Conn, ok: bool)
    requires ConnInv(c) && c.strand != [] && c.strand[0] == HandleWrite(ok)
    ensures Stalled(ConnStep(c, RunHandler)) <==> !ok && |c.box.queue| > 1
  {
    assert Completions(c.strand) == 1 && Completions(c.strand[1..]) == 0;
    WrittenKeepsOrder(c.box, ok);
  }

  // No other step stalls it.
  lemma StepStallsIff(c: Conn, e: ConnEvent)
    requires ConnInv(c) && !Stalled(c) && ConnEnabled(c, e)
    ensures Stalled(ConnStep(c, e)) <==> e == RunHandler && c.strand[0] == HandleWrite(false) && |c.box.queue| > 1
  {
    match e
    case Open => FirstPost(c.box);
    case Subscribe =>
    case Deliver(f) => CompletionsAppend(c.strand, SendFrame(f));
    case Complete(ok) => CompletionsAppend(c.strand, HandleWrite(ok));
    case RunHandler =>
      match c.strand[0]
      case SendFrame(f) => CompletionsAppend(c.strand[1..], AddToOutbox(f));
      case AddToOutbox(f) => AddKeepsOrder(c.box, Completions(c.strand), Image(f));
      case HandleWrite(ok) => FailureStallsIff(c, ok);
  }

  lemma StalledStep(c: Conn, e: ConnEvent)
    requires ConnInv(c) && Stalled(c) && ConnEnabled(c, e)
    ensures Stalled(ConnStep(c, e)) && ConnStep(c, e).box.started == c.box.started
  {
    match e
    case Deliver(f) => CompletionsAppend(c.strand, SendFrame(f));
    case RunHandler =>
      if c.strand[0].SendFrame? {
        CompletionsAppend(c.strand[1..], AddToOutbox(c.strand[0].frame));
      }
    case _ =>
  }

  // From then on nothing is written any more, although messages may still be added.
  lemma {:induction false} StalledForGood(c: Conn, events: seq<ConnEvent>)
    requires ConnInv(c) && Stalled(c) && ConnRuns(c, events)
    ensures Stalled(ConnAfter(c, events)) && ConnAfter(c, events).box.started == c.box.started
    decreases |events|
  {
    if events != [] {
      StalledStep(c, events[0]);
      ConnStepKeepsInv(c, events[0]);
      StalledForGood(ConnStep(c, events[0]), events[1..]);
    }
  }

  // After a failure a write is still started on the closed socket exactly when addToOutbox meets an empty outbox, or
  // when such a write succeeds with more behind it. The frame added may have been under way when the write failed, or
  // come from a subscription made afterwards.
  lemma WritesAfterFailureIff(c: Conn, e: ConnEvent)
    requires ConnInv(c) && c.failed && c.begun && ConnEnabled(c, e)
    ensures ConnStep(c, e).box.started != c.box.started <==>
            && e == RunHandler
            && match c.strand[0]
               case SendFrame(_) => false
               case AddToOutbox(_) => c.box.queue == []
               case HandleWrite(ok) => ok && |c.box.queue| > 1
  {
    assert forall m :: c.box.started + [m] != c.box.started;
    if e == RunHandler && c.strand[0].HandleWrite? {
      assert Completions(c.strand) == 1 && Completions(c.strand[1..]) == 0;
      WrittenKeepsOrder(c.box, c.strand[0].ok);
    }
  }

  ghost predicate ConnPath(states: seq<Conn>, events: seq<ConnEvent>) {
    && |states| == |events| + 1
    && forall k :: 0 <= k < |events| ==>
         ConnEnabled(states[k], events[k]) && states[k + 1] == ConnStep(states[k], events[k])
  }

  lemma {:induction false} ConnPathIsRun(states: seq<Conn>, events: seq<ConnEvent>)
    requires ConnPath(states, events)
    ensures ConnRuns(states[0], events) && ConnAfter(states[0], events) == states[|events|]
    decreases |events|
  {
    if events != [] {
      ConnPathIsRun(states[1..], events[1..]);
    }
  }

  // Both happen: the header write fails behind which a frame waits ...
  lemma StallHappens(f: Frame)
    ensures var events := [Open, Subscribe, Deliver(f), RunHandler, RunHandler, Complete(false), RunHandler];
            ConnRuns(NEW_CONN, events) && Stalled(ConnAfter(NEW_CONN, events))
  {
    var c0 := NEW_CONN;
    var c1 := ConnStep(c0, Open);
    var c2 := ConnStep(c1, Subscribe);
    var c3 := ConnStep(c2, Deliver(f));
    var c4 := ConnStep(c3, RunHandler);
    var c5 := ConnStep(c4, RunHandler);
    var c6 := ConnStep(c5, Complete(false));
    var c7 := ConnStep(c6, RunHandler);
    ConnPathIsRun([c0, c1, c2, c3, c4, c5, c6, c7],
                  [Open, Subscribe, Deliver(f), RunHandler, RunHandler, Complete(false), RunHandler]);
  }

  // ... or it fails before the frame is added, which is then written on the closed socket.
  lemma WriteAfterFailureHappens(f: Frame)
    ensures var events := [Open, Subscribe, Deliver(f), Complete(false), RunHandler, RunHandler, RunHandler];
            ConnRuns(NEW_CONN, events) && ConnAfter(NEW_CONN, events).failed
            && ConnAfter(NEW_CONN, events).box.inFlight == [Image(f)]
  {
    var c0 := NEW_CONN;
    var c1 := ConnStep(c0, Open);
    var c2 := ConnStep(c1, Subscribe);
    var c3 := ConnStep(c2, Deliver(f));
    var c4 := ConnStep(c3, Complete(false));
    var c5 := ConnStep(c4, RunHandler);
    var c6 := ConnStep(c5, RunHandler);
    var c7 := ConnStep(c6, RunHandler);
    ConnPathIsRun([c0, c1, c2, c3, c4, c5, c6, c7],
                  [Open, Subscribe, Deliver(f), Complete(false), RunHandler, RunHandler, RunHandler]);
  }

  // A failure ends the subscription there is; the connection is failed and subscribed only if it subscribes afterwards.
  lemma FailedAndSubscribedIff(c: Conn, e: ConnEvent)
    requires !(c.failed && c.subscribed) && ConnEnabled(c, e)
    ensures ConnStep(c, e).failed && ConnStep(c, e).subscribed <==> e == Subscribe && c.failed
  {
  }

  // That happens when the header write fails before connectToSignal: frames are then brought to a failed connection.
  lemma SubscribedAfterFailureHappens(f: Frame)
    ensures var events := [Open, Complete(false), RunHandler, Subscribe, Deliver(f)];
            ConnRuns(NEW_CONN, events) && ConnAfter(NEW_CONN, events).failed
            && ConnAfter(NEW_CONN, events).subscribed && ConnAfter(NEW_CONN, events).delivered == [f]
  {
    var c0 := NEW_CONN;
    var c1 := ConnStep(c0, Open);
    var c2 := ConnStep(c1, Complete(false));
    var c3 := ConnStep(c2, RunHandler);
    var c4 := ConnStep(c3, Subscribe);
    var c5 := ConnStep(c4, Deliver(f));
    ConnPathIsRun([c0, c1, c2, c3, c4, c5], [Open, Complete(false), RunHandler, Subscribe, Deliver(f)]);
  }

  // ---- Without a failure ----

  predicate Quiet(c: Conn) {
    c.strand == [] && c.box.inFlight == []
  }

  lemma QuietMeansWritten(c: Conn)
    requires ConnInv(c) && !c.failed && Quiet(c)
    ensures c.box.started == c.box.posted && Frames(c.box.started) == c.delivered
  {
  }

  // Nothing is lost: once the strand is empty and no write is in flight, every message posted has been written, and
  // the frames written are all those the signal brought.
  lemma NothingLost(events: seq<ConnEvent>)
    requires ConnRuns(NEW_CONN, events)
    ensures var c := ConnAfter(NEW_CONN, events);
            !c.failed && Quiet(c) ==> c.box.started == c.box.posted && Frames(c.box.started) == c.delivered
  {
    NewConnInv();
    ConnRunsKeepInv(NEW_CONN, events);
    var c := ConnAfter(NEW_CONN, events);
    if !c.failed && Quiet(c) {
      QuietMeansWritten(c);
    }
  }

  // ---- The object ----

  class StreamConnection {
    var begun: bool
    var signalled: bool
    var subscribed: bool
    var outbox: seq<Message>
    var inFlight: seq<Message>
    var strand: seq<Handler>
    ghost var posted: seq<Message>
    ghost var started: seq<Message>
    ghost var delivered: seq<Frame>
    ghost var failed: bool
    ghost var missed: bool

    constructor ()
      ensures View() == NEW_CONN
    {
      begun, signalled, subscribed, outbox, inFlight, strand := false, false, false, [], [], [];
      posted, started, delivered, failed, missed := [], [], [], false, false;
    }

    ghost function View(): Conn
      reads this
    {
      Conn(begun, signalled, subscribed, Box(), strand, delivered, failed, missed)
    }

    ghost function Box(): Outbox
      reads this`outbox, this`inFlight, this`posted, this`started
    {
      Outbox(outbox, inFlight, posted, started)
    }

    // async_write
    method AsyncWrite(m: Message)
      modifies this`inFlight, this`started
      ensures Box() == Write(old(Box()), m)
    {
      inFlight := inFlight + [m];
      started := started + [m];
    }

    method Start()
      requires View() == NEW_CONN
      modifies this
      ensures View() == ConnStep(ConnStep(NEW_CONN, Open), Subscribe)
    {
      SendInitialHeaders();
      signalled, subscribed := true, true;
    }

    method SendInitialHeaders()
      requires ConnEnabled(View(), Open)
      modifies this`outbox, this`posted, this`inFlight, this`started, this`begun
      ensures View() == ConnStep(old(View()), Open)
    {
      outbox, posted := outbox + [Headers], posted + [Headers];
      AsyncWrite(Headers);
      begun := true;
    }

    method SendFrame(image: Frame)
      modifies this`strand
      ensures View() == Handled(old(View()), Handler.SendFrame(image))
    {
      strand := strand + [Handler.AddToOutbox(image)];
    }

    method AddToOutbox(image: Frame)
      modifies this`outbox, this`posted, this`inFlight, this`started
      ensures View() == Handled(old(View()), Handler.AddToOutbox(image))
    {
      var m := Image(image);
      outbox, posted := outbox + [m], posted + [m];
      if |outbox| > 1 {
        return;
      }
      WriteNextMessage();
    }

    method WriteNextMessage()
      modifies this`inFlight, this`started
      ensures Box() == WriteNext(old(Box()))
    {
      if outbox != [] {
        AsyncWrite(outbox[0]);
      }
    }

    method HandleWrite(ok: bool)
      modifies this`outbox, this`inFlight, this`started, this`subscribed, this`failed, this`missed
      ensures View() == Handled(old(View()), Handler.HandleWrite(ok))
    {
      if outbox != [] {
        outbox := outbox[1..];
      } else {
        missed := true;
      }
      if !ok {
        subscribed, failed := false, true;
        return;
      }
      if outbox != [] {
        WriteNextMessage();
      }
    }

    // The strand runs the handler at its front.
    method RunFront()
      requires ConnEnabled(View(), RunHandler)
      modifies this
      ensures View() == ConnStep(old(View()), RunHandler)
    {
      var h := strand[0];
      strand := strand[1..];
      match h {
        case SendFrame(f) => SendFrame(f);
        case AddToOutbox(f) => AddToOutbox(f);
        case HandleWrite(ok) => HandleWrite(ok);
      }
    }
  }
}
