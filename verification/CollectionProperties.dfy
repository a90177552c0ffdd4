// collect_stats when nothing comes between the steps of one collection (src/Pipeline/Pipeline.h): how many rows
// it writes, what it leaves, and how long the backlog of the last time stats queue can get over any run.
module CollectionProperties {
  import opened Common
  import opened TimedWork
  import opened PipelineRuns

  function LastStage(s: System): Stage
    requires s.stages != []
  {
    s.stages[|s.stages| - 1]
  }

  function Backlog(s: System): nat
    requires s.stages != []
  {
    |LastStage(s).stats|
  }

  predicate OfCollector(e: Event) {
    e == CollectStart || e == CollectCheck || e == CollectPop
  }

  ghost predicate ChecksAndPops(events: seq<Event>) {
    forall k :: 0 <= k < |events| ==> events[k] == CollectCheck || events[k] == CollectPop
  }

  // One collection from its start to its end.
  ghost predicate Collection(s: System, events: seq<Event>) {
    && Runs(s, events) && events != [] && events[0] == CollectStart && ChecksAndPops(events[1..])
    && After(s, events).collector == Resting
  }

  // ---- Within a collection ----

  // The loop counter never gets past the middle: every round raises it and shortens the queue it is compared with.
  predicate Midway(s: System)
    requires s.stages != []
  {
    match s.collector
    case Resting => false
    case Checking(i) => i <= Backlog(s) + 1
    case Popping(i, _) => i < Backlog(s)
  }

  lemma CollectionStep(s: System, e: Event)
    requires Inv(s) && Midway(s) && Enabled(s, e) && (e == CollectCheck || e == CollectPop)
    ensures var t := Step(s, e);
            && t.stages != [] && t.pump == s.pump && t.produced == s.produced
            && Emplaced(LastStage(t)) == Emplaced(LastStage(s))
            && if t.collector == Resting then
                 t.rows == s.rows && Backlog(t) == Backlog(s) && Backlog(s) <= s.collector.i
               else
                 && Midway(t) && t.collector.i + Backlog(t) == s.collector.i + Backlog(s)
                 && |t.rows| - t.collector.i == |s.rows| - s.collector.i
  {
    if e == CollectPop {
      PopEntry(s);
    }
  }

  lemma {:induction false} CollectionEnds(s: System, events: seq<Event>)
    requires Inv(s) && Midway(s) && Runs(s, events) && ChecksAndPops(events) && After(s, events).collector == Resting
    ensures var t, n := After(s, events), s.collector.i + Backlog(s);
            && t.stages != [] && t.pump == s.pump && t.produced == s.produced
            && Emplaced(LastStage(t)) == Emplaced(LastStage(s))
            && Backlog(t) == n / 2 && |t.rows| == |s.rows| - s.collector.i + (n + 1) / 2
    decreases |events|
  {
    var t := Step(s, events[0]);
    CollectionStep(s, events[0]);
    StepKeepsInv(s, events[0]);
    if t.collector == Resting {
      assert events[1..] == [];
    } else {
      CollectionEnds(t, events[1..]);
    }
  }

  // Of n entries in the last queue, a collection at once takes (n + 1) / 2, each in one row, and leaves the others.
  lemma CollectionAtOnce(s: System, events: seq<Event>)
    requires Inv(s) && s.collector == Resting && Collection(s, events)
    ensures var t, n := After(s, events), Backlog(s);
            && Inv(t) && t.pump == s.pump && t.produced == s.produced
            && Emplaced(LastStage(t)) == Emplaced(LastStage(s))
            && Backlog(t) == n / 2 && |t.rows| == |s.rows| + (n + 1) / 2
  {
    RunsKeepInv(s, events);
    StepKeepsInv(s, CollectStart);
    CollectionEnds(Step(s, CollectStart), events[1..]);
  }

  // ---- The rows ----

  // The time stats queues side by side.
  function StatsOf(s: System): (queues: seq<seq<Frame>>)
    ensures |queues| == |s.stages| && forall k :: 0 <= k < |queues| ==> queues[k] == s.stages[k].stats
  {
    seq(|s.stages|, k requires 0 <= k < |s.stages| => s.stages[k].stats)
  }

  ghost predicate LongEnough(queues: seq<seq<Frame>>, n: nat) {
    forall k :: 0 <= k < |queues| ==> |queues[k]| >= n
  }

  // The entries at position r.
  ghost function RowAt(queues: seq<seq<Frame>>, r: nat): (row: seq<Frame>)
    requires LongEnough(queues, r + 1)
    ensures |row| == |queues| && forall k :: 0 <= k < |row| ==> row[k] == queues[k][r]
  {
    seq(|queues|, k requires 0 <= k < |queues| => queues[k][r])
  }

  ghost function Dropped(queues: seq<seq<Frame>>, n: nat): (rest: seq<seq<Frame>>)
    requires LongEnough(queues, n)
    ensures |rest| == |queues| && forall k :: 0 <= k < |rest| ==> rest[k] == queues[k][n..]
  {
    seq(|queues|, k requires 0 <= k < |queues| => queues[k][n..])
  }

  ghost predicate RowsFrom(queues: seq<seq<Frame>>, rows: seq<seq<Frame>>) {
    LongEnough(queues, |rows|) && forall r :: 0 <= r < |rows| ==> rows[r] == RowAt(queues, r)
  }

  lemma StatsAt(s: System, k: nat)
    requires Inv(s) && s.collector == Resting && k < |s.stages|
    ensures |s.rows| <= Emplaced(s.stages[k]) && s.stages[k].stats == Range(|s.rows|, Emplaced(s.stages[k]))
    ensures |s.stages[k].stats| >= Backlog(s)
  {
    var n := |s.stages|;
    assert StageOk(s, k) && StageOk(s, n - 1);
    EmplacedFalls(s, k, n - 1);
  }

  lemma RowsGrow(s: System, events: seq<Event>)
    requires Runs(s, events)
    ensures s.rows <= After(s, events).rows && |After(s, events).stages| == |s.stages|
    decreases |events|
  {
    if events != [] {
      assert s.rows <= Step(s, events[0]).rows && |Step(s, events[0]).stages| == |s.stages|;
      RowsGrow(Step(s, events[0]), events[1..]);
    }
  }

  // A collector's step reports no times.
  lemma {:induction false} NothingEmplaced(s: System, events: seq<Event>, k: nat)
    requires Inv(s) && Runs(s, events) && k < |s.stages| && forall j :: 0 <= j < |events| ==> OfCollector(events[j])
    ensures k < |After(s, events).stages| && Emplaced(After(s, events).stages[k]) == Emplaced(s.stages[k])
    decreases |events|
  {
    if events != [] {
      StepKeepsInv(s, events[0]);
      NothingEmplaced(Step(s, events[0]), events[1..], k);
    }
  }

  lemma QueueAfter(s: System, events: seq<Event>, k: nat, taken: nat)
    requires Inv(s) && s.collector == Resting && Collection(s, events) && k < |s.stages|
    requires |After(s, events).rows| == |s.rows| + taken && taken == (Backlog(s) + 1) / 2
    ensures k < |After(s, events).stages| && |s.stages[k].stats| >= taken
    ensures After(s, events).stages[k].stats == s.stages[k].stats[taken..]
  {
    CollectionAtOnce(s, events);
    NothingEmplaced(s, events, k);
    StatsAt(s, k);
    StatsAt(After(s, events), k);
  }

  lemma RowAfter(s: System, r: nat)
    requires Inv(s) && s.collector == Resting && LongEnough(StatsOf(s), r + 1)
    ensures RowAt(StatsOf(s), r) == Repeat(|s.rows| + r, |s.stages|)
  {
    forall k | 0 <= k < |s.stages| ensures RowAt(StatsOf(s), r)[k] == |s.rows| + r {
      StatsAt(s, k);
    }
  }

  lemma QueuesAfter(s: System, events: seq<Event>, taken: nat)
    requires Inv(s) && s.collector == Resting && Collection(s, events)
    requires |After(s, events).rows| == |s.rows| + taken && taken == (Backlog(s) + 1) / 2
    ensures LongEnough(StatsOf(s), taken) && StatsOf(After(s, events)) == Dropped(StatsOf(s), taken)
  {
    var t, q := After(s, events), StatsOf(s);
    RowsGrow(s, events);
    forall k | 0 <= k < |q| ensures |q[k]| >= taken && StatsOf(t)[k] == q[k][taken..] {
      QueueAfter(s, events, k, taken);
    }
  }

  lemma RowsAre(s: System, t: System, written: seq<seq<Frame>>)
    requires Inv(s) && s.collector == Resting && LongEnough(StatsOf(s), |written|)
    requires t.rows == s.rows + written
    requires forall r :: 0 <= r < |t.rows| ==> t.rows[r] == Repeat(r, |s.stages|)
    ensures RowsFrom(StatsOf(s), written)
  {
    forall r | 0 <= r < |written| ensures written[r] == RowAt(StatsOf(s), r) {
      RowAfter(s, r);
      assert written[r] == t.rows[|s.rows| + r];
    }
  }

  // The rows are written[r]: entry r of every queue. Half the last queue, rounded up, and just these entries are taken.
  ghost predicate Writes(s: System, events: seq<Event>, written: seq<seq<Frame>>) {
    && Collection(s, events) && s.stages != [] && |written| == (Backlog(s) + 1) / 2
    && RowsFrom(StatsOf(s), written)
    && After(s, events).rows == s.rows + written
    && StatsOf(After(s, events)) == Dropped(StatsOf(s), |written|)
  }

  lemma CollectionWrites(s: System, events: seq<Event>, written: seq<seq<Frame>>)
    requires Inv(s) && s.collector == Resting && Collection(s, events) && After(s, events).rows == s.rows + written
    ensures Writes(s, events, written)
  {
    CollectionAtOnce(s, events);
    RowsGrow(s, events);
    QueuesAfter(s, events, |written|);
    RowsAre(s, After(s, events), written);
  }

  // A collection that has begun can always be finished at once, whatever came in between so far.
  lemma {:induction false} CanBeFinished(s: System) returns (events: seq<Event>)
    requires Inv(s) && s.collector != Resting
    ensures Runs(s, events) && ChecksAndPops(events) && After(s, events).collector == Resting
    decreases Backlog(s), if s.collector.Checking? then |s.stages| + 1 else |s.stages| - |s.collector.row|
  {
    var e := if s.collector.Checking? then CollectCheck else CollectPop;
    var t := Step(s, e);
    StepKeepsInv(s, e);
    if e == CollectPop {
      PopEntry(s);
    }
    var more := [];
    if t.collector != Resting {
      more := CanBeFinished(t);
    }
    events := [e] + more;
    assert events[1..] == more;
  }

  // So in every run, however the elements go on meanwhile, a collection can be ended.
  lemma EveryCollectionCanEnd(elements: nat, milliseconds: nat, events: seq<Event>) returns (ending: seq<Event>)
    requires elements > 0 && Runs(Initial(elements, milliseconds), events)
    ensures var s := After(Initial(elements, milliseconds), events);
            Runs(s, ending) && ChecksAndPops(ending) && After(s, ending).collector == Resting
  {
    var s := After(Initial(elements, milliseconds), events);
    InitialInv(elements, milliseconds);
    RunsKeepInv(Initial(elements, milliseconds), events);
    ending := [];
    if s.collector != Resting {
      ending := CanBeFinished(s);
    }
  }

  // ---- Over a whole run ----

  // What happens up to a collection, and the collection.
  datatype Round = Round(between: seq<Event>, collection: seq<Event>)

  // Every collection is made at once, and at most `most` frames finish before each.
  ghost predicate RoundsRun(s: System, rounds: seq<Round>, most: nat)
    decreases |rounds|
  {
    rounds != [] ==>
    && (forall k :: 0 <= k < |rounds[0].between| ==> !OfCollector(rounds[0].between[k]))
    && Runs(s, rounds[0].between)
    && var t := After(s, rounds[0].between);
       && s.stages != [] && t.stages != [] && Emplaced(LastStage(t)) <= Emplaced(LastStage(s)) + most
       && Collection(t, rounds[0].collection)
       && RoundsRun(After(t, rounds[0].collection), rounds[1..], most)
  }

  ghost function RoundsAfter(s: System, rounds: seq<Round>, most: nat): System
    requires RoundsRun(s, rounds, most)
    decreases |rounds|
  {
    if rounds == [] then s
    else RoundsAfter(After(After(s, rounds[0].between), rounds[0].collection), rounds[1..], most)
  }

  lemma {:induction false} BetweenCollections(s: System, events: seq<Event>)
    requires Runs(s, events) && forall k :: 0 <= k < |events| ==> !OfCollector(events[k])
    ensures After(s, events).rows == s.rows && After(s, events).collector == s.collector
    decreases |events|
  {
    if events != [] {
      BetweenCollections(Step(s, events[0]), events[1..]);
    }
  }

  // Between collections the backlog holds the entries that came in and were not yet taken out.
  lemma BacklogIs(s: System)
    requires Inv(s) && s.collector == Resting
    ensures Backlog(s) == Emplaced(LastStage(s)) - |s.rows|
  {
    assert StageOk(s, |s.stages| - 1);
  }

  lemma {:induction false} RoundsKeepBacklog(s: System, rounds: seq<Round>, most: nat)
    requires Inv(s) && s.collector == Resting && Backlog(s) <= most && RoundsRun(s, rounds, most)
    ensures var t := RoundsAfter(s, rounds, most);
            Inv(t) && t.collector == Resting && Backlog(t) <= most
    decreases |rounds|
  {
    if rounds != [] {
      var t := After(s, rounds[0].between);
      RunsKeepInv(s, rounds[0].between);
      BetweenCollections(s, rounds[0].between);
      BacklogIs(s);
      BacklogIs(t);
      CollectionAtOnce(t, rounds[0].collection);
      RoundsKeepBacklog(After(t, rounds[0].collection), rounds[1..], most);
    }
  }

  // In every run whose collections are made at once, with at most `most` frames finishing before each, no
  // collection leaves more than that many entries in the last queue.
  lemma BacklogBounded(elements: nat, milliseconds: nat, rounds: seq<Round>, most: nat)
    requires elements > 0 && RoundsRun(Initial(elements, milliseconds), rounds, most)
    ensures var t := RoundsAfter(Initial(elements, milliseconds), rounds, most);
            Inv(t) && t.collector == Resting && Backlog(t) <= most
  {
    InitialInv(elements, milliseconds);
    RoundsKeepBacklog(Initial(elements, milliseconds), rounds, most);
  }
}
