# SecMon: region consolidation, HTTP parsing, pipeline and stream protocol

SecMon is a C++ video pipeline with an embedded MJPEG/HTTP server. This Dafny project models five of its parts and
their composition, and proves what they promise for every input, every run and every interleaving.

**Regions of interest** (`Rects`, `RoiDetector`, `NestedProperties`, `ConsolidateProperties`,
`MergeProperties`). `remove_nested` and
`consolidate_rectangles` walk one vector with two cursors and erase and enlarge its elements on the way. The class
`RegionsOfInterest` does the same on a field; its methods equal two recursive functions and count their comparisons.
About those functions: nesting removal returns exactly the maximal rectangles; consolidation returns the bounding hulls
of a partition of its input into blocks, each with the tree of overlaps above 85 percent that formed it.

**Request parsing** (`RequestParser`, `RequestGrammar`, `RequestLanguage`, `RequestSoundness`, `Connection`). The
20-state parser and the connection that feeds it are objects, proved against a step function. The grammar is written
down independently, after sections 2.2, 3.1, 4.2 and 5.1 of RFC 1945 as far as the parser implements them: exactly one
space after the colon, no tab in a value, leading blanks of a continuation line dropped. The parser's three verdicts are
exactly: sentence, proper prefix of a sentence, neither.

**Printing and URL decoding** (`Printing`, `UrlDecoding`). `Reply::to_buffers` and the parser's header states are
inverse; so are `url_decode` and percent-encoding (section 2.1 of RFC 3986, with `+` for a space) in any spelling.

**Pipeline** (`TimedWork`, `TimerSchedule`, `PipelineRuns`, `PipelineProperties`, `PauseProperties`, `CollectionProperties`,
`PipelineObjects`). A transition system of any number of elements, with `do_work` taken apart where other threads may come
in between, a timer that can be started, paused, resumed and changed at any time, and a statistics collector popping its
queues entry by entry. A `Pipeline` object carries the state it is in; each of its methods, each handler run to its end
and each collection is proved to make the corresponding steps, so the invariant of all runs holds of the object.

**Stream connection** (`StreamConnection`, `EndToEnd`, `Completeness`). The outbox protocol as a transition system and as an object, and
its composition with the pipeline: the order of frames from the camera to the socket, and that none is missing unless the
publisher drops it or a write fails.

What is taken for granted:

- A strand is a FIFO queue with at most one running handler. A handler wrapped by a strand is queued like a posted one.
- Setting a timer's expiry or cancelling it hands its pending waits over as aborted; a wait is handed over as fired only
  when the expiry has been reached. No other timer error occurs.
- Each queue emplacement, each pop, each evaluation of the collection loop's test and each timer method is one atomic step.
- Work functions return; a frame the publisher cannot encode is dropped and its exception caught, as in the source.
- Rectangles have positive width and height, which OpenCV's bounding rectangles have. Integers do not overflow.
- Bytes are characters 0 to 255 (or any others; the proofs do not need the bound, except for bytes that are escaped).
- Statistics are collected with a positive interval only; the source's collector would otherwise dereference the front of
  an empty list of queues. Handlers need no such interval.
- Frames are numbered in the order in which the camera element makes them; the entries of a statistics queue are named
  by the frame they are about.

Where the code does less than is promised or could be expected, the model says when:

- A pause stops the pump exactly when no tick is queued or at work (`PauseStopsIff`); otherwise frames go on being made
  (`PausedDuringTick`, `PipelineCanIgnorePause`). A resume then leaves more than one chain of ticks
  (`ResumeLeavesOneChainIff`).
- A failed write leaves messages in the outbox for good exactly when another one was behind it (`StepStallsIff`,
  `StalledForGood`, `StallHappens`), and one added after it may be written on the closed socket
  (`WritesAfterFailureIff`). A subscription made after a failure stays (`FailedAndSubscribedIff`).
- On an area-sorted list, consolidation differs from nesting removal exactly when a merge is made
  (`ConsolidateIsRemoveNestedIff`). Without a merge one pass settles the list (`OnePassSettles`) and keeps it sorted
  (`SortedWithoutMerge`). That is sufficient and not necessary: after a merge the list may be settled (`MergeCanSettle`,
  where it is also sorted) or not (`NestedRectangleCanStay`), and it may be unsorted (`MergeCanUnsort`).

## Model

| member | source | states |
|---|---|---|
| Rects.IntersectionCells | src/ImageProcessing/ROI_Detector.cpp:46 | The intersection holds exactly the cells both rectangles hold. |
| Rects.PercentageIs | src/ImageProcessing/ROI_Detector.cpp:45-48 | The overlap reaches p percent iff 100 times the shared area reaches p times the small area. |
| Rects.InsideMeansCovered | src/ImageProcessing/ROI_Detector.cpp:38-43 | The four-sides test holds iff every cell of the small rectangle is a cell of the large one. |
| Rects.FullOverlapIffInside | src/ImageProcessing/ROI_Detector.cpp:38-48 | The overlap is between 0 and 100, and it is 100 iff the small rectangle is inside. |
| Rects.EnlargeIsLeastBound | src/ImageProcessing/ROI_Detector.cpp:85-93 | The six enlargement statements give the least rectangle holding both; the large one itself if the small one was inside. |
| Rects.HullTimesIntersection | src/ImageProcessing/ROI_Detector.cpp:84-93 | Area of the enlarged rectangle times shared area is at most the product of the two areas. |
| Rects.MergeGrowth | src/ImageProcessing/ROI_Detector.cpp:84-94 | A merge above 85 percent enlarges the kept rectangle to at most 100/86 of its area. |
| RoiDetector.RegionsOfInterest.RemoveNested | src/ImageProcessing/ROI_Detector.cpp:50-68 | In place, the list becomes the specified one with at most n(n-1)/2 comparisons. |
| RoiDetector.RegionsOfInterest.ConsolidateRectangles | src/ImageProcessing/ROI_Detector.cpp:70-102 | In place, with erasing and enlarging under both cursors, the list becomes the specified one with at most n(n-1)/2 comparisons. |
| RoiDetector.RegionsOfInterest.CompareWithLarger | src/ImageProcessing/ROI_Detector.cpp:78-98 | The inner loop ends, makes fewer comparisons than rectangles are left, and what the rest of the sweep gives is unchanged. |
| RoiDetector.RegionsOfInterest.Compare | src/ImageProcessing/ROI_Detector.cpp:79-97 | One pair: dropped, merged or passed, with both cursors then denoting the rectangles the scan continues with. |
| RoiDetector.EditsAt | src/ImageProcessing/ROI_Detector.cpp:81-94 | Erasing and enlarging in the whole vector are the edits of the part not yet passed. |
| RoiDetector.PairsClosedForm | src/ImageProcessing/ROI_Detector.cpp:77-101 | The comparison bound is n(n-1)/2. |
| NestedProperties.KeptPositions | src/ImageProcessing/ROI_Detector.cpp:55-67 | On any list, sorted or not, what is kept is the subsequence of those that lie in no later rectangle. |
| NestedProperties.LastCopyIffInsideNoLater | src/ImageProcessing/ROI_Detector.cpp:50-57 | On an area-sorted list, comparing with later rectangles only is enough: lying in no later one is being the last copy of a maximal one. |
| NestedProperties.LastAbove | src/ImageProcessing/ROI_Detector.cpp:55-67 | Every rectangle lies in one that is kept. |
| NestedProperties.RemoveNestedKeepsMaximal | src/ImageProcessing/ROI_Detector.cpp:50-68 | On an area-sorted list: exactly the inclusion-maximal rectangles, one copy each, in order; nothing kept is inside another, everything dropped is inside something kept. |
| ConsolidateProperties.MergeTracks | src/ImageProcessing/ROI_Detector.cpp:79-96 | Merging joins two blocks into one with the hull of both; dropping at 100 percent is the same with nothing to enlarge. |
| ConsolidateProperties.ConsolidateIsForest | src/ImageProcessing/ROI_Detector.cpp:70-102 | The output is the list of hulls of blocks that partition the input indices, each joining warranted by an overlap above 85 percent, in the order of the absorbing rectangles. |
| ConsolidateProperties.BlockHullIsLeast | src/ImageProcessing/ROI_Detector.cpp:86-93 | A block's hull holds the block's members, and lies in every rectangle that does. |
| ConsolidateProperties.ConsolidateCovers | src/ImageProcessing/ROI_Detector.cpp:70-102 | No input cell is lost, no output leaves a rectangle that held all the input, a non-empty input gives a non-empty output. |
| ConsolidateProperties.GrowthIsBounded | src/ImageProcessing/ROI_Detector.cpp:84-94 | After e enlargements a rectangle has at most (100/86)^e times the area it started with. |
| ConsolidateProperties.UnchangedIffNoHighOverlap | src/ImageProcessing/ROI_Detector.cpp:77-101 | The list stays as it is, or even as long, iff no pair overlaps above 85 percent. |
| MergeProperties.FirstStep | src/ImageProcessing/ROI_Detector.cpp:78-98 | The inner loop passes down to the first overlap above 85 percent: with none the rectangle stays, with 100 it is dropped, otherwise it is merged there. |
| MergeProperties.MergeDiffers | src/ImageProcessing/ROI_Detector.cpp:84-97 | On an area-sorted list a merge shows in the result whatever follows it: that is not what nesting removal gives. |
| MergeProperties.ConsolidateIsRemoveNestedIff | src/ImageProcessing/ROI_Detector.cpp:50-102 | On an area-sorted list consolidating and removing nested rectangles give the same list iff, for every rectangle, the last later one it overlaps above 85 percent, if any, is overlapped by 100. |
| MergeProperties.ConsolidateIsRemoveNested | src/ImageProcessing/ROI_Detector.cpp:50-102 | In particular they do on any list, sorted or not, without overlaps of 86 to 99 percent. |
| MergeProperties.OnePassSettles | src/ImageProcessing/ROI_Detector.cpp:77-101 | Under the condition of ConsolidateIsRemoveNestedIff the list returned has no pair above 85 percent and a second pass returns it unchanged; this direction only. |
| MergeProperties.SortedWithoutMerge | src/ImageProcessing/ROI_Detector.cpp:77-101 | Under the same condition an area-sorted list stays area-sorted; this direction only. |
| MergeProperties.MergeCanUnsort | src/ImageProcessing/ROI_Detector.cpp:84-94 | An area-sorted list whose consolidation is not: the enlarged rectangle is not moved behind the one it has outgrown. |
| MergeProperties.MergeCanSettle | src/ImageProcessing/ROI_Detector.cpp:84-97 | That condition is not needed for settling: a list that is merged and settled in one pass. |
| MergeProperties.NestedRectangleCanStay | src/ImageProcessing/ROI_Detector.cpp:94-97 | But settling can fail: a sorted list whose consolidation still has one rectangle inside another, because after a merge the next one skips comparisons. |
| RequestParser.RequestParser.Consume | src/GUI/RequestParser.cpp:29-206 | Verdict, new state and new request are those of one step of the 20-state machine. |
| RequestParser.CharacterClasses | src/GUI/RequestParser.cpp:208-245 | The four predicates without their tables: token characters are letters, digits and fifteen marks, controls the codes 0 to 31 and 127, blanks 32 and 9, digits the ten, each with its value. |
| RequestParser.RequestParser.Parse | src/GUI/RequestParser.h:36-44 | The loop stops at the first verdict; verdict, bytes consumed, state and request are those of the specified run. |
| RequestParser.RunAppend | src/GUI/RequestParser.h:36-44 | Parsing is resumable: text first and what follows next is the same as both at once; after a verdict nothing more is consumed. |
| RequestGrammar.LeadsKept | src/GUI/RequestParser.cpp:43-48 | In each looping state any text of its characters is added to its field, and nothing else changes. |
| RequestGrammar.NumberFromIs | src/GUI/RequestParser.cpp:96-131 | Accumulating digit by digit gives the number the digits denote. |
| RequestLanguage.LeadsLine | src/GUI/RequestParser.cpp:31-138 | Every request line leads from the fresh parser to the header lines, with method, URI and version read. |
| RequestLanguage.LeadsFold | src/GUI/RequestParser.cpp:143-166 | A continuation line is appended to the last value without its leading blanks. |
| RequestLanguage.LeadsFields | src/GUI/RequestParser.cpp:139-200 | Header lines with their continuations add their headers in order. |
| RequestLanguage.SentenceAccepted | src/GUI/RequestParser.cpp:29-206 | Every sentence of the grammar is accepted at its last byte with the request it means, whatever follows. |
| RequestLanguage.RequestWrittenOut | src/GUI/RequestParser.cpp:29-206 | A request with a two-digit version number, a header and a continuation line, written out character by character for any method, URI, name and values, and the request it gives. |
| RequestSoundness.FindSentence | src/GUI/RequestParser.cpp:29-206 | Whatever is accepted starts with a sentence, which is what was consumed and whose meaning is the request. |
| RequestSoundness.CanBeCompleted | src/GUI/RequestParser.cpp:30-205 | From every state some ending leads to acceptance: the parser has no dead state. |
| RequestSoundness.RejectedAtOnce | src/GUI/RequestParser.cpp:29-206 | A rejection comes at the first byte after which no sentence is possible. |
| RequestSoundness.VerdictsAreExact | src/GUI/RequestParser.h:31-44 | True iff some prefix is a sentence (then the consumed bytes are it, and the request is its meaning), indeterminate iff the input is a proper prefix of a sentence, false otherwise and at once. |
| RequestSoundness.SentencesArePrefixFree | src/GUI/RequestParser.h:31-44 | No sentence is a proper prefix of another, and a text means one request only. |
| Connection.Connection.HandleRead | src/GUI/Connection.cpp:52-84 | After any reads from the start, without an error: the request is handled iff the bytes received begin with a sentence of the grammar, and is what that denotes; more is read iff they are a proper prefix of one; otherwise, only then, the reply is bad_request. An error ends the connection. |
| Connection.SplitDoesNotMatter | src/GUI/Connection.cpp:52-77 | For any split of the bytes into reads: same verdict, bytes consumed, state and request as parsing them at once. |
| Printing.Reply.ToBuffers | src/GUI/Reply.cpp:87-100 | The buffers together are status line, one `name: value` line per header in order, a blank line and the content. |
| Printing.HeadersReadBack | src/GUI/Reply.cpp:90-97 | The parser's header states read the printed headers back, in order, and stop at the content. |
| Printing.RequestRoundTrip | src/GUI/RequestParser.cpp:87-203 | Printing any well-formed request and parsing it, split into reads in any way and followed by anything, gives the same request and consumes exactly what was printed. |
| UrlDecoding.UrlDecode | src/GUI/RequestHandler.cpp:91-115 | The index-skipping loop succeeds iff the specification does, with its result. |
| UrlDecoding.DecodeInvertsEncode | src/GUI/RequestHandler.cpp:91-115 | Decoding inverts every encoding, whichever characters are escaped and in whichever letter case. |
| UrlDecoding.DecodedIsEncoded | src/GUI/RequestHandler.cpp:94-113 | With complete escapes decoding succeeds, and the input was an encoding of the result. |
| UrlDecoding.DecodeIffEncoding | src/GUI/RequestHandler.cpp:91-115 | An input with complete escapes decodes to a text iff it is an encoding of that text. |
| UrlDecoding.DecodedFirst | src/GUI/RequestHandler.cpp:108-112 | A plus sign gives a space, any other character but a percent sign itself. |
| UrlDecoding.EscapeDecoded | src/GUI/RequestHandler.cpp:95-101 | A percent sign and two digits, from the table in either case, give the byte of that value. |
| UrlDecoding.DecodeGoesOn | src/GUI/RequestHandler.cpp:94-113 | What follows an encoding is decoded on its own and appended. |
| UrlDecoding.BadEscapeFails | src/GUI/RequestHandler.cpp:96-107 | An escape cut off by the end, or one that cannot be extracted, fails the whole, wherever it stands. |
| UrlDecoding.RequestPathShape | src/GUI/RequestHandler.cpp:36-50 | A path that gets looked up is absolute, has no `..`, does not end in a slash, and extends the decoded path. |
| UrlDecoding.PathArrives | src/GUI/RequestHandler.cpp:36-50 | A printed request carrying an encoded path, split into reads in any way, decodes to that path and asks for exactly it, with index.html added behind a final slash; it is refused iff the path is empty, relative or has two dots in a row anywhere. |
| TimedWork.TimedWorkWrapper.StartTimer | src/Pipeline/TimedWorkWrapper.h:105-110 | Cancels what is pending and arms one wait, counted from now. |
| TimedWork.TimedWorkWrapper.RestartTimer | src/Pipeline/TimedWorkWrapper.h:113-118 | Cancels what is pending and arms one wait, counted from the last deadline. |
| TimedWork.TimedWorkWrapper.Pause | src/Pipeline/TimedWorkWrapper.h:94-102 | Toggles: cancels the pending wait, or starts the timer anew. |
| TimedWork.TimedWorkWrapper.EnterDoWork | src/Pipeline/TimedWorkWrapper.h:76-87 | An aborted handler does nothing, a fired one goes to work. |
| TimedWork.TimedWorkWrapper.LeaveDoWork | src/Pipeline/TimedWorkWrapper.h:89-91 | When the work returns the timer is restarted. |
| TimedWork.PumpStepKeepsInv | src/Pipeline/TimedWorkWrapper.h:76-118 | Every step keeps: at most one wait armed, and the pump alive while started and not paused. |
| TimedWork.EveryPumpRun | src/Pipeline/TimedWorkWrapper.h:76-118 | So does every run of starts, ticks, pauses and interval changes. |
| TimerSchedule.StartSetsDeadline | src/Pipeline/TimedWorkWrapper.h:105-110 | A start and a resume set the deadline one interval after the time they come at, and arm one wait. |
| TimerSchedule.EveryDeadline | src/Pipeline/TimedWorkWrapper.h:76-118 | In every run from creation, after a start or resume the deadline is its time, plus the interval then in force, plus those in force at the ends of the work since, all read off the events; how long the work takes does not enter. The wait fires only once as much time has passed. |
| TimerSchedule.ChangeKeepsRest | src/Pipeline/TimedWorkWrapper.h:45 | Changing the interval leaves the armed wait, its deadline and everything else as they are. |
| TimerSchedule.ChangedIntervalHolds | src/Pipeline/Pipeline.h:245-249 | From a change to the next one every start, resume and end of work sets a deadline that interval after the time it counts from. |
| TimerSchedule.WaitsConserved | src/Pipeline/TimedWorkWrapper.h:104-118 | In every run each wait begun is armed, handed over and not yet run, or was run: none is lost, none run twice. |
| TimerSchedule.EveryTickIsWorked | src/Pipeline/TimedWorkWrapper.h:76-91 | In every run each deadline reached is worked once, aborted waits never. |
| TimerSchedule.PumpOfRun | src/Pipeline/TimedWorkWrapper.h:76-118 | Nothing else in a pipeline touches the pump: its part of every run is a run of the pump alone. |
| TimerSchedule.OneFramePerTick | src/Pipeline/TimedWorkWrapper.h:85-91 | In every run of a pipeline the frames made are the deadlines reached, less those whose handler still waits. |
| TimerSchedule.PipelineDeadline | src/Pipeline/Pipeline.h:114-124 | The deadlines of a pipeline created with an interval, in every run. |
| TimedWork.PauseSilencesIff | src/Pipeline/TimedWorkWrapper.h:94-102 | A pause silences the pump iff no tick is queued on the strand or at work. |
| TimedWork.AliveUntilToggled | src/Pipeline/TimedWorkWrapper.h:86-91 | A pump a pause left alive stays alive in every run until the next toggle, being paused all the while. |
| TimedWork.PauseCanFail | src/Pipeline/TimedWorkWrapper.h:86-101 | A run in which the pump is paused during a tick and then begins the next one. |
| TimedWork.ResumeLeavesOneChainIff | src/Pipeline/TimedWorkWrapper.h:94-102 | After a resume there is a single chain of ticks iff none was still queued or at work. |
| TimedWork.OtherStepsAddNoChain | src/Pipeline/TimedWorkWrapper.h:76-118 | No step but the start and a resume adds a chain of ticks. |
| PipelineRuns.EmplacedFalls | src/Pipeline/WorkWrapper.h:84-91 | No element has reported more times than one before it. |
| PipelineRuns.StageStepKeepsInv | src/Pipeline/WorkWrapper.h:71-93 | Taking, working, reporting and handing on each keep the pipeline invariant. |
| PipelineRuns.TimerStepKeepsInv | src/Pipeline/TimedWorkWrapper.h:76-91 | So do all steps of the pump, including the one that makes a new frame. |
| PipelineRuns.PopKeepsInv | src/Pipeline/Pipeline.h:223-226 | So does popping one queue in the middle of a row; the entry popped is about the row's frame. |
| PipelineRuns.RunsKeepInv | src/Pipeline/WorkWrapper.h:71-93 | The invariant holds in every reachable state. |
| PipelineProperties.OrderAndCompleteness | src/Pipeline/Pipeline.h:10-13 | For every number of elements and every interleaving: what element i handed on is what element i+1 finished, then works on, then has queued; every element gets every frame once, in camera order. |
| PipelineProperties.StatisticsAligned | src/Pipeline/Pipeline.h:220-233 | The loop never pops an empty queue, every row takes all its cells from one frame, and between rows no queue is longer than the one before it. |
| PipelineProperties.StageStepLeavesOneLess | src/Pipeline/WorkWrapper.h:77-93 | Every step of an element is one of the steps that the frames in the pipeline still needed. |
| PipelineProperties.SilentPumpDrains | src/Pipeline/WorkWrapper.h:77-93 | With no tick armed, queued or running no frame is added, and every step of an element lowers the steps left by one. |
| PipelineProperties.SilentPipelineFinishes | src/Pipeline/WorkWrapper.h:77-93 | Such a pipeline can go on as long as steps are left, and when none is left the last element has finished every frame made. |
| PauseProperties.NextStepIsNearer | src/Pipeline/TimedWorkWrapper.h:86-91 | While the pump is alive some step is possible that brings the next frame nearer, and it is no toggle. |
| PauseProperties.PauseStopsIff | src/Pipeline/Pipeline.h:29 | A pause keeps every further frame from being made until the next toggle iff no tick was queued or at work when it came. |
| PauseProperties.PausedBetweenTicks | src/Pipeline/Pipeline.h:29 | Paused then, the data under way flows to the end: no frame is made, steps are possible as long as any is left, and when none is left the last element has finished every frame made before. |
| PauseProperties.PausedDuringTick | src/Pipeline/Pipeline.h:29 | Paused during a tick, the pump never falls silent before the next toggle, and from any later state any number of frames can still follow. |
| PauseProperties.PipelineCanIgnorePause | src/Pipeline/Pipeline.h:174-182 | Every pipeline has a run with a single pause after which n more frames are made, for any n. |
| CollectionProperties.CollectionAtOnce | src/Pipeline/Pipeline.h:220-233 | A collection with nothing in between takes ceil(n/2) rows from the n entries of the last queue and leaves floor(n/2), though its bound shrinks as it pops. |
| CollectionProperties.CollectionWrites | src/Pipeline/Pipeline.h:220-233 | Row r of it is entry r of every queue, and just the entries written are gone from each queue. |
| CollectionProperties.CanBeFinished | src/Pipeline/Pipeline.h:220-233 | A collection that has begun can be finished at once, whatever steps came in between before: the loop ends. |
| CollectionProperties.EveryCollectionCanEnd | src/Pipeline/Pipeline.h:220-233 | That is so after every run of every pipeline. |
| CollectionProperties.BacklogBounded | src/Pipeline/Pipeline.h:220-233 | In every run whose collections are made at once, with at most A frames finishing before each, no collection leaves more than A entries in the last queue. |
| PipelineObjects.WorkWrapper.DoWork | src/Pipeline/WorkWrapper.h:77-93 | Reports the times if there is a queue for them and hands the frame to the next element if there is one. |
| PipelineObjects.Pipeline.AddTimedElement | src/Pipeline/Pipeline.h:114-124 | Refused once compiled or when not first; otherwise the object is in the initial state of a one-element pipeline. |
| PipelineObjects.Pipeline.AddElement | src/Pipeline/Pipeline.h:137-146 | Refused once compiled or when first; otherwise one element more at the end, and the initial state of that many. |
| PipelineObjects.Pipeline.Compile | src/Pipeline/Pipeline.h:159-171 | Links every element to the one behind it and changes nothing else. |
| PipelineObjects.Pipeline.Start | src/Pipeline/Pipeline.h:185-192 | Refused before compiling or a second time; otherwise the start step of the transition system. |
| PipelineObjects.Pipeline.Pause | src/Pipeline/Pipeline.h:174-182 | Refused before compiling or starting; otherwise the toggle step, and its own flag stays the pump's. |
| PipelineObjects.Pipeline.ChangeTimer | src/Pipeline/Pipeline.h:245-249 | Refused before compiling; otherwise the step that changes the interval. |
| PipelineObjects.Pipeline.RunFront | src/Pipeline/WorkWrapper.h:71-93 | The handler at the front of a strand makes exactly the run begin, work, report, hand on of that element. |
| PipelineObjects.Pipeline.RunTimerHandler | src/Pipeline/TimedWorkWrapper.h:76-91 | A timer handler makes exactly the dispatch, and if it fired the work on the next frame made, its hand-over and the restart. |
| PipelineObjects.Pipeline.CollectStats | src/Pipeline/Pipeline.h:212-233 | The popping loops, at once, make exactly the collection steps of the transition system, and return the rows these write. |
| PipelineObjects.Pipeline.KeepsOrder | src/Pipeline/Pipeline.h:10-13 | A pipeline object between handlers: each element has finished what the next one finished followed by what waits on its strand, in camera order, and the statistics are in step. |
| StreamConnection.StreamConnection.Start | src/GUI/StreamConnection.cpp:60-64 | Header write first, then the subscription. |
| StreamConnection.StreamConnection.SendInitialHeaders | src/GUI/StreamConnection.cpp:66-84 | Puts the placeholder into the outbox and starts the header write. |
| StreamConnection.StreamConnection.SendFrame | src/GUI/StreamConnection.cpp:86-96 | Posts the frame to be added later, at the end of the strand. |
| StreamConnection.StreamConnection.AddToOutbox | src/GUI/StreamConnection.cpp:116-123 | Adds the message and starts a write only if it is alone. |
| StreamConnection.StreamConnection.WriteNextMessage | src/GUI/StreamConnection.cpp:125-135 | Starts writing the head, if any, and leaves it in the outbox. |
| StreamConnection.StreamConnection.HandleWrite | src/GUI/StreamConnection.cpp:137-158 | Takes the head out; on an error unsubscribes and stops, otherwise starts the next write. |
| StreamConnection.StreamConnection.RunFront | src/GUI/StreamConnection.cpp:86-158 | The handler at the front of the strand makes one step of the protocol. |
| StreamConnection.AddKeepsOrder | src/GUI/StreamConnection.cpp:116-123 | Adding keeps the writes started equal to the messages taken out followed by the outstanding head, and leaves one outstanding if there was one or the outbox was empty. |
| StreamConnection.WrittenKeepsOrder | src/GUI/StreamConnection.cpp:137-151 | So does a completed write; the outbox it meets is not empty, and messages are left without a write iff it failed with more behind it. |
| StreamConnection.ConnStepKeepsInv | src/GUI/StreamConnection.cpp:60-158 | Every step of the connection keeps the protocol's invariant, before and after errors. |
| StreamConnection.WriteProtocol | src/GUI/StreamConnection.cpp:66-151 | In every run: at most one write in flight and it is the head, the empty-outbox guard never triggers, the writes started are a prefix of the messages posted with the header write first, messages wait only behind a write unless one failed, frames are posted in the order delivered. |
| StreamConnection.FailureStallsIff | src/GUI/StreamConnection.cpp:137-151 | Handling a completed write leaves messages with no write outstanding iff it failed with another message behind it. |
| StreamConnection.StepStallsIff | src/GUI/StreamConnection.cpp:60-158 | Over all steps: a connection that is not stalled becomes so iff the step handles a failed write with more than one message in the outbox. |
| StreamConnection.StallHappens | src/GUI/StreamConnection.cpp:137-148 | A run in which the header write fails behind which a frame waits. |
| StreamConnection.StalledForGood | src/GUI/StreamConnection.cpp:116-123 | From then on no further write is started, whatever is added. |
| StreamConnection.WritesAfterFailureIff | src/GUI/StreamConnection.cpp:116-151 | After a failure a step starts a write iff an addToOutbox on the strand meets an empty outbox, whenever its frame came, or such a write succeeded with more behind it. |
| StreamConnection.WriteAfterFailureHappens | src/GUI/StreamConnection.cpp:116-148 | A run in which a frame is written although the header write failed and the socket was shut down. |
| StreamConnection.FailedAndSubscribedIff | src/GUI/StreamConnection.cpp:60-64 | A connection becomes failed and subscribed iff it subscribes after a failure: only an existing subscription is ended by one. |
| StreamConnection.SubscribedAfterFailureHappens | src/GUI/StreamConnection.cpp:60-64 | A run in which the header write fails before the subscription, which stays and brings frames. |
| StreamConnection.NothingLost | src/GUI/StreamConnection.cpp:86-151 | In every run: unless a write failed, once nothing is queued or in flight all messages posted were written, and their frames are all those the signal brought, in order. |
| EndToEnd.ScenePublisher.constructor | src/ScenePublisher.cpp:21-32 | Four new streams: main, overlay, foreground, difference. |
| EndToEnd.ScenePublisher.AddStream | src/ScenePublisher.cpp:45-52 | Adds one new stream at the end. |
| EndToEnd.ScenePublisher.ProcessNextFrame | src/ScenePublisher.cpp:63-73 | Raises each stream that has a slot and can be encoded exactly once for the frame, and no other. |
| EndToEnd.PublishKeepsInv | src/ScenePublisher.cpp:63-73 | Publishing, dropped or not, keeps the delivered frames increasing and below those the last element has been through. |
| EndToEnd.PublishedBelowProduced | src/Pipeline/WorkWrapper.h:71-93 | No element has been through a frame the camera has not made. |
| EndToEnd.CameraToSocket | src/GUI/StreamConnection.cpp:86-96 | For any subscription time, any failures and any dropped frames: the frames whose writes start on a connection are an in-order, duplicate-free subsequence of the frames the camera made, a prefix of those delivered, after the header write. |
| Completeness.RunsKeepDelivered | src/ScenePublisher.cpp:63-73 | From a subscription on, as long as no frame is dropped and no write has failed, the frames brought are exactly those published since, without a gap. |
| Completeness.EverythingArrives | src/GUI/StreamConnection.cpp:60-64 | For a subscription at any time in any run of any pipeline and every such continuation: when the pipeline is idle and the connection quiet, the frames written are exactly those not yet published at the subscription, up to the last one made, after the headers. |

## Left out

- Rounding in `overlap_percentage_`: the quotient is exact here, where the source truncates a double.
- Integer overflow, in rectangle areas and in HTTP version numbers.
- Invalidated vector iterators in `consolidate_rectangles` and buffers over temporaries in `StreamConnection`: rectangles and messages are values, cursors are positions.
- Sorting, contours, drawing, encoding and every other OpenCV call; frames are numbers.
- The overlap computed and thrown away in `remove_nested`, and the two counters in `consolidate_rectangles`.
- MergeProperties.OnePassSettles: only that the absence of merges is sufficient; which merged lists are settled by one pass is decided by the rectangles that arise during the sweep, and no condition on the list as given is stated for them.
- UrlDecoding.UrlDecode: extraction of a malformed escape is an arbitrary function of the two characters, since stream extraction is lenient in ways of its own, and all theorems hold for every such function; what `out` holds after a failure is not specified, the caller discards it.
- The rest of `handle_request` after the path checks: file extension, stream directory, files, MIME types; and the texts of status lines and stock replies, which are a parameter of `Reply`.
- RequestParser.RequestParser.Reset: nothing in the repository calls `reset`; no result depends on it.
- Connection.Connection.HandleRead: handling the request and writing the reply are not modelled, only which of the actions comes next.
- Sockets, acceptors, strands and timers as implementations.
- PipelineObjects.Pipeline.Start: the statistics timer it starts is not modelled, collections may begin at any time afterwards; it requires an element once compiled, and so does ChangeTimer, where the source would dereference the front of an empty vector.
- PipelineObjects.Pipeline.RunFront: runs one handler to its end, and so does RunTimerHandler; what may come in between is in the transition system of `PipelineRuns`.
- PipelineObjects.Pipeline.CollectStats: requires a positive statistics interval, without which the source has no queue to look at; the error code, the peek at Pipeline.h:216, which may read an empty queue, the cells' times, the output and the rearming of the timer are not modelled.
- TimedWork.TimedWorkWrapper.EnterDoWork: the timer half of the first element is an object of its own next to its `WorkWrapper`, where the source derives one class from the other; error codes other than an abort do not occur.
- Races on the unsynchronised queues, flags and timer; exceptions of work functions that nobody catches.
- StreamConnection.StreamConnection.HandleWrite: shutting down the socket and deregistering from the stream are not modelled beyond the mark that a write has failed.
- EndToEnd.ScenePublisher.AddStream: the registration of the stream with the interface is not modelled.
- EndToEnd.ScenePublisher.ProcessNextFrame: the display name and statistics set on the frame are not modelled.
- `StreamConnection::handle_read`, which is never started, and `Scene::shutdown`, `OOI`, `StreamDirectory`, performance counters, WebSocket server and browser scripts.
- MergeProperties.SortedWithoutMerge: only that the absence of merges is sufficient; as for settling, no condition on the list as given is stated for which merged lists come out sorted.
