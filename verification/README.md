# CARBON I/O verification

CARBON I/O moves ordered streams of frames between callers and many files at once. This project
models its three components, their combination and the transfer program built on them, and proves
that concurrency, retries, shared budgets and bounded polling never show in the results.

* **The shared budget** (`Budget.dfy`, `FrameBudget.dfy`). Permits grow and shrink against one
  total; requests that do not fit wait in a FIFO queue, and capacity is reserved for a request
  before its owner is woken. Every operation is one critical section, so any interleaving of permits
  is a sequence of operations; the theorems are about all such sequences.
* **The write scheduler** (`WriteSlot.dfy`, `Writer.dfy`, `WriteAccounting.dfy`, `WriteWork.dfy`,
  `WriteEnd.dfy`, `BudgetedWriters.dfy`, `WriteScheduler.dfy`, `Bytes.dfy`). Input is cut into
  frames which fill a FIFO of destinations; destinations open, write, retry and close concurrently.
  Main result: a completed close has produced exactly the sequential segmentation of the input, and
  while backends succeed a close ends after a known number of calls.
* **The read scheduler** (`Reader.dfy`, `ReadWork.dfy`, `BudgetedReaders.dfy`, `ReadPasses.dfy`,
  `ReadEnd.dfy`, `Wrapping.dfy`, `ReadScheduler.dfy`). Concurrent files fill one contiguous window
  of cells. Main result: the frames handed out are those of a sequential reading, although positions
  are machine words that wrap around.
* **All of them together** (`Client.dfy`, `SharedSystem.dfy`, `SharedProgress.dfy`,
  `SharedScheduler.dfy`). Any number of schedulers on one budget, as values and as objects. Main
  results: every interleaving keeps all guarantees, memory stays within the budget, replay writers
  cannot deadlock on it, and a blocked queue head is served by successful polls of the others.
* **The transfer program** (`SegmentFile.dfy`, `StoredWrites.dfy`, `StoredReads.dfy`, `Names.dfy`,
  `Catalog.dfy`, `UploadStep.dfy`, `Upload.dfy`, `DownloadStep.dfy`, `Download.dfy`,
  `Transfer.dfy`). Main results: upload then download is the identity on bytes, through the short
  writes and short reads of every segment; and while backends succeed it completes within a known
  number of calls.

## How the model is built

Each component appears twice. The objects (`FrameBudget`, `FramePermit`, `FileSlot`,
`WriteScheduler`, `ReadScheduler`, `BytesPartialFrame`, `Segment`) have the fields of the source and
methods that update them step by step, with the source's loops. Beside them stands a state machine
over values with one event per backend poll, budget change or call. Every private step of an object
is proved to perform one event, and a ghost `history` records the events; `Valid()` says that this
history is a run of the machine from the initial state to the current one. So a theorem about all
runs holds of an object after any sequence of calls, and the contracts of the public methods are
consequences of such theorems.

Schedulers that share a budget see each other only through it. Every public method also states that
it led the budget and the scheduler from their old to their new state by steps of the shared system
(`Clients.Leads`): each event comes with one operation of the scheduler's own permit. To the other
permits that is a run in which they do nothing, so they stay valid, and every sequence of calls of
any schedulers is a run of the system the shared theorems are about.

Backends are oracles: each poll answers pending, success or an error, in any pattern. A destination
carries the log of what its current attempt has accepted; opening clears it, a write appends to it,
an error may leave anything in it, and closing commits it. A source carries the frames it holds.

The segments of the transfer program are objects with a value for their state, moving bytes in
pieces. `StoredWrites.dfy` and `StoredReads.dfy` run them beside the schedulers: each answer in a
scheduler's run is the one its segment gave. Every destination then stays backed by its segment
through polls, pushes, swaps and closing, so the files left on disk hold the writer's results; and
every frame the reader hands out is the one its segment put into the buffer. Conversely segments can
bring about every run of a writer that is fed no empty frame, and every plausible run of a reader:
its files are stored ones, opens do not end, files do not end early, and a read that waits leaves a
whole buffer. `Upload`, `Download` and `UploadThenDownload` return the runs they made, as ghosts,
and their contracts apply these results to them.

Wakers are replaced by facts about the call: which operations were found pending in it and not asked
again, whether the permit is queued, whether the call woke its own task. "No lost wakeup" says that
a call which tells its caller to wait, and has not woken it, leaves one of these outstanding; and a
call wakes its caller itself only after it has used up the polls one call may make. A writer also
remembers whether a task is registered to be woken by a later call, as a fact without an identity.

Properties the code settles differently from what its surroundings suggest are modelled as the code
has them. `docs/specification.md` describes earlier interfaces and was not followed. Reading polls a
pending operation at most once per call, and this is proved; writing polls pending destinations
again on every pass, so no such claim is made for it; what is proved is that the last answer to what
is still asked was pending. A writer whose own destinations release capacity while its growth
request is queued cancels that request and asks again later, so FIFO is proved per uncancelled
request, not per scheduler, together with exactly when a place is lost.

## Model

| member | source | states |
|---|---|---|
| Budgets.DispatchServesPrefix | src/budget.rs:31-60 | dispatching serves a prefix of the queue, touches nothing else, and stops only when the queue is empty or its head does not fit; each request served gets its desired amount exactly when what the earlier ones leave covers that, and its minimum otherwise |
| Budgets.WokenAreServed | src/budget.rs:31-60 | exactly the served requests are woken, in queue order; nobody is woken without a reserved grant |
| Budgets.GrowKeepsInv | src/budget.rs:172-214 | growing keeps conservation, the queue's well-formedness and "no grant left undone" |
| Budgets.GrowAnswer | src/budget.rs:172-214 | what the caller gets: an earlier grant first, then the minimum or the desired size at once, or a queue place that preserves the grant; invalid requests change nothing |
| Budgets.GrowNeverBarges | src/budget.rs:200-213 | free capacity is taken at once only when nobody waits; then a request waits only if its minimum is not free, and gets its desired size exactly if that is free, otherwise its minimum |
| Budgets.ShrinkOutcome | src/budget.rs:216-236 | shrinking cancels the request, keeps the smaller capacity, and serves a prefix of the other requests in order |
| Budgets.ApplyOutcome | src/budget.rs:118-243 | every operation keeps the invariant and treats all other permits fairly: only a prefix of their queue is served |
| Budgets.EveryRunConserves | src/budget.rs:29-243 | in every state of every interleaving, free, held and granted capacity add up to the total, the queue holds each waiting request once, a waiting request has no unclaimed grant, and the head does not fit |
| Budgets.StepKeepsOrder | src/budget.rs:31-60 | no operation serves or reorders a later request while an earlier uncancelled one waits |
| Budgets.NeverOvertaken | src/budget.rs:164-213 | over whole runs a request queued behind another stays behind it until the earlier one is served or cancelled |
| Budgets.BlockedHeadHasHolder | src/budget.rs:43-45 | a blocked queue head implies that another permit holds capacity or an unclaimed grant |
| Budgets.OthersOnlyServe | src/budget.rs:216-243 | seen from one permit, everything the others ever do can only serve its pending request |
| FrameBudgets.FrameBudget.constructor | src/budget.rs:100-108 | a new budget is valid and entirely available |
| FrameBudgets.FrameBudget.NewPermit | src/budget.rs:118-124 | a new permit is empty and changes no other |
| FrameBudgets.FrameBudget.Dispatch | src/budget.rs:31-60 | the in-place loop computes the dispatched budget, with the grants stated above, and collects exactly the woken requests in order |
| FrameBudgets.FramePermit.PollGrow | src/budget.rs:172-214 | the in-place critical section computes the grown budget and the caller's answer |
| FrameBudgets.FramePermit.ShrinkTo | src/budget.rs:216-236 | the in-place critical section computes the shrunk and dispatched budget |
| FrameBudgets.FramePermit.Drop | src/budget.rs:239-243 | dropping returns everything, asks for nothing more, and leaves a valid budget |
| WriteSlots.PollKeepsAssigned | src/write.rs:295-350 | no poll, whatever the backend answers, loses, adds or reorders an assigned frame, in either mode |
| WriteSlots.AttemptLogIsRight | src/write.rs:209-350 | over a destination's whole life the attempt has accepted exactly the first `written` frames given to it; streamed and retained frames make up all of them; closed means all were committed |
| WriteSlots.FailsAfterAllRetries | src/write.rs:343-349 | a destination fails if and only if its backend reports one error more than the allowed retries |
| WriteSlots.CompleteIsConfirmed | src/write.rs:295-350 | a destination counts as complete only once its backend has, since its last error, confirmed opening, each frame given to it, and closing |
| WriteSlots.PollReleases | src/write.rs:295-350 | a poll releases exactly the capacity the slot stops accounting for |
| WriteSlots.StuckPoll | src/write.rs:295-350 | a poll changes nothing if and only if the backend it asks is pending or the slot waits for its user |
| WriteSlots.PollLowersRank | src/write.rs:295-350 | every state change lowers a measure over retries, state and frames left |
| WriteSlots.SlotWorkBounded | src/write.rs:295-350 | a destination changes state at most (retries + 1) * (capacity + 3) times over its life |
| WriteSlots.FinishableFinishes | src/write.rs:295-350 | a full destination closes by successful polls alone, without any further capacity |
| WriteWork.EveryDestinationIsBounded | src/write.rs:499-545 | in every run of a writer each admitted destination changes state at most (retries + 1) * (capacity + 3) times |
| WriteEnds.SuccessfulClosingEnds | src/write.rs:733-755 | while its polls succeed, a closing writer never breaks, and each state change is paid for out of a finite effort |
| WriteEnds.SuccessfulWorkSpends | src/write.rs:499-545 | the same while input is open: successful polls of any writer are paid for out of the effort of the admitted destinations |
| Writers.EveryRunKeepsInv | src/write.rs:375-386 | every run keeps the shape (full prefix, one filling slot, idle suffix), the accounting and the history of the writer |
| Writers.ResultsAreSegments | src/write.rs:602-614 | while a run is going on, the results are the first full segments of the input, in admission order, and the window holds the rest |
| Writers.ClosedRunIsSegmentation | src/write.rs:733-755 | a completed close has produced exactly the sequential segmentation of the input: admission order, every destination but the last full, none empty, no capacity left |
| Writers.UnchangedPoll | src/write.rs:507-530 | a poll without progress leaves the whole writer as it was |
| Writers.FullWriterWaitsForBackend | src/write.rs:654-681 | a stuck writer without room for its next frame and without a result waits for some backend |
| Writers.DrainingWriterWaitsForHead | src/write.rs:745-754 | a stuck closing writer without a result waits for its head's backend |
| WriteAccounting.AccountingIsExact | src/write.rs:435-452 | `used` is the number of frames in memory when streaming, and the summed capacities of the assigned unclosed files and of the file being started when retrying; never above the grant; zero after a close or failure |
| WriteAccounting.MemoryIsGranted | src/write.rs:435-452 | frames in memory never exceed the grant, in either mode |
| WriteAccounting.ReleasesNeverSaturate | src/write.rs:513-515 | the saturating subtractions that release capacity never saturate: after a poll and when an empty partial frame is dropped |
| WriteAccounting.RoomSaturates | src/write.rs:663-671 | the subtraction that computes the room below the window does saturate, if and only if a streaming window has been set below what is in use; then no frame is started |
| WriteAccounting.RoomCanSaturate | src/write.rs:663-671 | a run in which it does: two frames are in use when the window is set to one |
| BudgetedWriters.OthersKeepCoupled | src/budget.rs:216-243 | whatever other permits do, and for however long, a writer's state and its own permit stay consistent |
| BudgetedWriters.PollKeepsCoupled | src/write.rs:513-525 | a poll either returns capacity, cancelling the writer's request, or leaves the request and what it asks for as they were |
| BudgetedWriters.PollGivesBack | src/write.rs:513-525 | a poll that closes a destination, and any poll during close, leaves a grant of exactly what is used; one that only releases frames keeps the target of the window; any other keeps the whole grant |
| BudgetedWriters.HoldsWhatItMay | src/write.rs:415-452 | in every reachable state the grant covers what is used, and beyond that only what the target allows while input is open and nothing afterwards |
| BudgetedWriters.ReserveOutcome | src/write.rs:576-600 | a reservation is always a valid request and ends with the frame covered or the writer queued holding exactly `used` |
| BudgetedWriters.ReservationFills | src/write.rs:576-600 | returning unused fragments before asking costs nothing: when nobody waits, the reservation is met exactly if the frame is held or free, with a whole window if that is free |
| BudgetedWriters.QueuedWriterRests | src/write.rs:585-600 | a queued replay writer rests, and each of the files it holds capacity for is completely filled and can finish |
| BudgetedWriters.HeldByFinishable | src/write.rs:576-600 | a resting replay writer that holds capacity has a file that can finish without more budget |
| WriteSchedulers.FileSlot.Poll | src/write.rs:295-350 | the in-place poll computes the slot's transition |
| WriteSchedulers.WriteScheduler.New | src/write.rs:393-413 | refuses an empty window or budget; otherwise valid and initial |
| WriteSchedulers.WriteScheduler.PushFile | src/write.rs:629-641 | admits exactly when open, with room and a valid capacity, and then wakes a waiting task; a refusal changes nothing and names the first condition that fails |
| WriteSchedulers.WriteScheduler.Drive | src/write.rs:499-545 | polls slots one after the other around the window from where the last call stopped; makes at most 256 state changes; if it stops earlier, every slot is stuck, and of every slot that still asks its backend the last answer in this call was pending |
| WriteSchedulers.WriteScheduler.FlushPartial | src/write.rs:547-574 | hands a nonempty partial frame to the fill slot, gives an empty one's reservation back |
| WriteSchedulers.WriteScheduler.EnsureCapacity | src/write.rs:576-600 | the grant covers the next frame, or the writer is queued holding exactly what it uses; when nobody waits it is ready exactly if the frame is held or free, and then gets a whole window if that is free and the frame alone if not |
| WriteSchedulers.WriteScheduler.PollWrite | src/write.rs:643-710 | drives as far as one call may, in turn from where the last call stopped; then offers the input once: it answers without having consumed anything only if the input is not ready, the permit is queued, or there is no room for another frame; nothing is consumed without being reported; at most 256 state changes; a call wakes itself only after 256, and one that waits otherwise leaves a pending input, a queue place, or a slot whose backend was asked last in this call and is still pending; the task is registered exactly when it is told to wait; a failure has an error of a backend or an unusable frame as its cause |
| WriteSchedulers.WriteScheduler.PopSwap | src/write.rs:712-731 | replaces a closed head by a new tail if and only if input is open, there is one and the descriptor is valid, keeps the other files in order, and then wakes a waiting task; otherwise nothing changes and the first condition that fails is named |
| WriteSchedulers.WriteScheduler.PollClose | src/write.rs:733-755 | feeds what the partial frame holds and nothing else; drives as far as one call may, in turn; returns nothing only if there are files left and the head has no result; zero means the results are the segmentation of all input and no capacity is held; at most 256 state changes, a self-wake only after 256, and a wait otherwise leaves a slot whose backend is still pending; if all its polls succeed a call is not refused, and returns nothing only after 256 steps towards the end |
| WriteSchedulers.WriteScheduler.PopFile | src/write.rs:757-766 | removes a closed head if and only if the writer is closing and has one, without a replacement, keeps the other files in order, and then wakes a waiting task |
| WriteSchedulers.WriteScheduler.SetWindow | src/write.rs:418-428 | keeps accepted destinations and frames, returns exactly what exceeds both the new target and what is in use, and wakes a waiting task |
| WriteSchedulers.WriteScheduler.OthersKeepValid | src/budget.rs:63-78 | whatever the other permits of the shared budget do, and for however long, leaves the scheduler valid and unchanged |
| ByteFrames.BytesPartialFrame.PollFill | src/write.rs:89-96 | appends exactly the consumed prefix and leaves input over only when the frame is complete |
| ByteFrames.BytesArePreserved | src/write.rs:72-109 | the consumed bytes are always the finished full frames followed by the partial one; a completed close stores the segments of the cut of all bytes |
| ByteFrames.OnlyTheBytesMatter | src/write.rs:683-699 | two completed runs that consumed the same bytes, however sliced, wrote the same files |
| Readers.EveryRunKeepsInv | src/read.rs:82-95 | every run keeps the layout of files and cells, the grant bounds, the buffer count and the end states of the reader |
| Readers.EveryRunReadsSequentially | src/read.rs:235-286 | for any interleaving and backend timing the outputs are a prefix of the sequential reading; end without failure means closed and everything delivered; one failure, reported once |
| Readers.WindowIsExact | src/read.rs:310-319 | cell `k` is logical position `emitted + k`, owned by one file, complete exactly when received, and only the position a file reads next may hold an unfinished buffer |
| Readers.BufferIsKept | src/read.rs:417-436 | a buffer stays the same until it is read into again or handed out; window changes lose no authorized frame |
| Readers.EveryRunIsBounded | src/read.rs:302-319 | cells <= grant <= max(target, cells) + 31, and buffers made equal buffers alive and never exceed the budget or the widest window ever set |
| Readers.PollFailsExactly | src/read.rs:375-436 | a poll ends the reader if and only if an error may not be retried or a file ends early; position errors cannot occur |
| Readers.PollLowersRest | src/read.rs:375-436 | a poll progresses exactly when it leaves less to do for its file; an asked backend that is not pending always makes progress |
| ReadWork.EveryFileIsBounded | src/read.rs:375-436 | in every run of a reader each admitted file takes at most retries + 1 + frames polls with progress |
| ReadEnds.SmoothReadingEnds | src/read.rs:345-436 | while its polls succeed, every backend poll of a reader is paid for out of what the admitted files have left |
| ReadEnds.FailureNeedsFault | src/read.rs:451-458 | a reader has failed only if some backend reported an error or an early end |
| Readers.EmittedFrame | src/read.rs:253-257 | the frame handed out is the next one of the sequential reading |
| Readers.StuckHeadIsBlocked | src/read.rs:250-252 | if nothing moves and the first cell is incomplete, the head file is waiting for its backend |
| Readers.NoCellsNoCapacity | src/read.rs:310-319 | a reader that may take no cell and has none holds no capacity |
| Readers.AuthorizeFillsWindow | src/read.rs:310-319 | after authorizing, the window has as many cells as the grant, the target and the known frames allow, the old ones first and the new ones empty; none is given up |
| BudgetedReaders.GrowOutcome | src/read.rs:321-335 | the reader's batched request is always valid, stays within its goal, and leaves an empty-handed reader queued |
| BudgetedReaders.GrowsTo | src/read.rs:322-335 | exactly how far a request raises the grant, from what is held, granted, free and queued: to the goal if that is free and nobody waits, else by 32 frames, else only by an earlier grant |
| Wrapping.WrapAddExact | src/read.rs:184-185 | advancing a word is wrapping the advanced position |
| Wrapping.WrapSubExact | src/read.rs:164-167 | word distance is true distance while that is below the word size |
| Wrapping.WrapEqual | src/read.rs:440-445 | words are equal exactly when the positions are, within the word size |
| ReadPasses.TurnSettles | src/read.rs:375-436 | a poll that finds its file pending is the last to ask it in this call; every blocked file is finished or still pending |
| ReadPasses.PassTurn | src/read.rs:345-372 | every turn of a pass polls the next file in ring order, uses up one poll exactly if the backend was asked, keeps passed-over files stuck as long as nothing moved, and fails only on what a backend reported |
| ReadPasses.StoppedFrontWaits | src/read.rs:365-372 | when a call may stop, a missing next frame awaits the head's backend, or the budget if no cell is authorized |
| ReadSchedulers.ReadScheduler.New | src/read.rs:116-140 | refuses an empty window or budget; otherwise valid and initial |
| ReadSchedulers.ReadScheduler.PushFile | src/read.rs:146-187 | admits exactly when open, with room, within the horizon, nonempty and with a representable live distance, all decided on words; a refusal names the first condition that fails |
| ReadSchedulers.ReadScheduler.LiveOffset | src/read.rs:410-413 | the word offset of a file's next position is the true one after any number of wraps |
| ReadSchedulers.ReadScheduler.LiveDistance | src/read.rs:164-179 | the word distance tested at admission is the true number of live positions |
| ReadSchedulers.ReadScheduler.HeadEnds | src/read.rs:440-445 | the word comparison that retires a file agrees with the true one |
| ReadSchedulers.ReadScheduler.SetWindow | src/read.rs:201-210 | replaces the window, keeps authorized cells and files, returns exactly what exceeds both the new target and the cells in use |
| ReadSchedulers.ReadScheduler.PollFile | src/read.rs:375-436 | the in-place poll on words computes the poll step on true positions, its fault and whether the backend was asked |
| ReadSchedulers.ReadScheduler.RetireFiles | src/read.rs:440-449 | the in-place loop drops exactly the files whose last frame was handed out |
| Readers.EmitAdjusts | src/read.rs:257-308 | handing out a frame gives up its cell, and of the grant all that exceeds target and cells, once that is 32 frames or the cells are within the target, and nothing before |
| ReadSchedulers.ReadScheduler.AdjustCapacity | src/read.rs:302-308 | returns excess capacity with the source's hysteresis |
| ReadSchedulers.ReadScheduler.Fail | src/read.rs:451-458 | drops all I/O and capacity and keeps the error |
| ReadSchedulers.ReadScheduler.Drive | src/read.rs:321-373 | raises the grant exactly as far as the budget allows, gives every known position within grant and target a cell, and polls files in turn from where the last call stopped; at most max(256, files) backend polls, a self-wake only after exactly that many with some file not set aside; otherwise it stops only when no file can move; a whole round before any file is polled again, no operation asked again once it was found pending, and a cause when it stops for good |
| ReadSchedulers.ReadScheduler.PollProgress | src/read.rs:272-286 | progresses as far as one call may, as stated for Drive, and consumes nothing; a stored error and the end are kept; an empty input leaves no capacity, grant or request and ends once closed; a self-wake only when the polls of the call are used up, otherwise a wait has an outstanding cause; a new error is one a backend reported |
| ReadSchedulers.ReadScheduler.PollRead | src/read.rs:235-263 | waits or hands out a frame only after progressing as far as one call may, as stated for Drive; a frame is the next one of the sequential reading; a stored error is delivered at once and only once, then the end for ever; the end comes after it or after the last frame of a closed input; a call waits only if the next frame is missing, and unless it has used up its polls and woken itself only if the file it belongs to was asked last in this call and is pending, or the permit is queued |
| ReadSchedulers.ReadScheduler.OthersKeepValid | src/budget.rs:63-78 | whatever the other permits of the shared budget do, and for however long, leaves the scheduler valid and unchanged |
| SharedSystems.NewSchedulersFit | src/write.rs:393-413 | new schedulers fit a new permit, so every system built from an empty one is sound |
| SharedSystems.NextKeepsInv | src/budget.rs:63-78 | one step of any scheduler, with its budget operation, keeps every scheduler and the budget sound |
| SharedSystems.QueuePlaceKept | src/write.rs:513-525 | a queued writer keeps its place through a poll of its own destinations if and only if the poll releases no capacity |
| SharedSystems.EveryRunShares | src/budget.rs:63-78 | any number of read and write schedulers on one budget, joining, leaving and interleaving at will, all keep their guarantees and together never hold more frames in memory than the total |
| SharedSystems.BlockedSystemCanAdvance | src/write.rs:576-600 | deadlock freedom in every reachable state: with resting replay writers and a blocked queue, some other writer has an unclaimed grant or a file that can finish without more budget |
| SharedProgress.HeadIsServed | src/budget.rs:31-60 | liveness from every such state: at most as many successful polls of the other writers as these have state changes left serve the blocked head, without any further frame or request |
| Clients.LeadsSpares | src/budget.rs:63-78 | whatever a scheduler does is, to every other permit, a run of the budget in which that permit does nothing |
| SharedSystems.LeadsIsRun | src/budget.rs:63-78 | whatever a scheduler object does is a run of the shared system, so the theorems about all systems hold of objects |
| SharedSchedulers.PollWriter | src/write.rs:643-710 | with any number of schedulers on one budget, polling a writer leaves all valid and the others as they were |
| SharedSchedulers.CloseWriter | src/write.rs:733-755 | the same for closing a writer |
| SharedSchedulers.PollReader | src/read.rs:235-263 | the same for polling a reader |
| SharedSchedulers.AddWriter | src/write.rs:393-413 | a new writer may join at any time |
| SharedSchedulers.AddReader | src/read.rs:116-140 | a new reader may join at any time |
| SharedSchedulers.MemoryIsShared | src/budget.rs:63-78 | after any calls of any of the objects, together they keep no more frames in memory than the budget's total |
| SegmentFiles.Segment.PollOpenFile | examples/tcp_to_file/src/main.rs:41-66 | opening forgets the old handle and offset; success empties the file for writing or starts reading it |
| SegmentFiles.Segment.PollWrite | examples/tcp_to_file/src/main.rs:76-88 | short writes resumed over pending polls append exactly the whole frame; success means the file is the concatenation of all accepted frames |
| SegmentFiles.Segment.PollClose | examples/tcp_to_file/src/main.rs:89-96 | a closed file holds exactly the accepted frames |
| SegmentFiles.Segment.PollRead | examples/tcp_to_file/src/main.rs:105-122 | short reads resumed over pending polls deliver exactly the next block; the end is reported only at the end of the file, an early end only inside a block |
| SegmentFiles.SegmentIsSource | examples/tcp_to_file/src/main.rs:99-122 | a stored file of whole blocks delivers the frames the read scheduler expects and never ends before its declared count |
| StoredWrites.PollKeepsBacking | examples/tcp_to_file/src/main.rs:69-97 | through short writes, waits inside a frame, errors and new attempts, the segment of a slot always holds exactly what the slot's log says, plus the part of the frame it presents next |
| StoredWrites.PushKeepsBacking | src/write.rs:565-569 | handing a slot another frame does not disturb the frame its segment is in the middle of |
| StoredWrites.PollStored | examples/tcp_to_file/src/main.rs:69-97 | the same with the objects: a slot polled on its segment |
| StoredWrites.MoveIsBacked | src/write.rs:499-766 | every event of a writer, with what it means for the segments, keeps each slot backed and each result in a file of its name |
| StoredWrites.DiskHoldsResults | examples/tcp_to_file/src/main.rs:161-200 | in every run, whatever the segments do, the files they leave are the writer's results under the names of their destinations |
| StoredWrites.AnyAnswerIsPossible | examples/tcp_to_file/src/main.rs:69-97 | no answer is excluded: a segment in the middle of a frame may complete, wait or fail |
| StoredWrites.EveryRunHasDisk | examples/tcp_to_file/src/main.rs:161-200 | every run of a writer that is fed no empty frame is one that segments can bring about |
| StoredReads.AnswersAreReal | examples/tcp_to_file/src/main.rs:105-122 | a successful read leaves exactly the declared frame in the buffer, and a file of whole blocks does not end early |
| StoredReads.AnyAnswerIsPossible | examples/tcp_to_file/src/main.rs:99-122 | no answer but the end is excluded while declared frames are left: a segment may succeed, wait or fail |
| StoredReads.PollKeepsFeeding | examples/tcp_to_file/src/main.rs:99-122 | after a poll the segment has delivered what the slot has received, and the part of the next frame it has read is in the slot's buffer |
| StoredReads.AskSegment | examples/tcp_to_file/src/main.rs:99-122 | the segment object answers what the slot's state asks for in the way the runs assume |
| StoredReads.MoveIsFed | src/read.rs:375-449 | every event of a reader, with what it means for the segments, keeps each slot fed from the right place of its file; every read in it is real |
| StoredReads.OutputsAreReal | examples/tcp_to_file/src/main.rs:242-277 | in every run, whatever the segments do, each frame handed out is the one that segments put into its buffer; at a clean end these are all frames of all files |
| StoredReads.EveryRunHasSegments | examples/tcp_to_file/src/main.rs:242-277 | every run over stored files in which opens do not end, files do not end early and a waiting read leaves a whole buffer is one that segments can bring about |
| SegmentNames.FileNameOrder | examples/tcp_to_file/src/main.rs:135-139 | twenty-digit names are in alphabetical order exactly when the numbers are, and differ when they do |
| SegmentNames.SortRestores | examples/tcp_to_file/src/main.rs:232 | sorting any listing of the segments by name restores their order |
| Catalogs.SegmentsArePieces | examples/tcp_to_file/src/main.rs:22-26 | segments of 160 frames are consecutive pieces of 10 MiB of the same bytes |
| Catalogs.MatchesExactly | examples/tcp_to_file/src/main.rs:208-231 | a listing is taken exactly if its segments are whole blocks, each of at most 160, and together hold the recorded bytes with their last block completed |
| Catalogs.PickedExactly | examples/tcp_to_file/src/main.rs:212-216 | the segments of a listing are all its files with the extension, and nothing else |
| Catalogs.RestoredIsInput | examples/tcp_to_file/src/main.rs:182-232 | any listing of what an upload must leave passes the checks, and its joined segments cut off at the recorded length are the input |
| Uploads.SwapCompleted | examples/tcp_to_file/src/main.rs:150-153 | as many completed destinations as reported are replaced by the next numbers and their results lie on disk under their names; it stops early only when segment numbers run out |
| Uploads.WriteBytes | examples/tcp_to_file/src/main.rs:141-159 | all given bytes are consumed once and in order, however little each poll takes; it fails only on an error of a backend or when numbers run out, and calls run out only if there were fewer than a stated bound or a poll did not succeed |
| Uploads.CloseAll | examples/tcp_to_file/src/main.rs:187-197 | after the close loop the files on disk are the numbered pieces of all bytes; if all polls succeed, effort / 256 + files + 1 calls are enough to end it |
| Uploads.Upload | examples/tcp_to_file/src/main.rs:161-200 | a completed upload stores exactly the padded input in numbered files and its byte count, however it was fragmented; these are the files its segments leave, whatever each of their polls did; it fails only on an error of a backend or when numbers run out, and if all polls succeed completes within a stated number of calls |
| Downloads.Scan | examples/tcp_to_file/src/main.rs:208-225 | collects exactly the segments of a listing, or finds one whose size no upload produces |
| Downloads.Feed | examples/tcp_to_file/src/main.rs:243-253 | offers sources in order until one is refused for want of room, which it keeps for later, and closes input only after the last; it fails only if the reader has failed or positions are too small |
| Downloads.ReadAll | examples/tcp_to_file/src/main.rs:242-277 | a finished loop has sent the frames of all sources in order, cut off after the recorded number of bytes; failures have their cause, and if all polls succeed a stated number of calls is enough |
| Downloads.Download | examples/tcp_to_file/src/main.rs:202-280 | refuses exactly the listings that do not match the byte count; otherwise sends exactly as many bytes as recorded, from the joined sorted segments; these are the bytes its segments read into the buffers, in a complete reading of all files; it fails only on what a backend reported or with too small positions, and if all polls succeed completes within a stated number of calls |
| Transfers.UploadThenDownload | examples/tcp_to_file/src/main.rs:340-388 | upload then download is the identity on bytes for every fragmentation, backend timing, directory order and word size; the files between are what the upload's segments hold after short writes, the bytes sent what the download's segments take out of them by short reads; if all polls succeed, enough calls are allowed, and numbers and positions suffice, the bytes do come back |

## Left out

- Wakers: their identity, cloning and replacement; only which operations were found pending, which request is queued, which call woke itself, and for writers whether a task is registered and when it is woken.
- Threads and lock poisoning: each budget operation is one atomic step.
- Pinning, generics over pinned pointers and the forwarding implementations of src/traits.rs: typing only.
- Word sizes other than those of read positions: frame counts, capacities, retries and byte totals are unbounded numbers; the overflow checks of the transfer program appear only for segment numbers.
- Close results: a destination's result is the content it committed; the source's backends choose the type.
- Failure inside a read poll: the model releases everything in the poll that failed, the source one frame up the call stack in the same call.
- The rejections MissingWriteFile and InvalidBudgetRequest of writing, and InvalidFramePosition of reading: proved never to occur.
- Awaiting: a future is polled at most `polls` times, for every `polls`; that backends eventually answer is a condition of the results about completion, not something proved.
- Downloads.Download: whether its run is plausible depends on the answers of the backends, so that segments can bring it about is stated under that condition; for an upload it holds without one.
- Upload and download errors: a failed transfer is only reported as failed, with its possible causes; which files remain is not described.
- Dates, sockets, timers, directory creation and removal: an upload starts from an empty directory, a download sees some listing.
- Sorting: the standard library's sort is modelled by insertion; only that the result is an ordered permutation matters.
- Formatting of errors, Debug output and the builders of src/config.rs and src/error.rs.
- `progress()` of src/read.rs:290-296: a loop around `poll_progress`, which is modelled; the download runs it any number of times.
- examples/http_upload and examples/pingora_upload: network clients written for interfaces the library no longer exports.
