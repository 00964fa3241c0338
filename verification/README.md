# Verified core of the anytty daemon and client

This project models the parts of anytty that are hardest to get right and proves what they
promise, for every input and every interleaving. Each critical section (the code between a lock
and its unlock) is one atomic step; a run is any sequence of steps of any threads. History that
the program does not keep (the bytes accepted, the log each consumer was given, the screen at each
revision, the epochs clients were told) is recorded beside the state, and the theorems speak of it.

| component | modules | shape |
|---|---|---|
| shared terminal output buffer and the daemon-wide byte budget | `OutputModel`, `OutputLemmas`, `OutputProofs`, `OutputRuns`, `OutputTheorems`, `OutputProgress`, `OutputEffects`, `OutputBlocking`, `OutputReleases`, `OutputBudget`, `OutputLoops`, `OutputClass`, `OutputList` | sections as functions, runs and theorems; `TerminalOutputBuffer` and `ResidentBudget` run the same sections with loops over mutable fields, and `ChunkList` is the list as linked cells |
| live-screen deltas | `LiveDelta`, `LiveScreen`, `LiveRuns`, `LiveReuse`, `LiveEffects` | the row diff and its merge as methods with loops; the protocol as a state machine |
| baseline cache of a protocol session | `BaselineCache`, `BaselineEffects`, `BaselineWorld`, `BaselineSession` | functions, runs over any number of sessions, and the class `SessionBaselines` |
| grant admission, revocation, expiry, shutdown | `Grants`, `GrantProofs`, `GrantEffects`, `GrantServer` | a state machine over procedures between locks, and the class `GrantTables` |
| endpoint assembler and route planner | `Assembler`, `AssemblerProofs`, `AssemblerSafety`, `AssemblerProvenance`, `AssemblerEffects`, `AssemblerWitness`, `AssemblerMethods`, `Planner`, `PlannerProofs`, `PlannerMethods` | functions with theorems, and methods with the source's loops |
| resize ownership | `ResizeOwners`, `ResizeEffects`, `ResizeRegistry` | runs over any number of sessions, and the class `ResizeTables` |
| session resources | `SessionResources` | runs, and the class `ResourceTable` |
| binding handles | `BindingEngine` | runs, and the class `BindingTables` |
| raw PTY fan-out | `RawPtyFanout` | runs, and the class `RawPtyBroadcaster` |

Classes are proved against the functions: every method's new state is the function of its old
state, and every step of a run that touches a table is a method of its class, so what is proved of
runs holds of the objects. Steps that happen outside the tables (time passing, a store taking a
revocation, a section of some buffer as the budget sees it) are ghost methods.

Safety alone would hold of a program that does nothing, so every operation's answer and effect is
stated as well: in the modules named `...Effects`, and in `RawPtyFanout`, `SessionResources` and
`BindingEngine` beside the runs. Where it can be said over whole runs it is: what was written
(`OutputEffects.WrittenIsLedger`), what every subscriber of a raw stream has
(`RawPtyFanout.EachAlone`), what a session holds (`SessionResources.RunHolds`), which offer a
merged route has (`AssemblerEffects.AssemblyTakes`), who is admitted
(`GrantEffects.AdmittedIff`), and that a frame offered in time reaches the
poll (`BaselineEffects.OfferReachesPoll`).

## What turned out not to hold

Six promises hold only under a condition. Each has the code as it is, a run or input that breaks
the promise, and the exact condition, stated over what the caller does.

- A terminal re-created under its old ID can leave a client with rows that no terminal of that ID
  showed at that revision (`LiveReuse.ReusedIdBreaks`): the offered frame of the new terminal can
  have the very revision the client holds of the old one, and then answers the client's poll. For
  every sequence of created IDs, every pane of every run is right if and only if no ID occurs twice
  (`LiveReuse.ExactIffDistinct`). For one merge: deltas are safe exactly when the client holds the
  rows of the base they were made for (`LiveScreen.MergeIsSafe`).
- A lock request that reaches a terminal without a recorded owner reports an epoch older than one
  reported before (`ResizeOwners.EpochCanFall`). All reports of a run advance if and only if the run
  has no such request (`ResizeOwners.EpochsGrow`). An owner's key registered a second time would
  break the ranks as well, and exactly that (`ResizeOwners.RegisterKeepsIff`); no session does it,
  since channel IDs are issued once (`SessionResources.RunIssues`).
- When all fourteen IDs derived from a fingerprint are taken, a new daemon overwrites the endpoint
  at the last one, and the whole assembly still succeeds (`AssemblerSafety.CrowdedLosesEndpoint`,
  with a concrete input in `AssemblerWitness.LossHappens`). A successful assembly loses and re-pins
  nothing if and only if the derived IDs suffice, which can be counted before the call
  (`AssemblerSafety.AssemblySafe`).
- Clearing a session's history snapshots under a pending reservation, or replacing one attachment
  channel twice in one call, makes the session's counters wrong
  (`SessionResources.EarlyReleaseOverruns`, `SessionResources.TwiceReplacedMiscounts`). They are exact throughout a run if and only if it does
  neither (`SessionResources.AccountsExact`); the teardown waits for its requests first.
- Reporting an operation of the binding done twice while its session counts another one takes that
  one off too (`BindingEngine.RepeatLosesOperation`). The counts are exact throughout a run if and only if no report is repeated that way
  (`BindingEngine.CountsExactIff`); the source reports each operation once.
- Row fingerprints that collide make deltas wrong; deltas are right for all screens exactly when
  they do not (`LiveDelta.DeltaNeedsInjective`).

## Model

| member | source | states |
|---|---|---|
| OutputTheorems.LogTilesStream | core/terminal_output_buffer.go:285-479 | in every reachable state each consumer's log accounts in order, without overlap or hole, for a front of the stream: batches carry the bytes written there, gaps weigh exactly the bytes missing there; both streams are fronts of one written stream, and an active consumer's is all of it; what was written is fixed by OutputEffects.WrittenIsLedger |
| OutputTheorems.BytesConserved | core/terminal_output_buffer.go:481-563 | accepted = ingested + dropped + still pending, and the gap counter is the epoch plus the gap in flight plus the gap pending |
| OutputTheorems.FailureReportsAll | core/terminal_output_buffer.go:481-563 | a failed consumer's error reports exactly the accepted bytes it neither ingested nor was told about in a completed gap |
| OutputTheorems.FlushSound | core/terminal_output_buffer.go:723-756 | when a flush succeeds on an active consumer, every chunk accepted before the call was ingested or covered by a completed gap |
| OutputTheorems.DrainedHasAll | core/terminal_output_buffer.go:438-479 | a worker that is told to stop while its consumer is active has the whole stream in its log |
| OutputTheorems.ResidentBounded | core/terminal_output_buffer.go:696-721 | resident is the payload of the listed nodes, all of them wanted by someone, and within capacity |
| OutputTheorems.RunGrows | core/terminal_output_buffer.go:285-384 | over any run streams and logs only grow, and stay fronts of the one written stream |
| OutputProgress.DropsEnough | core/terminal_output_buffer.go:584-608 | dropping frees what is required or leaves only batches in flight, frees exactly the drained nodes, and visits no node more once enough is drained |
| OutputProgress.BatchFits | core/terminal_output_buffer.go:458-475 | a batch of several chunks stays within 16 KiB, and the next queued chunk would not have fitted |
| OutputProgress.WorkIsOffered | core/terminal_output_buffer.go:438-479 | a worker with free hands whose log is behind the stream is handed a batch or a gap |
| OutputProgress.FlushEnds | core/terminal_output_buffer.go:723-756 | a flush of an active consumer is done exactly when its log covers the target |
| OutputEffects.WrittenIsLedger | core/terminal_output_buffer.go:285-384 | for every run: what was written is, in order, every chunk committed while the buffer was neither closed nor sealed, and every chunk refused while it was open under the drop policy, and no other; kept from the actions and the answers to the writer alone |
| OutputEffects.CommitLists | core/terminal_output_buffer.go:337-384 | a committed chunk of an open buffer is the next of the stream; every active consumer without a gap has it queued last with its gap counters unchanged, one with a gap has its pending gap larger by the chunk and all it had queued, and nobody else changes |
| OutputEffects.RefusalLoses | core/terminal_output_buffer.go:610-632 | a refused chunk is numbered, and lost with everything queued to every active consumer, the batch in flight kept |
| OutputEffects.SqueezeMakesRoom | core/terminal_output_buffer.go:289-304 | an overfull drop-policy buffer frees bytes, or refuses the chunk exactly when it can free none |
| OutputEffects.WriteReachesLog | core/terminal_output_buffer.go:266-526 | admitted, committed, taken and finished, a chunk that fits is in the log of an up-to-date consumer byte for byte |
| OutputEffects.FetchAnswers | core/terminal_output_buffer.go:438-479 | with free hands: stop exactly for an inactive consumer, a closed buffer, or a sealed one with nothing left; wait exactly when open with nothing left; a gap exactly when one is pending; a batch exactly when chunks are queued and no gap is |
| OutputEffects.TakeHolds | core/terminal_output_buffer.go:438-479 | what is handed out is held by the worker and on record in the buffer; nothing else changes |
| OutputEffects.BatchFinishes | core/terminal_output_buffer.go:481-526 | a finished batch is logged, completed to its end and pending no more; a failed one ends its consumer with an error and nothing pending; the other consumer is untouched |
| OutputEffects.GapFinishes | core/terminal_output_buffer.go:528-563 | a handled gap is logged, with its epoch, completed to its end; a failed one ends its consumer |
| OutputEffects.CloseTakes | core/terminal_output_buffer.go:766-796 | closing stops every consumer, and turns exactly what it had queued into its gap |
| OutputEffects.EvictFrees | core/terminal_output_buffer.go:572-582 | an eviction frees what is required or leaves only batches in flight |
| OutputEffects.FlushAnswers | core/terminal_output_buffer.go:723-756 | done exactly when the consumer has not failed and is off or its log covers the target; failed exactly when it failed and that is handled; waiting otherwise |
| OutputEffects.FlushNeverSucceeds | core/terminal_output_buffer.go:735-750 | a flush of a failed consumer never succeeds, in any continuation: it waits while the failure is pending and then fails |
| OutputRuns.StepKeeps | core/terminal_output_buffer.go:285-796 | every critical section keeps the invariant: completed, in flight, pending gap and queued chunks split the sequence numbers contiguously for both consumers |
| OutputRuns.RunKeeps | core/terminal_output_buffer.go:285-796 | so does every run |
| OutputRuns.DropOldestKeeps | core/terminal_output_buffer.go:584-608 | dropping the oldest queued chunks turns them into gaps and never grows the buffer |
| OutputRuns.DropIncomingKeeps | core/terminal_output_buffer.go:610-632 | a refused chunk is numbered and becomes part of an ordered gap with everything queued before it |
| OutputRuns.AppendKeeps | core/terminal_output_buffer.go:337-384 | an appended chunk is listed for consumers without a gap and lost to those with one |
| OutputRuns.TakeKeeps | core/terminal_output_buffer.go:438-479 | what a worker takes is the next contiguous part of its stream |
| OutputRuns.FinishBatchOk | core/terminal_output_buffer.go:481-526 | a completed batch moves the consumer past it |
| OutputRuns.FinishBatchFailed | core/terminal_output_buffer.go:500-516 | a failed batch releases everything the consumer had and accounts for it |
| OutputRuns.FinishGapOk | core/terminal_output_buffer.go:528-563 | a completed gap moves the consumer past it |
| OutputRuns.FinishGapFailed | core/terminal_output_buffer.go:535-549 | a failed gap releases everything and accounts for it |
| OutputRuns.CloseKeeps | core/terminal_output_buffer.go:766-796 | closing turns what is queued into gaps |
| OutputProofs.TiledBytes | core/terminal_output_buffer.go:438-563 | a tiling log's ingested and skipped bytes are the bytes of the front it reached |
| OutputLemmas.ReclaimItems | core/terminal_output_buffer.go:696-721 | reclaiming changes nothing a consumer sees |
| OutputLemmas.ShedOwn | core/terminal_output_buffer.go:668-679 | shedding keeps exactly the batch in flight and what follows the part shed |
| OutputBlocking.BlockDeliversExactly | core/terminal_output_buffer.go:285-384 | under the block policy no gap is ever handed out or handled and a running consumer's ingested bytes are the written bytes exactly |
| OutputBudget.BudgetExact | core/terminal_output_buffer.go:128-200 | for any number of buffers the budget's counter is the buffers' resident bytes plus reserved-not-appended plus freed-not-released bytes, where freed is the amount each section itself computes, and never exceeds the maximum |
| OutputBudget.ReleaseCovered | core/terminal_output_buffer.go:189-200 | the clamp at zero never fires |
| OutputBudget.MoveKeeps | core/terminal_output_buffer.go:128-200 | reserving, appending, evicting and releasing in any order keep the account |
| OutputReleases.ReleasedIsExact | core/terminal_output_buffer.go:285-384 | the amount each section computes for release (the payloads its reclaim pass unlinks, with the chunk's own bytes when nobody wants it, or those alone once closed or sealed) is exactly what the buffer and the writer's reservation no longer hold |
| OutputBudget.StepReleases | core/terminal_output_buffer.go:337-384 | so it is for a buffer under the budget, reservation included |
| OutputBudget.ResidentBudget.RegisterBuffer | core/terminal_output_buffer.go:104-113 | a new buffer joins without changing the counter |
| OutputBudget.ResidentBudget.Section | core/terminal_output_buffer.go:285-384 | a section of a member leaves exactly the amount it computed to be released |
| OutputBudget.ResidentBudget.CloseForGood | core/terminal_output_buffer.go:220-228 | closing is one step |
| OutputBudget.ResidentBudget.TryReserve | core/terminal_output_buffer.go:145-154 | one reservation attempt succeeds exactly when open and the bytes fit, and then counts them and marks the chunk |
| OutputBudget.ResidentBudget.ReleaseBytes | core/terminal_output_buffer.go:189-200 | a release takes exactly its bytes off |
| OutputLoops.VisitSheds | core/terminal_output_buffer.go:589-605 | visiting one node more is shedding one node more, cursor included |
| OutputLoops.ShedVisit | core/terminal_output_buffer.go:621-627 | one more visited node adds its bytes to the gap |
| OutputLoops.InvAnchors | core/terminal_output_buffer.go:438-563 | cursors stand where the invariant puts them |
| OutputClass.TerminalOutputBuffer.constructor | core/terminal_output_buffer.go:251-261 | a new buffer is the model's initial state |
| OutputClass.TerminalOutputBuffer.NextPending | core/terminal_output_buffer.go:648-655 | walks to the first node pending for a consumer |
| OutputClass.TerminalOutputBuffer.MarkGone | core/terminal_output_buffer.go:668-679 | the loop sheds exactly what the model sheds |
| OutputClass.TerminalOutputBuffer.Sweep | core/terminal_output_buffer.go:696-721 | unlinks exactly the nodes nobody waits for and returns their bytes |
| OutputClass.TerminalOutputBuffer.VisitOldest | core/terminal_output_buffer.go:589-605 | the interleaved visits of both consumers are the model's two sheds, and stop after the same node |
| OutputClass.TerminalOutputBuffer.DropOldestLocked | core/terminal_output_buffer.go:584-608 | is the model's DropOldest, and returns the bytes freed |
| OutputClass.TerminalOutputBuffer.DropIncomingLocked | core/terminal_output_buffer.go:610-632 | is the model's DropIncoming |
| OutputClass.TerminalOutputBuffer.AppendLocked | core/terminal_output_buffer.go:337-384 | is the model's Append, and returns what goes back to the budget |
| OutputClass.TerminalOutputBuffer.Gather | core/terminal_output_buffer.go:458-475 | a batch takes as many queued chunks as fit and carries their bytes |
| OutputClass.TerminalOutputBuffer.TakeLocked | core/terminal_output_buffer.go:438-479 | is the model's Fetch |
| OutputClass.TerminalOutputBuffer.Acknowledge | core/terminal_output_buffer.go:490-499 | clears exactly the batch's marks and moves completedSeq to its end |
| OutputClass.TerminalOutputBuffer.CompleteBatchLocked | core/terminal_output_buffer.go:481-526 | is the model's CompleteBatch |
| OutputClass.TerminalOutputBuffer.CompleteGapLocked | core/terminal_output_buffer.go:528-563 | is the model's CompleteGap |
| OutputClass.TerminalOutputBuffer.ReleaseFrom | core/terminal_output_buffer.go:657-666 | takes all remaining marks off and returns their bytes |
| OutputClass.TerminalOutputBuffer.CloseLocked | core/terminal_output_buffer.go:766-796 | is the model's Close |
| OutputClass.TerminalOutputBuffer.Admit | core/terminal_output_buffer.go:288-322 | the capacity check is one step of the run, and admits exactly a chunk that is not empty and fits an open buffer with an active consumer |
| OutputClass.TerminalOutputBuffer.Squeeze | core/terminal_output_buffer.go:289-304 | making room, or refusing when nothing could go, is one step, and frees what the model releases |
| OutputClass.TerminalOutputBuffer.Commit | core/terminal_output_buffer.go:337-384 | numbering and listing is one step: on an open buffer the chunk is written, numbered next, and every consumer gets it or a larger gap; hands back what the model releases |
| OutputClass.TerminalOutputBuffer.Abandon | core/terminal_output_buffer.go:324-335 | a refused reservation is one step, numbers the chunk as lost on an open drop-policy buffer, and frees what the model releases |
| OutputClass.TerminalOutputBuffer.Evict | core/terminal_output_buffer.go:572-582 | an eviction for another buffer is one step, and frees what the model releases |
| OutputClass.TerminalOutputBuffer.Begin | core/terminal_output_buffer.go:395-409 | a worker starts once, exactly for an active consumer of an open buffer |
| OutputClass.TerminalOutputBuffer.Next | core/terminal_output_buffer.go:438-479 | taking work is one step |
| OutputClass.TerminalOutputBuffer.FinishBatch | core/terminal_output_buffer.go:481-526 | finishing a batch is one step, and frees what the model releases |
| OutputClass.TerminalOutputBuffer.FinishGap | core/terminal_output_buffer.go:528-563 | finishing a gap is one step, and frees what the model releases |
| OutputClass.TerminalOutputBuffer.CompleteFailureHandling | core/terminal_output_buffer.go:565-570 | clearing the failure mark is one step |
| OutputClass.TerminalOutputBuffer.Seal | core/terminal_output_buffer.go:758-764 | sealing is one step |
| OutputClass.TerminalOutputBuffer.Shut | core/terminal_output_buffer.go:766-796 | closing is one step, and frees what the model releases |
| OutputClass.CutPayload | core/terminal_output_buffer.go:266-283 | the chunks of a write concatenate to it, and none is empty or exceeds 16 KiB or the capacity |
| OutputList.ChunkList.Link | core/terminal_output_buffer.go:366-372 | linking a node behind the tail appends its value |
| OutputList.ChunkList.FindPending | core/terminal_output_buffer.go:648-655 | the walk along `next` finds the first node pending for a consumer |
| OutputList.ChunkList.Meets | core/terminal_output_buffer.go:681-694 | the walk over a batch meets a node exactly when it stands between its ends |
| OutputList.ChunkList.Flying | core/terminal_output_buffer.go:681-694 | which is to say exactly when its number lies between theirs |
| OutputList.ChunkList.GiveUp | core/terminal_output_buffer.go:657-666 | the walk takes a consumer's marks off from a cursor on and returns the bytes |
| OutputList.ChunkList.CutOut | core/terminal_output_buffer.go:706-718 | one node is taken out of the middle, head and tail repaired |
| OutputList.ChunkList.Unlink | core/terminal_output_buffer.go:696-721 | the pass leaves the links along exactly the nodes somebody waits for, none of which moves or changes, and returns the bytes unlinked |
| LiveDelta.DeltaGood | core/live_native_screen.go:63-104 | every row is kept because equal, in exactly one copy of an equal base row, or replaced because no base row is equal; copies are in bounds, disjoint in destination and maximal |
| LiveDelta.DeltaExact | core/live_native_screen.go:63-104 | a client that holds the base ends with exactly the current rows |
| LiveDelta.DeltaNeedsBase | core/live_native_screen.go:63-104 | deltas against a base are right for every screen to come exactly when the client holds that base |
| LiveDelta.DeltaNeedsInjective | core/live_native_screen.go:63-104 | deltas are right for all screens exactly when row fingerprints do not collide |
| LiveDelta.DeltaRows | core/live_native_screen.go:63-104 | the three loops compute the delta, and refuse exactly without a baseline of the same height |
| LiveDelta.IndexRows | core/live_native_screen.go:67-72 | the map leads to the first row of every hash |
| LiveDelta.FindSources | core/live_native_screen.go:73-83 | every row finds itself, else the first equal base row |
| LiveDelta.GroupRows | core/live_native_screen.go:84-103 | neighbouring rows with neighbouring sources become one copy |
| LiveDelta.MergeRows | tui/state/live.go:1014-1050 | the client's loops copy the held rows, cut or filled up to the incoming height, apply copies from the held rows, then replacements, or refuse what does not fit |
| LiveScreen.MergeIsSafe | tui/state/live.go:1014-1050 | deltas made against a base keep a pane right whatever comes next exactly when it refuses them for their size or holds the base's rows |
| LiveScreen.FullShows | core/terminal.go:447-486 | a full answer gives exactly the terminal's screen |
| LiveScreen.DeltaShows | core/terminal.go:437-486 | a delta merged into the frame it was made for gives exactly the terminal's screen |
| LiveRuns.SnapshotTruthful | core/terminal.go:420-486 | a snapshot tells in full, or against a screen shown before, what its terminal shows |
| LiveRuns.SnapshotIsDelta | core/terminal.go:433-457 | with a frame of the observed revision, generation and shape at hand the answer is a delta, and replaces exactly the rows no base row equals |
| LiveRuns.NextKeeps | core/application_session_port.go:491-516 | every step keeps cached frames and answers true, and a revision keeps determining the screen |
| LiveRuns.StraightRunsExact | core/terminal.go:420-486 | in every run in which no delta about one terminal object meets a frame of another, every pane shows exactly the server's screen at its revision |
| LiveRuns.FreshIdsExact | core/application_session_port.go:491-516 | every pane of every run whose created IDs are distinct is exact, with writes, resizes, restarts, removals, expiry, overlapping polls and lost answers |
| LiveReuse.ReusedIdBreaks | core/application_session_port.go:508-514 | for any created IDs with a repeat, and any two different rows, a run that creates exactly those and ends with a pane whose rows no terminal of its ID showed at its revision |
| LiveReuse.ExactIffDistinct | core/server.go:811-840 | for every sequence of IDs (empty ones are refused at registration): every pane of every run that creates them is exact if and only if no ID occurs twice |
| LiveEffects.PollShows | core/application_session_port.go:491-516 | a poll of a registered terminal with nothing between, first or following, leaves its pane with exactly the terminal's screen and revision |
| LiveEffects.SnapshotShows | core/terminal.go:420-486 | an answer is of the terminal's revision, acceptable to the pane that asked, and gives it the terminal's screen |
| BaselineCache.ApplyKeeps | core/protocol_live_screen_baseline.go:27-198 | every operation keeps exactly the listed baselines charged, in one slot each, offers unpinned, and moves both counters alike |
| BaselineCache.AcquireKeeps | core/protocol_live_screen_baseline.go:27-73 | promotion and pinning keep the account |
| BaselineCache.OfferKeeps | core/protocol_live_screen_baseline.go:75-114 | an offer replaces, is refused or is charged |
| BaselineCache.PruneKeeps | core/protocol_live_screen_baseline.go:145-159 | pruning in any order keeps the account |
| BaselineCache.ClearOverKeeps | core/protocol_live_screen_baseline.go:182-198 | clearing in any order gives everything back |
| BaselineEffects.PruneExact | core/protocol_live_screen_baseline.go:145-163 | a pass leaves exactly the frames that are held or whose time has not come, and removes exactly the entries left empty |
| BaselineEffects.PruneSpares | core/protocol_live_screen_baseline.go:145-163 | such a frame keeps its charge too |
| BaselineEffects.AcquireAnswers | core/protocol_live_screen_baseline.go:27-73 | a poll gets exactly the frame it observed, offered before confirmed, unless that would replace one still held; it is then its confirmed frame, pinned once more and without expiry |
| BaselineEffects.OfferStoredIff | core/protocol_live_screen_baseline.go:75-114 | an offer is stored, to expire two seconds later, exactly when, expired frames gone, its entry has a place, no newer offer waits and both limits allow it |
| BaselineEffects.OfferReachesPoll | core/protocol_live_screen_baseline.go:27-114 | an offer with room, through any other actions of the session, is what a poll of its revision within two seconds gets |
| BaselineWorld.RunKeeps | core/protocol_live_screen_baseline.go:116-143 | over any run of any number of sessions the server's counter is their sum and within 64 MiB |
| BaselineSession.CountersExact | core/protocol_live_screen_baseline.go:75-143 | a session's counter is the weight of its confirmed and offered baselines, within 1 MiB, with at most 64 entries, and zero once cleared |
| BaselineSession.PinnedStays | core/protocol_live_screen_baseline.go:27-163 | a pinned frame stays cached and charged through every step but the teardown |
| BaselineSession.PruneClears | core/protocol_live_screen_baseline.go:145-163 | a pass over the entries, in any order, leaves no expired frame |
| BaselineSession.DropNeverClamps | core/protocol_live_screen_baseline.go:131-143 | a drop takes exactly its bytes off, never below zero, and a second drop is free |
| BaselineSession.SessionBaselines.DropCached | core/protocol_live_screen_baseline.go:131-143 | is the model's Drop |
| BaselineSession.SessionBaselines.PruneAll | core/protocol_live_screen_baseline.go:145-159 | the loop prunes every entry, in the order the map gives, and leaves every frame that is held or current as it is |
| BaselineSession.SessionBaselines.AcquireBaseline | core/protocol_live_screen_baseline.go:27-60 | pins exactly the frame due to the poll, or nothing when none is |
| BaselineSession.SessionBaselines.ReleaseBaseline | core/protocol_live_screen_baseline.go:61-72 | gives one pin back, and restarts the two seconds with the last |
| BaselineSession.SessionBaselines.OfferBaseline | core/protocol_live_screen_baseline.go:75-114 | stores the frame exactly when there is room for it |
| BaselineSession.SessionBaselines.ExpireBaselines | core/protocol_live_screen_baseline.go:172-180 | the timer trims every entry of an open session to what is held or current |
| BaselineSession.SessionBaselines.ClearAll | core/protocol_live_screen_baseline.go:182-198 | leaves nothing cached and nothing charged |
| GrantProofs.EndedForGood | core/grant_transport.go:89-132 | once a revoke bumped the epoch, or the expiry pass ran, no later state of any run tracks a transport of that grant |
| GrantProofs.EndsGrant | core/grant_transport.go:107-119 | every admission that asked the store before the bump will find a newer epoch |
| GrantProofs.TrackingKeeps | core/grant_transport.go:120-125 | a transport is tracked only for a grant that has not ended |
| GrantProofs.StoppedForGood | core/grant_transport.go:266-284 | after the stop pass no grant tracks a transport, in any continuation |
| GrantProofs.OperationsUnique | core/grant_transport.go:229-264 | an operation with references, transports or a timer is the one mapped for its grant; transports and timers go together; references are the procedures under way |
| GrantProofs.StaleTimerIsIdle | core/grant_transport.go:162-192 | a timer that was stopped or replaced never becomes current again and its callback changes nothing |
| GrantProofs.NextKeeps | core/grant_transport.go:89-292 | every critical section keeps the invariant |
| GrantProofs.RunKeeps | core/grant_transport.go:89-292 | so does every interleaving |
| GrantProofs.ReleaseKeeps | core/grant_transport.go:241-264 | giving a reference back prunes only idle operations |
| GrantEffects.RecheckDecides | core/grant_transport.go:107-132 | admitted exactly on an open server, before expiry, with the epoch read and the store's consent, and then tracked, pointed at and timed for the expiry; refused as shutdown exactly when closed, as expired exactly when open and past expiry, as revoked exactly otherwise |
| GrantEffects.AdmittedIff | core/grant_transport.go:89-132 | in every interleaving, an admission that read its epoch is admitted exactly when the store consents at the time it is asked, the server is open and the grant unexpired at the decision, and no bump, expiry or stop detached the operation between |
| GrantEffects.EpochCounts | core/grant_transport.go:89-284 | over every run an operation's epoch grows by exactly its detachments |
| GrantEffects.AdmissionSucceeds | core/grant_transport.go:89-126 | a known grant, not revoked and not expired, is admitted by an open server when nothing comes between its four steps |
| GrantEffects.RevocationEnds | core/grant_transport.go:194-213 | a revocation the store takes leaves its grant ended, without transports or timer, at a later epoch |
| GrantEffects.TimerEnds | core/grant_transport.go:173-192 | the current timer's callback ends the grant once its time has come, and changes nothing before |
| GrantEffects.UntrackTakes | core/grant_transport.go:134-150 | untracking takes exactly the transport away, and the timer with the last |
| GrantEffects.TrackedUntil | core/grant_transport.go:89-284 | a transport stays tracked until it is untracked, its grant bumped or expired, or the server stops |
| GrantEffects.EndTakes | core/grant_transport.go:241-246 | a procedure's end gives one reference back, and the operation leaves the table exactly when unused |
| GrantEffects.StopOneTakes | core/grant_transport.go:276-281 | the stop pass empties the operation it is at and gives it back |
| GrantServer.GrantTables.AcquireOperation | core/grant_transport.go:229-239 | finds or creates the grant's operation |
| GrantServer.GrantTables.PruneLocked | core/grant_transport.go:254-264 | removes exactly an idle mapped operation |
| GrantServer.GrantTables.DetachLocked | core/grant_transport.go:215-227 | the loop takes away every transport, its pointer and the timer |
| GrantServer.GrantTables.BeginAdmit | core/grant_transport.go:94-95 | taking the reference is one step |
| GrantServer.GrantTables.ReadEpoch | core/grant_transport.go:96-98 | reading the epoch is one step |
| GrantServer.GrantTables.QueryStore | core/grant_transport.go:100-103 | asking the store between the sections is one step |
| GrantServer.GrantTables.Recheck | core/grant_transport.go:107-125 | the decision is one step, with each answer exactly for its cause, and an admitted transport tracked |
| GrantServer.GrantTables.EndAdmit | core/grant_transport.go:95-95 | giving the reference back is one step |
| GrantServer.GrantTables.BeginRevoke | core/grant_transport.go:194-201 | a revocation takes its reference |
| GrantServer.GrantTables.StoreRevocation | core/grant_transport.go:203-206 | the store takes the revocation before the bump |
| GrantServer.GrantTables.Bump | core/grant_transport.go:207-210 | the bump is one step and detaches everything |
| GrantServer.GrantTables.EndRevoke | core/grant_transport.go:201-201 | a revocation gives its reference back |
| GrantServer.GrantTables.SwapPointer | core/grant_transport.go:134-135 | a transport's pointer is taken once |
| GrantServer.GrantTables.Remove | core/grant_transport.go:136-143 | untracking one transport is one step |
| GrantServer.GrantTables.PruneOperation | core/grant_transport.go:248-252 | pruning is one step |
| GrantServer.GrantTables.Fire | core/grant_transport.go:173-174 | a callback reads the time before it takes the lock |
| GrantServer.GrantTables.Expire | core/grant_transport.go:173-192 | a callback detaches only through its own timer entry |
| GrantServer.GrantTables.MarkClosed | core/server.go:1181-1186 | closing is one step |
| GrantServer.GrantTables.BeginStop | core/grant_transport.go:266-273 | the loop takes a reference on every mapped operation |
| GrantServer.GrantTables.StopOne | core/grant_transport.go:276-281 | detaching one operation is one step |
| GrantServer.GrantTables.ReleaseOne | core/grant_transport.go:281-281 | giving one operation back is one step |
| AssemblerProofs.OrderIndependent | client/endpoint/assembler.go:51-172 | permuting the candidates permutes the resolved IDs and changes neither registry, credentials nor success |
| AssemblerProofs.SortSame | client/endpoint/assembler.go:81-90 | the order of the candidates is one for each collection of them |
| AssemblerProofs.MergePins | client/endpoint/assembler.go:91-155 | a merged candidate's endpoint has its identity, and identities stay unique |
| AssemblerProofs.EqualIds | client/endpoint/assembler.go:155-155 | equal candidates are resolved to the same endpoint |
| AssemblerSafety.AssemblySafe | client/endpoint/assembler.go:51-172 | success yields a valid registry with unique devices and fingerprints; every saved endpoint keeps its pin (or has the identity confirmed for it) and every route with its kind, and every candidate is resolved to an endpoint with its identity, if and only if each candidate of an unknown identity has, in its turn, one of its fourteen IDs left |
| AssemblerSafety.MergeKeepsIff | client/endpoint/assembler.go:91-155 | merging keeps every saved endpoint exactly when its identity is known or one of the fourteen derived IDs is free |
| AssemblerSafety.DeriveIsFresh | client/endpoint/assembler.go:287-297 | the derived ID is fresh exactly when one of the fourteen is |
| AssemblerSafety.TakenIdsOverwrite | client/endpoint/assembler.go:287-297 | with all taken, the endpoint at the last one is replaced |
| AssemblerSafety.CrowdedLosesEndpoint | client/endpoint/assembler.go:51-172 | an assembly of a valid registry and a valid candidate that succeeds with a saved endpoint gone: same IDs, the last one now pinned to the newcomer |
| AssemblerWitness.LossHappens | client/endpoint/assembler.go:51-172 | a concrete registry, candidate and result of that kind |
| AssemblerWitness.PlainRulesSound | client/endpoint/assembler.go:320-336 | rules as the merge relies on them exist: texts and candidates can be keyed one to one |
| AssemblerSafety.IntactIffRoomy | client/endpoint/assembler.go:91-155 | all pins hold once all candidates are merged exactly when each found its endpoint or a free ID in its turn |
| AssemblerSafety.CensusFollows | client/endpoint/assembler.go:287-297 | counting IDs and identities ahead predicts every candidate's turn, up to the first without room |
| AssemblerSafety.BindToBound | client/endpoint/assembler.go:198-257 | after the bindings every endpoint has the identity confirmed for it, or the one it had; a saved identity is never changed, no endpoint is bound twice, and nothing else changes |
| AssemblerSafety.SortBindingsContents | client/endpoint/assembler.go:199-205 | the sort of the bindings keeps each as often as it was given |
| AssemblerSafety.RoutesSettle | client/endpoint/assembler.go:118-150 | routes merged once are not changed by merging them again |
| AssemblerSafety.AssemblyIdempotent | client/endpoint/assembler.go:51-172 | assembling one candidate into its own result gives that result again |
| AssemblerProvenance.AssemblyProvenance | client/endpoint/assembler.go:91-155 | what candidates may not do: of a saved endpoint a display name the user chose stays, a route's configuration comes from no lower-ranked source than before, and policies, connect mode and selection are as saved unless some candidate owned client policy; the only exception is the endpoint at the last ID of a candidate that had no room, and when the IDs suffice there is none (what they do is AssemblerEffects.AssemblyTakes) |
| AssemblerProvenance.MergeStep | client/endpoint/assembler.go:91-155 | a candidate touches its own endpoint only, each route by rank and policy rights, or replaces the endpoint at its last ID when it has no room |
| AssemblerEffects.AssemblyTakes | client/endpoint/assembler.go:51-172 | after an assembly with IDs that suffice, every route of a resolved endpoint has the configuration of the highest-ranked, last-ordered offer among the saved one and those of all candidates of its identity, and is as saved without an offer |
| AssemblerEffects.RouteWinner | client/endpoint/assembler.go:91-155 | the same for any front of the ordered candidates |
| AssemblerEffects.TurnTakes | client/endpoint/assembler.go:91-155 | a candidate's turn sets name, connect mode and selection as its rank and rights allow, takes each route it offers over, sets the default if there is none, and touches nothing else |
| AssemblerEffects.AddRoutesTake | client/endpoint/assembler.go:118-150 | every offered route is there: configuration and source from the last offer unless a higher-ranked source saved it, policy from an owner of client policy that forces it or ranks at least as high |
| AssemblerEffects.NewcomersWait | client/endpoint/assembler.go:141-148 | a source without client policy changes no policy, and its new routes are manual-only exactly when priorities are set |
| AssemblerEffects.TurnSucceedsIff | client/endpoint/assembler.go:91-150 | a turn succeeds exactly without an identity clash, with admissible offers whose kinds agree with what is saved and with each other |
| AssemblerEffects.CredentialsExact | client/endpoint/assembler.go:156-171 | a result lists exactly the candidates' credentials, one per ID in the order of the IDs |
| AssemblerEffects.DedupeExact | client/endpoint/assembler.go:408-428 | which succeeds exactly when no ID is described in two ways |
| AssemblerMethods.AssembleEndpoints | client/endpoint/assembler.go:51-172 | the whole method, with its loops, computes the assembly, with resolved IDs at the candidates' own places |
| AssemblerMethods.FindByIdentity | client/endpoint/assembler.go:174-196 | finds the endpoint of an identity, or that it is pinned another way |
| AssemblerMethods.ApplyBindings | client/endpoint/assembler.go:198-257 | the binding pass over the sorted bindings, with its two sets of what was seen |
| AssemblerMethods.DeriveEndpointId | client/endpoint/assembler.go:287-297 | the derived ID |
| AssemblerMethods.MergeRoutes | client/endpoint/assembler.go:118-150 | the route loop: every offered route taken over as rank and policy rights decide, all others as they were |
| AssemblerMethods.PlaceCandidate | client/endpoint/assembler.go:91-155 | one candidate's turn |
| AssemblerMethods.SortIndexed | client/endpoint/assembler.go:81-90 | the stable sort, with every candidate's original place |
| AssemblerMethods.MergeAll | client/endpoint/assembler.go:91-162 | the candidate loop |
| AssemblerMethods.Normalize | client/endpoint/registry.go:493-585 | accepts exactly the registries in order: endpoints valid, identities unique, default present and enabled |
| AssemblerMethods.ValidEndpoint | client/endpoint/registry.go:611-663 | accepts exactly valid endpoints, priorities all or none among automatic routes |
| PlannerMethods.PlanRoutes | client/endpoint/planner.go:103-181 | fails exactly for an invalid or disabled endpoint, a missing generation or intent, an unknown kind or an unclean reference, a named route that is absent, disabled or not available, or when no automatic route is left, each with its error; a named route is the one attempt, manual-only or not; otherwise the plan partitions the routes |
| PlannerMethods.PlanAutomatic | client/endpoint/planner.go:138-180 | the plan it returns partitions the routes, and it fails exactly when every route has an obstacle, with CredentialRequired exactly when a missing credential is one |
| PlannerMethods.KindSet | client/endpoint/planner.go:281-292 | the set of the kinds given, or a refusal of unknown ones |
| PlannerMethods.ReferenceSet | client/endpoint/planner.go:294-304 | the set of the references given, or a refusal of blank, padded or broken ones |
| Planner.AllOrNone | client/endpoint/registry.go:640-661 | the routes planned for have all a priority or none, so every priority read is there |
| Planner.RouteList | client/endpoint/registry.go:775-786 | lists every route once, in the order of the IDs |
| PlannerMethods.FilterRoutes | client/endpoint/planner.go:137-169 | the loop keeps the routes without an obstacle in order, and gives every other one the first check it fails |
| Planner.GroupAutomatic | client/endpoint/planner.go:203-226 | one group per priority in rising order, each with its routes in order |
| PlannerProofs.PlanPartitions | client/endpoint/planner.go:103-248 | every route is in exactly one attempt or one diagnostic: an attempt exactly when available, not manual-only and preferred; every attempt carries the endpoint, identity, intent and generation asked for and the priority of its group; priorities strictly rise and group i starts i hedge delays late |
| PlannerProofs.AttemptOnce | client/endpoint/planner.go:228-248 | no route is attempted twice |
| ResizeOwners.OneOwnerAtMost | core/protocol_service.go:926-1108 | in every run a recorded owner is a live attachment of its terminal, a terminal without one has only observers, and at most one attachment may resize |
| ResizeOwners.EpochsGrow | core/protocol_service.go:926-1108 | for every run: each report's epoch is the highest so far of its terminal, and higher when the owner is new, throughout the run if and only if no lock request meets a terminal without a recorded owner; a run registers a key once |
| ResizeOwners.AllAdvanceIff | core/protocol_service.go:926-1108 | the same from any state in order |
| ResizeOwners.ReportsAdvanceIff | core/protocol_service.go:1043-1108 | the same for one step |
| ResizeOwners.OwnerlessReport | core/protocol_service.go:1078-1081 | an ownerless lock request reports an older epoch |
| ResizeOwners.EpochCanFall | core/protocol_service.go:1043-1081 | a run in which it does |
| ResizeOwners.RegisterKeepsIff | core/protocol_service.go:926-950 | registering a new or a known key keeps the ranks and reports a growing epoch exactly unless the key is a recorded owner and does not claim the same terminal anew |
| ResizeOwners.UpdateKeeps | core/protocol_service.go:952-982 | so does an update |
| ResizeOwners.LockKeepsIff | core/protocol_service.go:1043-1072 | a lock request keeps the ranks and reports a growing epoch exactly when an owner is recorded |
| ResizeOwners.UnregisterAllKeeps | core/protocol_service.go:984-1013 | so does a batch detach with its repeated promotions |
| ResizeEffects.AnswersTrue | core/protocol_service.go:1074-1108 | after every run a report names the recorded owner and its epoch, the lock, and that the client may resize exactly when it is that owner, as an owner, of an unlocked terminal |
| ResizeEffects.MayResizeIff | core/protocol_service.go:1091-1091 | after every run an attachment may resize exactly then |
| ResizeEffects.RegisterSeats | core/protocol_service.go:926-950 | an attachment is stored as asked, and owns its terminal with the newest epoch exactly when it claims it or nobody does; no other attachment, owner or lock changes |
| ResizeEffects.UpdateSeats | core/protocol_service.go:952-982 | an update stores policy, surface and view, and takes ownership exactly when asked or nobody has it |
| ResizeEffects.LockTakes | core/protocol_service.go:1043-1072 | a lock request sets exactly its terminal's lock, and gives the owner a new epoch exactly when that changes it |
| ResizeEffects.LeaveTakes | core/protocol_service.go:984-1041 | an attachment that leaves is gone alone; its terminal has a new owner with a new epoch exactly when someone there may own it |
| ResizeEffects.BatchLeaves | core/protocol_service.go:984-1013 | exactly the attachments of a batch are gone |
| ResizeRegistry.ResizeTables.ReportControl | core/protocol_service.go:1074-1108 | what a client is told |
| ResizeRegistry.ResizeTables.RegisterAttachment | core/protocol_service.go:926-950 | is the model's Register, from any state; keeps the ranks exactly unless it displaces an owner; seats a new attachment and answers truly |
| ResizeRegistry.ResizeTables.UpdateControl | core/protocol_service.go:952-982 | is the model's Update, from any state; seats the attachment and answers truly |
| ResizeRegistry.ResizeTables.PromoteOwner | core/protocol_service.go:1029-1041 | the loop promotes a candidate whenever there is one |
| ResizeRegistry.ResizeTables.UnregisterBatch | core/protocol_service.go:984-1013 | the loop detaches one by one, promoting each time the owner goes; exactly the named attachments are gone |
| ResizeRegistry.ResizeTables.SetGlobalLock | core/protocol_service.go:1043-1072 | is the model's SetLock, from any state, sets the lock, answers truly and refuses an attachment that is gone; keeps the ranks exactly when an owner is recorded |
| SessionResources.AccountsExact | core/protocol_service.go:1209-1378 | for every run: the counters equal channels per kind, live subscriptions, pending reservations and tokens throughout if and only if no snapshots are cleared under a pending reservation and no attachment names a channel twice; then every limit is respected; and no channel ID is ever issued twice, in any run |
| SessionResources.GuardsNeverFire | core/protocol_service.go:1278-1335 | what is released was counted |
| SessionResources.ReleaseTokensIff | core/protocol_service.go:1362-1375 | clearing snapshots keeps the counters exact exactly when no reservation is pending |
| SessionResources.EarlyReleaseOverruns | core/protocol_service.go:1362-1375 | a run that overruns the limit otherwise |
| SessionResources.TwiceReplacedMiscounts | core/protocol_service.go:1209-1236 | a run that leaves an attachment uncounted |
| SessionResources.AttachExactIff | core/protocol_service.go:1209-1236 | one attachment in the place of several keeps the counts exactly when it is refused or names no replaced channel twice |
| SessionResources.NextKeepsIff | core/protocol_service.go:1209-1378 | every step keeps the counts exactly unless it is one of the two careless uses |
| SessionResources.RunIssues | core/protocol_service.go:1265-1276 | in every run channel IDs are issued once |
| SessionResources.RunHolds | core/protocol_service.go:1209-1378 | after every careful run a session holds exactly the channels, subscriptions, reservations and tokens its requests give it, each granted exactly within the limits and while channel IDs last |
| SessionResources.NextHolds | core/protocol_service.go:1209-1378 | the same for one request |
| SessionResources.ReleaseExact | core/protocol_service.go:1278-1297 | releasing a channel keeps the counts |
| SessionResources.ResourceTable.ReserveAttachmentChannel | core/protocol_service.go:1209-1236 | the two loops are the model's step, keep the counts exactly when no channel is named twice, and then succeed exactly within the limits |
| SessionResources.ResourceTable.ReserveFileChannel | core/protocol_service.go:1238-1252 | is the model's step, and succeeds exactly within the limits and while IDs last |
| SessionResources.ResourceTable.Release | core/protocol_service.go:1278-1297 | is the model's step |
| SessionResources.ResourceTable.Commit | core/protocol_service.go:1325-1335 | turns a reservation into a token |
| SessionResources.ResourceTable.ReleaseAllTokens | core/protocol_service.go:1362-1375 | clears tokens and reservations, and keeps the counts exactly when none is pending |
| SessionResources.ResourceTable.ReserveHistoryToken | core/protocol_service.go:1307-1315 | is the model's step, and succeeds exactly within the limit |
| SessionResources.ResourceTable.Rollback | core/protocol_service.go:1317-1323 | gives one reservation back |
| SessionResources.ResourceTable.Forget | core/protocol_service.go:1344-1353 | takes one token off, if it is owned |
| SessionResources.ResourceTable.OpenSubscription | core/protocol_service.go:1254-1263 | is the model's step, and succeeds exactly within the limits |
| SessionResources.ResourceTable.CloseSubscription | core/protocol_service.go:1299-1305 | gives one subscription back |
| BindingEngine.DrainExact | client/binding/engine.go:379-458 | in every run that repeats no report, activeOps is the number of unfinished operations, a close by CloseSession fires once and with nothing running, a drained closing session has been closed and has no open stream, and a session has one SessionClosed event exactly when closed |
| BindingEngine.CountsExactIff | client/binding/engine.go:851-877 | for every run: activeOps is the number of unfinished operations of each session throughout if and only if no operation is reported done again while its session counts another |
| BindingEngine.RepeatLosesOperation | client/binding/engine.go:851-877 | a run that leaves an unfinished operation uncounted |
| BindingEngine.DoneKeepsIff | client/binding/engine.go:851-877 | the same for one report |
| BindingEngine.ClosingNeverGrows | client/binding/engine.go:820-838 | nothing starts in a closing session |
| BindingEngine.HandlesNeverReused | client/binding/engine.go:840-849 | over any continuation of any run, a handle given out that is absent from a table stays absent from it |
| BindingEngine.NextKeeps | client/binding/engine.go:379-877 | every section keeps the invariant exactly unless it repeats a report |
| BindingEngine.StartInActs | client/binding/engine.go:820-838 | an operation starts in a session exactly with room and while the session takes work, and is counted there |
| BindingEngine.OpenActs | client/binding/engine.go:158-184 | a session opens exactly with room, a stream exactly with room in a session that takes work |
| BindingEngine.DoneActs | client/binding/engine.go:851-877 | an operation done is unfinished no more, and the last of a closing session, and only that, fires its close |
| BindingEngine.CloseActs | client/binding/engine.go:379-426 | closing ends the session's streams and no other, lets nothing start in it, and fires at once exactly when nothing runs |
| BindingEngine.FinishActs | client/binding/engine.go:462-486 | a finished session is closed with its event; a closed engine has every session closing and every stream ended, and takes nothing more |
| BindingEngine.ReleaseActs | client/binding/engine.go:430-458 | a handle is released exactly when what it stands for is over and the engine is open |
| BindingEngine.BindingTables.StartIn | client/binding/engine.go:820-838 | is the model's step, and gives a handle exactly with room in a session that takes work |
| BindingEngine.BindingTables.OperationDone | client/binding/engine.go:851-877 | is the model's step for any handle, says which session to close, and keeps the counts exactly unless it repeats |
| BindingEngine.BindingTables.BeginClose | client/binding/engine.go:379-426 | is the model's step, with the loop over streams, and says to close at once exactly when nothing runs |
| BindingEngine.BindingTables.Finish | client/binding/engine.go:787-803 | is the model's step, and emits at most once |
| BindingEngine.BindingTables.Allocate | client/binding/engine.go:840-849 | gives the next handle exactly while there is room |
| BindingEngine.BindingTables.Start | client/binding/engine.go:805-818 | is the model's step |
| BindingEngine.BindingTables.Open | client/binding/engine.go:560-575 | registering a session is the model's step |
| BindingEngine.BindingTables.OpenIn | client/binding/engine.go:158-184 | registering a stream is the model's step |
| BindingEngine.BindingTables.EndStream | client/binding/engine.go:271-293 | is the model's step |
| BindingEngine.BindingTables.ReleaseHandle | client/binding/engine.go:430-458 | is the model's step |
| BindingEngine.BindingTables.CloseEverything | client/binding/engine.go:462-486 | is the model's step, with its loops over sessions and streams |
| RawPtyFanout.FanoutContiguous | core/raw_pty_stream.go:72-185 | in every run a subscriber has a contiguous run of the chunks published since it subscribed; after an overflow nothing later, and droppedBytes is the size of the first chunk missed |
| RawPtyFanout.EndedStays | core/raw_pty_stream.go:72-91 | an ended stream never gets more |
| RawPtyFanout.OthersUnaffected | core/raw_pty_stream.go:133-151 | what a publish does to one subscriber does not depend on the others |
| RawPtyFanout.EachAlone | core/raw_pty_stream.go:72-185 | for every run: what was published is the non-empty chunks before the first close, and every subscriber has exactly what the steps give it by itself: chunks since it subscribed while at most sixteen wait, then the overflow with the size of the chunk missed, or the end or cancellation that came first |
| RawPtyFanout.PublishReaches | core/raw_pty_stream.go:133-151 | a chunk published on an open broadcaster is the next of the stream; each listener has it last in its queue, or with sixteen waiting ends there with the chunk's size; nobody else changes |
| RawPtyFanout.RawPtyBroadcaster.PublishChunk | core/raw_pty_stream.go:133-151 | the loop is the model's publish: the chunk joins the stream and every listener is served or ended |
| RawPtyFanout.RawPtyBroadcaster.CloseBroadcaster | core/raw_pty_stream.go:153-171 | the loop is the model's close |
| RawPtyFanout.RawPtyBroadcaster.AddSubscriber | core/raw_pty_stream.go:105-129 | is the model's subscribe, with a number not in use |
| RawPtyFanout.RawPtyBroadcaster.RemoveSubscriber | core/raw_pty_stream.go:173-185 | is the model's unsubscribe |
| RawPtyFanout.RawPtyBroadcaster.TakeChunk | core/raw_pty_stream.go:34-56 | hands out the oldest queued chunk, if there is one |

## Left out

- Pointers in `TerminalOutputBuffer`: its nodes are a sequence field and its cursors name a node by its number; `OutputList.ChunkList` proves the walks and edits of the linked list equal to the list functions the buffer uses, apart from the buffer's own state.
- Waiting: condition variables, wall-clock durations, wait counters, liveness and logging; time is an abstract clock and a waiting thread simply takes no step.
- The vterm, its row visitor and its hashing: rows are abstract, and the theorems about screens assume fingerprints that do not collide.
- The client's own bookkeeping besides merging: a pane may drop any answer, and resize boundaries of the TUI store are not modelled.
- The grant store and transports: a store query returns whether the grant was unrevoked and unexpired at that moment or refuses for its own reasons; closing a transport's connection is not modelled.
- GrantServer.GrantTables.Bump: closing the detached transports afterwards is left to the caller, as in the source.
- Text rules of the endpoint registry (trimming, identifier syntax, kind-specific route fields, JSON sort key, SHA-256): parameters with the properties the merge relies on, collected in `Rules`.
- Error values: an operation that fails is a refused result, without the source's error texts and codes, except in the planner.
- Policy edits of the registry (SetAutomaticRoutePriorities, SetEndpointEnabled, cloud relay settings): they end in Normalize, whose verdict is modelled.
- EvaluateRouteAvailability for several endpoints at once: only its verdict on a route of the planned endpoint is used.
- ResizeOwners.RegisterKeepsIff: takes attachments with epoch zero, as the source builds them before it registers them; runs register each key once.
- SessionResources.ResourceTable.Commit, Rollback and CloseSubscription: called by the holder of a reservation or subscription, as in the source; their guards at zero are proved idle then.
- Attachment views, tokens, input and raw-stream start-up in protocol_service.go: field copying and per-branch validation.
- Stream contents and upload hashing of the binding, command dispatch, proto and YAML conversion, bundle signing, file transfer, history storage, TUI and cloud services.
