# Retcon verification

Retcon is a local control plane for coding agents. This project models the parts
of it that hold state and promise something about that state, and proves those
promises for every input, every run and every interleaving of the modelled steps.

| file | models |
|---|---|
| `EventIds.dfy`, `EventBus.dfy`, `EventDelivery.dfy` | the event bus: a bounded log in memory, an asynchronous writer, a pruned durable table, restarts; and what becomes of each event emitted |
| `ArtifactStore.dfy`, `Checkpoints.dfy`, `CheckpointCleanup.dfy` | file checkpoints, rollback preview and restore over a content-addressed store; and the removal of old contents |
| `Jobs.dfy`, `JobFlush.dfy` | the job supervisor: retries, write-through, stuck and orphan sweeps, eviction; and one job's flushes apart |
| `Utf8.dfy`, `Redaction.dfy`, `RedactionTies.dfy` | redaction of runtime messages and truncation to a byte limit |
| `Frames.dfy`, `FrameInterrupts.dfy` | newline-delimited RPC frames, and reading them beside events |
| `Utf16.dfy`, `StdioServer.dfy`, `StdioTurns.dfy`, `NodeTransport.dfy` | the two ends of the browser service's request protocol; and how its calls take turns |
| `VisualMask.dfy` | masking of ignored rectangles and the mean luma difference |
| `VerificationRun.dfy`, `VerificationTimeline.dfy` | a browser verification run: variants, retries, bounded logs, status; and all that it tells, attempt by attempt |
| `VerificationSteps.dfy`, `VerificationPlan.dfy`, `VerificationOutcome.dfy`, `VerificationCompletion.dfy`, `VerificationVerdict.dfy` | translation of authored steps and what the plan made of them contains, decoding of results, the stored run with its completion and reviews, and the verdict on a whole run |
| `Baselines.dfy` | putting approved visual baselines in place and comparing with them |
| `Sessions.dfy`, `SessionRequests.dfy`, `SessionRaces.dfy`, `Turns.dfy` | session and turn lifecycles, what each request about them does, and requests that overlap |
| `Common.dfy`, `JsonValue.dfy` | small shared datatypes; JSON values |

Concurrent code is a labelled state machine: a `State` value, a `Step` datatype, a
predicate `Enabled` and a function `Next`. What the source changes in place is a
class whose methods take exactly one step each (`Now() == Next(old(Now()), step)`),
so the lemmas about steps and runs speak about the methods. The outside world (what
an operation returns, when a process ends, what a page prints, the clock) is an
argument or a step that may come at any time. `dafny verify dfyconfig.toml` checks
everything.

## What turned out false

Each of these is proved, in all cases where it is an "if and only if" and otherwise
with a concrete instance (before the semicolon) and the exact condition (after it).

- The event bus hands sequence numbers out again after a restart if its newest event was volatile, not stored, or expired (`EventBus.VolatileNumberIsReused`, `EventBus.AgedTableRestartsNumbering`; `EventBus.ReopenContinuesIff`).
- A restore can stop half-way when a content is missing from the store (`Checkpoints.MissingArtifactLeavesPartialRestore`; `Checkpoints.FailureTouchesNothingIff`), and the removal of old contents can make one go missing, for a write that has begun and not finished (`CheckpointCleanup.CleanupSpoilsWrite`; `CheckpointCleanup.FinishAfterCleanupIff`).
- A job force-stopped before its handle is stored is revived by its own task, and one whose task is just being run by a thread can still succeed after it was cancelled (`Jobs.EarlyForceStopRevivesJob`, `Jobs.ForceStopIsOvertaken`; `Jobs.StoppedJobRevivesIff`, `Jobs.ForceStoppedJobRevivesIff`).
- The two clock readings of an eviction can delete the row of a job still in memory (`Jobs.SplitClockLosesRow`; `Jobs.EvictLosesRowIff`).
- Two flushes of one job can cross and leave an older row, and a write that fails is not tried again (`JobFlush.FlushesCanCross`, `JobFlush.LostFlushIsForgotten`; `JobFlush.RowIsCurrentIff`).
- The redacted text, though not which bytes survive, can depend on how the unstable sort breaks ties (`Redaction.MarkerCountDependsOnTies`; `RedactionTies.TiesDoNotMatterIff`, `RedactionTies.RedactedTextIgnoresTiesIff`).
- A half-read RPC frame is dropped when an event comes first, and the connection delivers what is left of it (`FrameInterrupts.HalfReadFrameIsLost`; `FrameInterrupts.InterruptedRoundTripsIff`).
- A hello line ends the browser service unanswered if its token has the right number of characters but not of bytes, or if, after the right token, its protocol version cannot be turned into a text; so does a shutdown that cannot close the browser (`StdioServer.OneCharacterTokenCrashes`, `StdioServer.ObjectVersionCrashes`; `StdioServer.EveryLineAnsweredIff`).
- A call's timeout does not bound its writes: to a process that does not read, the call is held until the write ends (`NodeTransport.HeldUntilWriteEndsIff`).
- A drain started by an old browser process also fails calls made to a newer, living one (`NodeTransport.OldDrainReachesNewCall`; `NodeTransport.DrainSparesOthersIff`).
- A run is reported as passed although a later variant never finished, when an exception escapes it after the earlier ones passed (`VerificationRun.PassedCanHideAnEscape`; `VerificationRun.PassedIsHonestIff`).
- A run that passes on a retry can still be blocked, by an assertion or an accessibility finding of the attempt before (`VerificationVerdict.RetriedPassCanBlock`, `VerificationVerdict.RetriedAuditCanBlock`; `VerificationVerdict.RunBlocksIff`).
- A run whose page prints by `console.log` is never completed: the storage has no such level and refuses the result as if it came late (`VerificationVerdict.PrintedLogIsNeverStored`; `VerificationVerdict.AcceptableIff`).
- Assertions that share an id share the requirement of the last one (`VerificationOutcome.SharedIdWaivesBoth`; `VerificationOutcome.NotRequiredIff`).
- Resuming a session never succeeds: it writes "preparing" and is then refused (`Sessions.ResumeNeverSucceeds`). Cancelling a session that has ended still answers and announces "cancelled" (`Sessions.CancelAlwaysAnswers`).
- A session that has ended can come back, when a request read its status before the end and writes after it (`SessionRaces.PauseRevivesCancelled`; `SessionRaces.EndedStaysIff`), and overlapping requests can leave the table of session states (`SessionRaces.TwoStartsClash`; `SessionRaces.PathSurvivesIff`).
- A turn's durable statuses can leave the table: a cancellation reads the status and writes on its own, before or after the watcher's writes (`Turns.FinishedTurnCanBeCancelled`, `Turns.CancellationCanBeWrittenOver`; `Turns.DurablePathLegalIff`, `Turns.LegalIffCancellationsTimely`, `Turns.CancelledInTheEndIff`).
- A session can have two turns in progress (`Turns.SecondTurnCanStart`; `Turns.SecondTurnAdmittedIff`, `Turns.OneTurnIff`), and a restart of the core fails even a queued turn (`Turns.RecoveryFollowsTableIff`).

## Where the documentation promises more

- development-plan.md:174 says a rollback preserves unrelated user edits and reports conflicts before it changes files. Both are proved, the second on its exact condition, which holds whenever every recorded content is still stored.
- crates/retcon-core/src/session_engine.rs:1-5 calls its tables the single authority over what is written. Each writer does follow them, but a turn's watcher restarts its machine at Running and a cancellation goes by the status it read, so what is written for a turn as a whole need not; and resuming asks for a step the table does not have.
- In these and all other places the model follows the code.

## Model

| member | source | states |
|---|---|---|
| EventBus.DrainAndReopenLoadsNewest | crates/retcon-core/src/event.rs:166-345 | for every interleaving of emitters, queue order and prunes without expiry or failed inserts, draining and reopening loads exactly the newest 10,000 of everything ever stored or emitted, in order |
| EventDelivery.EmittedEventIsReplayed | crates/retcon-core/src/event.rs:166-238 | in every run over any table each event emitted, volatile or not, gets the next number, and replay returns it with all it was emitted with exactly while fewer than 10,000 were emitted after it |
| EventDelivery.DurableEventComesBack | crates/retcon-core/src/event.rs:166-345 | a durable event of a run without expiry or failed inserts is loaded after draining and reopening exactly if fewer than 10,000 durable ones were emitted after it, with its id, kind, payload and category, its time cut to the millisecond |
| EventDelivery.OnlyEmittedEventsComeBack | crates/retcon-core/src/event.rs:304-345 | nothing is loaded but such events and rows that were stored before the run |
| EventDelivery.NumbersFollowSteps | crates/retcon-core/src/event.rs:166-191 | numbers are given in the order in which events are emitted, to each its own |
| EventBus.KindNamesCategory | crates/retcon-core/src/event.rs:347-360 | an event's category is the one named by its kind's text before the first dot |
| EventBus.DrainEmptiesQueue | crates/retcon-core/src/event.rs:270-288 | the writer can always work its queue off, and that loses and invents nothing |
| EventBus.StoredEventRoundTrips | crates/retcon-core/src/event.rs:270-345 | an event read back from the row stored of it has the id, kind and payload it was emitted with, its time cut to the millisecond, and the category its kind names |
| EventBus.EveryRunIsSafe | crates/retcon-core/src/event.rs:166-302 | in every run, faults included, the log is strictly increasing, at most 10,000 long and below the next sequence, and no insert meets an existing primary key |
| EventBus.OpenIsSafe | crates/retcon-core/src/event.rs:115-147 | any table opens into such a state |
| EventBus.OpenEstablishesInv | crates/retcon-core/src/event.rs:115-147 | an opened bus agrees with its table, whatever categories that holds, from its oldest loaded event on, if nothing expires |
| EventBus.RunKeepsInv | crates/retcon-core/src/event.rs:166-302 | that agreement between the log, the queue and the table survives every run without expiry or failed inserts |
| EventBus.PruneKeepsTop | crates/retcon-core/src/event.rs:290-300 | pruning without expiry keeps exactly the newest 10,000 rows unchanged |
| EventIds.TopAbsorbs | crates/retcon-core/src/event.rs:290-300 | pruning early changes nothing: survivors and later arrivals have the same newest rows as if nothing had been pruned |
| EventBus.ReopenContinuesIff | crates/retcon-core/src/event.rs:115-130 | numbering goes on after a restart exactly when the newest sequence is stored and young enough |
| EventBus.VolatileNumberIsReused | crates/retcon-core/src/event.rs:158-220 | a volatile event's number is handed out again after a restart |
| EventBus.AgedTableRestartsNumbering | crates/retcon-core/src/event.rs:115-130 | a table whose rows have all expired restarts the numbering at 1 |
| EventBus.OpenAgrees | crates/retcon-core/src/event.rs:115-147 | any table, rows past their age included, opens into agreement of the log with what the prune leaves |
| EventBus.RunKeepsAgreement | crates/retcon-core/src/event.rs:166-302 | every run keeps the log in agreement with what is stored, failing inserts and expiring prunes included |
| EventBus.ReplayAgreesWithTable | crates/retcon-core/src/event.rs:222-238 | so in every run over any table every stored row not older than the log's first event is replayed, with its fields and the category of its kind |
| EventBus.PagingVisitsEachOnce | crates/retcon-core/src/event.rs:222-238 | asking again from the last sequence of each page visits each retained event once, in order, and ends |
| EventBus.LaterIsSuffix | crates/retcon-core/src/event.rs:253-268 | in a log sorted by sequence the events after a sequence are a suffix, found at the split point |
| EventBus.Bus.AssignSequence | crates/retcon-core/src/event.rs:166-220 | the event returned and logged has the next number and what the caller passed; a durable one goes to the queue, and nothing is stored yet |
| EventBus.Bus.WriterTurn | crates/retcon-core/src/event.rs:270-288 | the writer takes the head of the queue and inserts its row, or drops it when the insert fails |
| EventBus.Bus.PartitionAfter | crates/retcon-core/src/event.rs:253-268 | the binary search returns the number of events not after the given sequence |
| EventBus.Bus.Replay | crates/retcon-core/src/event.rs:222-238 | a page is the first min(limit, 1000) of the retained events whose sequence is greater than the one given |
| Checkpoints.ConflictMeansForeignContent | crates/retcon-checkpoints/src/service.rs:310-348 | the conflict matrix flags exactly a present file that holds neither recorded content, except for a change that recorded none at either end |
| Checkpoints.RestoreSucceedsIff | crates/retcon-checkpoints/src/service.rs:216-258 | a restore succeeds exactly when the checkpoint exists, nothing selected conflicts unless forced, and every content needed is stored |
| Checkpoints.FailureTouchesNothing | crates/retcon-checkpoints/src/service.rs:216-258 | with every recorded content stored, a failing restore leaves every file as it was |
| Checkpoints.FailureTouchesNothingIff | crates/retcon-checkpoints/src/service.rs:216-258 | a failing restore leaves every file as it was exactly when its preflight refuses it, or every selected item before the first one whose content is missing leaves its own file as it is |
| Checkpoints.MissingArtifactLeavesPartialRestore | crates/retcon-checkpoints/src/service.rs:349-380 | without it, a failing restore can leave earlier files rewritten |
| Checkpoints.RestoreLosesNothing | crates/retcon-checkpoints/src/service.rs:216-258 | an unforced restore changes selected paths only, and all it overwrites or deletes is in the store |
| Checkpoints.RestoreIsIdempotent | crates/retcon-checkpoints/src/service.rs:216-258 | once a restore has succeeded, repeating it unforced succeeds and changes nothing |
| Checkpoints.BeginKeepsBacked | crates/retcon-checkpoints/src/service.rs:106-133 | beginning a write keeps every recorded content in the store |
| Checkpoints.FinishKeepsBacked | crates/retcon-checkpoints/src/service.rs:134-163 | so does finishing one |
| CheckpointCleanup.CleanupKeepsBackedIff | crates/retcon-storage/src/artifacts.rs:161-200 | removing old contents keeps every recorded content in the store exactly when each old one that a row refers to by then is protected |
| CheckpointCleanup.FinishKeepsBackedIff | crates/retcon-checkpoints/src/service.rs:134-163 | finishing a write does exactly when the content from before it is stored still, or is in the file again |
| CheckpointCleanup.FinishAfterCleanupIff | crates/retcon-core/src/lifecycle.rs:121-134 | a clean-up in the middle of a write spoils it exactly when there is a content from before, old, in no row, and not in the file at the end |
| CheckpointCleanup.CleanupSpoilsWrite | crates/retcon-core/src/lifecycle.rs:121-134 | such a write cannot be undone: its restore finds the content missing |
| CheckpointCleanup.RemoveStale | crates/retcon-storage/src/artifacts.rs:161-189 | the visit removes exactly the old files that are not protected |
| Checkpoints.UndoRestoresStart | crates/retcon-checkpoints/src/service.rs:216-258 | for every history of checkpointed writes among edits of other files, restoring in reverse order never conflicts, brings each checkpointed file back and leaves the others |
| Checkpoints.UndoIsExact | crates/retcon-checkpoints/src/service.rs:216-258 | with no other edits the files are exactly those at the start |
| Checkpoints.CheckpointService.RestoreSelective | crates/retcon-checkpoints/src/service.rs:216-258 | preflight and restore leave the files and the report the functions above describe |
| Checkpoints.CheckpointService.PreviewRollback | crates/retcon-checkpoints/src/service.rs:194-215 | a preview has one item per recorded change, in order, and changes nothing |
| Checkpoints.ReportSorts | crates/retcon-checkpoints/src/service.rs:216-258 | a restore's report lists as restored exactly the selected paths with a content recorded before or after, as skipped those without, and, when forced, as conflicts those with foreign content |
| Checkpoints.ItemSays | crates/retcon-checkpoints/src/service.rs:194-215 | what a preview's item says of a recorded change, by the digests before, after and now |
| Checkpoints.FinishRecordsChange | crates/retcon-checkpoints/src/service.rs:134-163 | what a finished write records: the digest before, that of the file as it is now, and the kind of change, which says whether there was a file before and after |
| Jobs.StepKeepsInv | crates/retcon-core/src/jobs.rs:128-456 | every operation, racing force-stops and split-clock evictions among them, keeps memory, the rows there are, and the retry history of jobs never force-stopped in agreement |
| Jobs.StoppedJobRevivesIff | crates/retcon-core/src/jobs.rs:172-262 | after the end of a force-stop some run, without another one of that job, brings the job back from cancelled exactly when its task still takes steps of its own: it has not ended, and no abort has caught it at an await |
| Jobs.ForceStoppedJobRevivesIff | crates/retcon-core/src/jobs.rs:238-262 | so a force-stop whose halves follow each other is final exactly when, as it comes, the task takes no more steps or waits at an await with its handle stored |
| Jobs.ForceStopCancels | crates/retcon-core/src/jobs.rs:238-262 | asking to stop sets the signal and aborts only a task whose handle is stored; the end of the stop cancels the job, whatever it was, in memory and in its row |
| Jobs.EvictLosesRowIff | crates/retcon-core/src/jobs.rs:428-456 | an eviction deletes the row of a job it leaves in memory exactly when that job finished between its two clock readings |
| Jobs.EvictForgets | crates/retcon-core/src/jobs.rs:428-456 | an eviction forgets exactly the jobs that finished at the cutoff or before and the rows that finished in an earlier millisecond |
| Jobs.MemoryMatchesTable | crates/retcon-core/src/jobs.rs:340-456 | in every run without failing writes, whatever is stopped and evicted, a terminal job is never dirty, the row of a job that is not dirty equals it if it is there, and it is there unless an eviction has lost it |
| Jobs.PartialUpsertIsWhole | crates/retcon-core/src/jobs.rs:390-426 | the upsert that rewrites only some columns still stores the whole snapshot |
| Jobs.AttemptsDecideJob | crates/retcon-core/src/jobs.rs:172-198 | in every run, for a job not force-stopped itself, attempts count the calls and stay within the limit; the first success, timeout or cancel decides; Failed means every attempt erred and carries the last error |
| Jobs.JobEndsAsItsTask | crates/retcon-core/src/jobs.rs:172-198 | in every run a job not force-stopped has succeeded, timed out or been cancelled exactly if its task is done and its last attempt ended that way; it has failed if that erred, or if the task broke off and a sweep found it |
| Jobs.SpawnRecords | crates/retcon-core/src/jobs.rs:128-171 | a new job is queued, in memory and in its row, with what it was asked for and at least one attempt |
| Jobs.OutcomeIsWritten | crates/retcon-core/src/jobs.rs:172-198 | the first outcome that is no error ends the job with it, in memory and in its row; an error changes only the task |
| Jobs.GivingUpIsWritten | crates/retcon-core/src/jobs.rs:172-198 | a job whose attempts are used up fails with the last error, in memory and in its row |
| Jobs.SettledJobStays | crates/retcon-core/src/jobs.rs:172-366 | through every run a terminal job whose task takes no more steps changes only at the end of a force-stop of that job, except that children may be added to it |
| Jobs.TerminalJobsStay | crates/retcon-core/src/jobs.rs:172-366 | so does every terminal job that was never force-stopped |
| Jobs.OnlyEvictionForgets | crates/retcon-core/src/jobs.rs:428-456 | only eviction forgets a job, and only a finished one |
| Jobs.SplitClockLosesRow | crates/retcon-core/src/jobs.rs:428-456 | two clock readings in one eviction can delete the row of a job still in memory |
| Jobs.EarlyForceStopRevivesJob | crates/retcon-core/src/jobs.rs:238-262 | a job force-stopped before its handle is stored goes from cancelled to running |
| Jobs.ForceStopIsOvertaken | crates/retcon-core/src/jobs.rs:172-262 | a job force-stopped while a thread runs its task goes from cancelled to succeeded, its handle stored or not |
| JobFlush.RowIsCurrentIff | crates/retcon-core/src/jobs.rs:367-426 | in every run of changes and flushes, failing ones among them, the row holds the present record exactly when some flush has landed and nothing changed since the one that landed last took its snapshot |
| JobFlush.FlushesCanCross | crates/retcon-core/src/jobs.rs:367-390 | a clean record with no flush under way can have an older row |
| JobFlush.LostFlushIsForgotten | crates/retcon-core/src/jobs.rs:381-426 | so it can after a write that failed |
| Jobs.JobSupervisor.RunTask | crates/retcon-core/src/jobs.rs:172-198 | the undisturbed retry loop stops at the first attempt that does not err, and its outcomes decide the job |
| Jobs.JobSupervisor.DetectStuckJobs | crates/retcon-core/src/jobs.rs:263-286 | the sweep marks and writes through exactly the stuck jobs, as one step |
| Jobs.DetectionMarksStuck | crates/retcon-core/src/jobs.rs:263-286 | detection marks in memory and in the row exactly the running jobs that started longer ago than the threshold, and changes no other job or row |
| Jobs.ReconcileFailsOrphans | crates/retcon-core/src/jobs.rs:298-322 | reconciling fails, as internal and finished now, in memory and in the row, exactly the queued, running and stuck jobs whose stored handle's task is over, and changes no other job or row |
| Jobs.JobSupervisor.ReconcileOrphans | crates/retcon-core/src/jobs.rs:298-322 | the sweep over the jobs is one Reconcile step, which `Jobs.ReconcileFailsOrphans` describes |
| Utf8.SplitAtBoundary | crates/retcon-core/src/dev_servers_rpc.rs:555-565 | cutting well-formed text at a character boundary leaves well-formed text on both sides |
| Utf8.NoFourTails | crates/retcon-core/src/dev_servers_rpc.rs:555-565 | well-formed text never has four continuation bytes in a row |
| Utf8.CharLenIff | crates/retcon-core/src/dev_servers_rpc.rs:555-565 | the byte classes of section 4 of RFC 3629 accept exactly the shortest encodings of scalar values that its section 3 defines |
| Utf8.BoundaryIff | crates/retcon-core/src/dev_servers_rpc.rs:530-535 | in well-formed text the boundaries are exactly the places where both sides of a cut are well-formed |
| Redaction.SweepCopiesUncovered | crates/retcon-core/src/dev_servers_rpc.rs:529-546 | a byte is copied exactly when no finding covers it, however findings overlap |
| Redaction.SweepKeepsOrder | crates/retcon-core/src/dev_servers_rpc.rs:529-546 | bytes are copied in order, each at most once |
| Redaction.SurvivorsIgnoreOrder | crates/retcon-core/src/dev_servers_rpc.rs:524-546 | which bytes survive does not depend on the order of the findings |
| Redaction.SweepOfUsable | crates/retcon-core/src/dev_servers_rpc.rs:524-546 | a byte is copied exactly when no finding that is non-empty, ends within the text and starts and ends at boundaries covers it; all other findings remove nothing |
| Redaction.MarkerCountDependsOnTies | crates/retcon-core/src/dev_servers_rpc.rs:524-546 | how many markers appear can depend on it: an instance |
| RedactionTies.TiesDoNotMatterIff | crates/retcon-core/src/dev_servers_rpc.rs:524-546 | the sweep is the same for every way of breaking ties exactly when, of any two findings with one start, the shorter is hidden by one that starts earlier |
| RedactionTies.RedactedTextIgnoresTiesIff | crates/retcon-core/src/dev_servers_rpc.rs:524-546 | so is the redacted text, of every text and on the same condition |
| RedactionTies.RedactedLength | crates/retcon-core/src/dev_servers_rpc.rs:529-546 | that text is as long as the bytes no finding covers, plus a marker for each finding that reaches past all before it |
| Redaction.SweepRanges | crates/retcon-core/src/dev_servers_rpc.rs:529-546 | the cursor loop renders the sweep, slices at boundaries only and yields well-formed text |
| Redaction.RedactSensitiveText | crates/retcon-core/src/dev_servers_rpc.rs:520-546 | the result is the text in which byte i is copied, in order, exactly when no finding that is non-empty, within the text and at boundaries covers it; a marker stands in every gap, and none where nothing is removed |
| Redaction.BoundedUtf8 | crates/retcon-core/src/dev_servers_rpc.rs:555-565 | truncation keeps the longest prefix of whole characters within the limit and gives up at most three bytes |
| Redaction.SanitizeRuntimeMessage | crates/retcon-core/src/dev_servers_rpc.rs:488-490 | a sanitised message is well-formed, at most 4096 bytes, and a prefix of such a text, with no byte that such a finding covers |
| Frames.FrameRoundTripsIff | crates/retcon-core/src/frame.rs:13-60 | a written payload is read back exactly when it is non-empty, newline-free, within the limit, well-formed and not ending in a carriage return |
| Frames.ConnectionRoundTrips | crates/retcon-core/src/server.rs:236-254 | any list of such payloads comes back as written, and then the stream ends |
| FrameInterrupts.DeliversWhatIsKept | crates/retcon-core/src/server.rs:148-207 | a loop that drops a half-read frame whenever an event comes first delivers exactly the frames of what it keeps |
| FrameInterrupts.InterruptedRoundTripsIff | crates/retcon-core/src/server.rs:148-207 | sendable payloads all come back as written exactly when every interruption came between two lines |
| FrameInterrupts.HalfReadFrameIsLost | crates/retcon-core/src/server.rs:148-207 | cut in the middle of its line, a payload comes as its second half |
| FrameInterrupts.Serve | crates/retcon-core/src/server.rs:148-207 | the reading half of the serving loop |
| Frames.Reader.ReadCappedLine | crates/retcon-core/src/frame.rs:13-40 | the reading loop delivers the next frame and leaves the rest of the stream |
| StdioServer.StepKeepsInv | apps/browser-service/src/main.ts:93-274 | every step keeps the conservation of replies, the bound, the run map and the mutation chain |
| StdioServer.EveryLineAnsweredOnce | apps/browser-service/src/main.ts:104-274 | lines read equal replies plus calls to be answered plus the reply being written plus the line, if any, lost to a crash, id by id; at most 64 calls are active; at most one queued call has begun, and they start in order of arrival; which calls are queued is said by `StdioTurns.CallsTakeTurns` |
| StdioTurns.CallsTakeTurns | apps/browser-service/src/main.ts:217-268 | at every point of every connection a call that only reads has begun at once; the others, verification runs among them, begin in the order of their lines, none while one of an earlier line is active |
| StdioTurns.InvokeAdmitsIff | apps/browser-service/src/main.ts:217-243 | a line gets its call exactly if fewer than 64 are active, its id is not and its run is not; the call runs at once if it only reads and waits otherwise |
| StdioTurns.HelloOpensIff | apps/browser-service/src/main.ts:119-156 | a hello opens the connection exactly with the token required, if one is, and the number 1 as protocol version |
| StdioTurns.LoopEnds | apps/browser-service/src/main.ts:183-188 | the loop ends with its input or with the reply to a shutdown that closed the browser; then every call is told to stop and no run is known |
| StdioTurns.RetiringForgets | apps/browser-service/src/main.ts:254-260 | a call that is done leaves, and its run with it unless another call has that run by then |
| StdioServer.EveryLineAnsweredIff | apps/browser-service/src/main.ts:119-188 | no line is lost exactly when no hello makes the loop throw and no shutdown, after the handshake, fails to close the browser |
| StdioServer.ThrowingIff | apps/browser-service/src/main.ts:119-143 | where the required token is empty or ASCII, a hello throws exactly if its token has the length required and is not ASCII, or is right and its version has no text |
| StdioServer.OneCharacterTokenCrashes | apps/browser-service/src/main.ts:119-127 | one such hello: it is read and never answered, and no call in flight is told to stop or does anything more |
| StdioServer.ObjectVersionCrashes | apps/browser-service/src/main.ts:133-143 | another: its version is an object with its own "toString", in any number of arrays |
| StdioServer.CancelRequestAbortsOne | apps/browser-service/src/main.ts:189-202 | cancelling a request aborts that call and no other, and nothing when it is not active |
| StdioServer.CancelRunAbortsOne | apps/browser-service/src/main.ts:203-216 | a run in the verification map belongs to an active call, the only one that cancelling the run aborts |
| StdioServer.NothingAfterTheLoop | apps/browser-service/src/main.ts:270-274 | once the loop has ended no line is read and every call still in flight has been told to stop |
| StdioServer.FreshIdsAreAnsweredOnce | apps/browser-service/src/main.ts:217-268 | a client that never reuses an id is refused only for the bound or a run already active, and gets exactly one reply to each id, none while it is owed one |
| StdioServer.NoCallBeforeHandshake | apps/browser-service/src/main.ts:119-162 | where a token is required nothing is admitted before a valid handshake |
| StdioServer.SomeCallCanMove | apps/browser-service/src/main.ts:245-268 | while calls are in flight one of them can make progress |
| StdioServer.CanAlwaysDrain | apps/browser-service/src/main.ts:245-274 | from any state between two lines every line can still get its reply |
| StdioServer.Server.HandleLine | apps/browser-service/src/main.ts:104-243 | handling a line is one Receive step, with every refusal the loop makes and every exception that leaves it |
| StdioServer.Server.Settle | apps/browser-service/src/main.ts:254-260 | a call's clean-up removes it, its run if still its own, and its place in the chain |
| Utf16.FirstCharacter | apps/browser-service/src/main.ts:119-127 | the bytes compared with the required token are the UTF-8 of the text's characters, a surrogate pair being one, and U+FFFD for half a pair |
| JsonValue.HasTextIff | apps/browser-service/src/main.ts:133-143 | a value has a text exactly if no object that it reaches through arrays has a "toString" of its own, and no array is too deep for the stack |
| NodeTransport.StepKeepsInv | crates/retcon-browser/src/node.rs:189-447 | every step keeps ids unique, the slot on the newest generation, and every waiter registered or answered |
| NodeTransport.EveryRunIsSafe | crates/retcon-browser/src/node.rs:319-400 | no id is used twice, and what a call returns is explained by a later step than its registration: one that names it, a reply with its own id, or a drain |
| NodeTransport.ReturnsOnce | crates/retcon-browser/src/node.rs:353-371 | a call's outcome never changes |
| NodeTransport.CallReturnsOrWrites | crates/retcon-browser/src/node.rs:319-400 | no call is orphaned: its own steps alone always bring it to a result or to a write, of its frame or its cancellation, that it has to wait for |
| NodeTransport.HeldUntilWriteEndsIff | crates/retcon-browser/src/node.rs:341-400 | a call held in such a write is still there after a run exactly when the write has not ended, whatever replies, drains, kills and deadlines came |
| NodeTransport.CallCanReturn | crates/retcon-browser/src/node.rs:319-400 | with the ends of its writes it always comes to a result |
| NodeTransport.KillFreesWriter | crates/retcon-browser/src/node.rs:439-450 | after a kill and its drain a call that was writing returns as soon as its write ends, failed or drained |
| NodeTransport.OldReaderKeepsNewProcess | crates/retcon-browser/src/node.rs:920-928 | a reader that ends leaves the process of a newer generation in the slot |
| NodeTransport.SlotChanges | crates/retcon-browser/src/node.rs:319-450 | what each step does to the slot: a kill empties it, a reader's end only if its process is the one there, and a call with an empty slot is refused |
| NodeTransport.NoCallAfterKill | crates/retcon-browser/src/node.rs:319-450 | from a kill until another process fills the slot every call is refused as not running |
| NodeTransport.DrainTakesExactlyThePending | crates/retcon-browser/src/node.rs:959-963 | a drain fails every pending call, whatever process it was made to, and touches no other |
| NodeTransport.DrainSparesOthersIff | crates/retcon-browser/src/node.rs:920-963 | it spares the calls made to other processes exactly when every pending call was made to the one that ended |
| NodeTransport.OldDrainReachesNewCall | crates/retcon-browser/src/node.rs:920-963 | so a call to a living process can return because an earlier process ended |
| NodeTransport.Transport.DrainPending | crates/retcon-browser/src/node.rs:959-963 | the loop over the pending table is one Drain step |
| NodeTransport.Transport.Poll | crates/retcon-browser/src/node.rs:353-371 | a full mailbox is returned even when the deadline has passed |
| VisualMask.ClippedBlockIsTouched | apps/browser-service/src/verification.ts:836-855 | rounding outwards and clipping select exactly the pixels a rectangle reaches into |
| VisualMask.RectanglePixels | apps/browser-service/src/verification.ts:836-855 | the pixels some rectangle reaches into become the current image's, and no other byte changes |
| VisualMask.PerceptualDifference | apps/browser-service/src/verification.ts:857-872 | the loop computes the mean luma difference |
| VisualMask.DifferenceIsAMeasure | apps/browser-service/src/verification.ts:857-872 | the difference is from 0 to 1, symmetric, and 0 exactly when every pixel has the same luma in both images |
| VisualMask.OnePixelDifference | apps/browser-service/src/verification.ts:857-872 | of one pixel the difference is that of the weighted colours, 0.2126 to 0.7152 to 0.0722, over 255 |
| VisualMask.DifferenceOfParts | apps/browser-service/src/verification.ts:857-872 | of an image put together of two it is the mean of theirs, weighted by their pixels |
| VisualMask.MaskingNeverIncreases | apps/browser-service/src/verification.ts:1566-1578 | masking never raises the difference, which then counts the unmasked pixels and nothing else |
| VisualMask.CompareMasked | apps/browser-service/src/verification.ts:1565-1578 | images equal outside the ignored rectangles differ by 0, and no comparison by more than unmasked |
| VerificationRun.VariantOutcome | apps/browser-service/src/verification.ts:1041-1194 | a variant passes on attempt n exactly when that one succeeds and all before it fail, fails exactly when all do, and throws exactly when it is not begun or the first that does not fail escapes |
| VerificationRun.SuccessMeansNoFailedCheck | apps/browser-service/src/verification.ts:1196-1218 | an attempt that succeeds recorded no failed assertion |
| VerificationRun.StepsRunInOrder | apps/browser-service/src/verification.ts:1091-1106 | steps start and finish one after another; the one with the first error starts, unless the signal comes first, does not finish, and is the last |
| VerificationRun.ErrorEndsSteps | apps/browser-service/src/verification.ts:1091-1106 | the first error of the steps is that of the first step that has one |
| VerificationRun.PassedIff | apps/browser-service/src/verification.ts:950-974 | a run is reported as passed exactly when every variant passes, or an exception escapes a later one after all before it passed |
| VerificationRun.PassedIsHonestIff | apps/browser-service/src/verification.ts:950-974 | "passed means every variant passed" holds of a run exactly when it hides no such exception |
| VerificationRun.PassedCanHideAnEscape | apps/browser-service/src/verification.ts:1168-1178 | one that does: a browser profile that cannot be removed |
| VerificationRun.OnlyLastAttemptIsLost | apps/browser-service/src/verification.ts:1168-1178 | all attempts' output is what reaches the logs, plus that of at most the last attempt, lost if its clean-up throws |
| VerificationRun.Capture | apps/browser-service/src/verification.ts:555-610 | a page's listeners keep the last 200 entries |
| VerificationRun.RunState.Emit | apps/browser-service/src/verification.ts:1015-1039 | what is stored stays the first 2048 events, numbered from 1 |
| VerificationRun.RunState.Assert | apps/browser-service/src/verification.ts:1196-1218 | stored assertions stay the first 512, numbered from 1; a failing one throws |
| VerificationRun.RunState.RunVariant | apps/browser-service/src/verification.ts:1041-1194 | the retry loop emits and returns what the meaning of a variant says |
| VerificationRun.RunState.Run | apps/browser-service/src/verification.ts:920-1013 | status, results and timeline are those of the meaning of a run, and each log is the last 200 entries of everything printed, if nothing was lost |
| VerificationRun.StoredMeans | apps/browser-service/src/verification.ts:1015-1039 | what is stored of all that is told, in numbers: 2048 events and 512 assertions, each with its place, 64 audits, and the last 200 entries of each log |
| VerificationTimeline.AttemptEnds | apps/browser-service/src/verification.ts:1041-1178 | an attempt succeeds exactly if launch, every step, the audit, the findings where they count, and the clean-up go well; and which error it fails or escapes with otherwise |
| VerificationTimeline.AttemptTimeline | apps/browser-service/src/verification.ts:1041-1178 | the events of an attempt: its start, the navigation, each good step begun and finished, the first bad one begun, the audit, and how it went |
| VerificationTimeline.AttemptRecords | apps/browser-service/src/verification.ts:1196-1218 | the assertions and audits an attempt records, those of its first bad step among them, and its logs unless its clean-up throws |
| VerificationTimeline.VariantTells | apps/browser-service/src/verification.ts:1041-1194 | a variant tells of its attempts up to the first that does not fail, numbered from 1, and if all fail that it has failed |
| VerificationTimeline.RunTells | apps/browser-service/src/verification.ts:944-974 | a run tells that it starts, of its variants up to one that throws, of that error unless it is a cancellation, and of its status |
| VerificationTimeline.RunEnds | apps/browser-service/src/verification.ts:950-974 | a run is cancelled exactly if what escapes comes with the signal set or contains "cancelled", and otherwise failed exactly if a recorded variant is; recorded are those that returned, and of an error before any of them that error |
| VerificationSteps.StepTranslates | crates/retcon-core/src/browser_verification_rpc.rs:688-749 | a step is accepted exactly when its kind is known and its fields complete, and carries just these fields of the author's |
| VerificationSteps.AssertionTranslates | crates/retcon-core/src/browser_verification_rpc.rs:751-833 | likewise an assertion |
| VerificationSteps.NormalizedSteps | crates/retcon-core/src/browser_verification_rpc.rs:623-671 | succeeds exactly on acceptable definitions, with their flattening translated one for one and the requirements of every id |
| VerificationSteps.RecordOneMore | crates/retcon-core/src/browser_verification_rpc.rs:673-686 | recording an item keeps, per id, what the last recorded item says |
| VerificationPlan.AcceptedIff | crates/retcon-core/src/browser_verification_rpc.rs:623-671 | a definition is acceptable exactly if it is a list of objects, each not switched off has a kind and fields that can be translated, as has each nested assertion, and these are at most 512 together |
| VerificationPlan.PlanHasPlaces | crates/retcon-core/src/browser_verification_rpc.rs:623-671 | the plan has the translation of each step that takes part, followed by those of its assertions, at the place given by all before it, and nothing else |
| VerificationPlan.RequirementIff | crates/retcon-core/src/browser_verification_rpc.rs:673-686 | an id is required, or is not, exactly if the last assertion of that id in the definition says so, silence counting as yes; an id of no assertion is unknown |
| VerificationSteps.RunnerKinds | crates/retcon-core/src/browser_verification_rpc.rs:751-775 | the short and the full name of an assertion's kind mean the same, and other kinds are unknown |
| VerificationCompletion.BlockedIff | crates/retcon-storage/src/browser_verification.rs:506-515 | a result is blocked exactly when the run or a variant did not go through, an assertion that is required is neither passed nor approved, or, where findings count, some audit of any attempt found an error |
| VerificationCompletion.CompletionDecides | crates/retcon-storage/src/browser_verification.rs:497-537 | a completed run fails exactly on an unmet required assertion or, where findings count, a critical finding; otherwise it needs a review exactly for a visual difference, a missing baseline, a finding or a warning |
| VerificationCompletion.AcceptedIff | crates/retcon-storage/src/browser_verification.rs:897-1012 | the limits and the known statuses, levels and severities of a result that is taken |
| VerificationCompletion.GoesThroughIff | crates/retcon-storage/src/browser_verification.rs:451-568 | whatever is asked of a stored run in whatever order, it ends as passed or approved exactly when a result was accepted while it ran that was not blocked, and was beyond doubt or approved later |
| VerificationCompletion.BlockedStaysBlocked | crates/retcon-storage/src/browser_verification.rs:538-568 | no reviews let a run through that was completed as blocked |
| VerificationCompletion.RunRow.Complete | crates/retcon-storage/src/browser_verification.rs:497-537 | a result is taken exactly in a running run and when acceptable; the counts decide the status |
| VerificationCompletion.RunRow.Review | crates/retcon-storage/src/browser_verification.rs:538-568 | reviews are taken exactly of failed runs and of runs to be reviewed, and an approval only without blocking counts |
| VerificationOutcome.NotRequiredIff | crates/retcon-core/src/browser_verification.rs:160-180 | a result is not required exactly when the last recorded item with its id is waived |
| VerificationOutcome.AuthorDecides | crates/retcon-core/src/browser_verification.rs:160-180 | with distinct ids, exactly when the author waived that very assertion |
| VerificationOutcome.SharedIdWaivesBoth | crates/retcon-core/src/browser_verification_rpc.rs:673-686 | with a shared id a required assertion can be waived by another |
| VerificationOutcome.AssertionDecodes | crates/retcon-core/src/browser_verification.rs:160-180 | an assertion is named by its step and kind, has failed without a status, and is required unless the requirement of its step's id says otherwise |
| VerificationOutcome.RunnerFailedIff | crates/retcon-core/src/browser_verification.rs:104-356 | a run did not go through if it gives no status, or it or a variant gives one of failed, error and cancelled |
| VerificationOutcome.LevelsDecode | crates/retcon-core/src/browser_verification.rs:104-356 | "warn" is a warning, another text is itself, no text is info; a finding is critical exactly if its severity is error |
| VerificationOutcome.ComparisonDecodes | crates/retcon-core/src/browser_verification.rs:104-356 | what each status of a comparison is stored as, and which of its keys give the paths and the variant |
| VerificationOutcome.ServiceRunner.DecodeOutcome | crates/retcon-core/src/browser_verification.rs:104-356 | decoding succeeds exactly if there is a file to each entry, each entry has a path and each comparison's picture is among them; every artifact and comparison is bound to the digest of the bytes extracted at its path; files stay stored when it fails |
| VerificationVerdict.RunBlocksIff | crates/retcon-storage/src/browser_verification.rs:506-515 | a whole run is blocked exactly when it is not reported as passed, one of the first 512 assertions of any attempt, retried or not, failed and is required, or, where findings count, one of its first 64 audits found something severe |
| VerificationVerdict.ReportsTexts | apps/browser-service/src/verification.ts:950-1013 | the texts by which a report gives the status of the run, of each variant and of each assertion |
| VerificationVerdict.UnblockedIsHonestIff | crates/retcon-storage/src/browser_verification.rs:506-515 | "not blocked means every variant passed" holds of a run exactly when it hides no exception, or an assertion or a finding blocks anyway |
| VerificationVerdict.RetriedPassCanBlock | apps/browser-service/src/verification.ts:1196-1218 | a run that passes on a retry is blocked by the required assertion that failed before |
| VerificationVerdict.RetriedAuditCanBlock | apps/browser-service/src/verification.ts:1107-1125 | or by what an audit found before, without any assertion |
| VerificationVerdict.AcceptableIff | crates/retcon-storage/src/browser_verification.rs:897-1012 | what a run leaves is accepted exactly when its files and comparisons fit, its timeline and its findings are at most 1000 each, and its pages printed nothing by a call that has no level |
| VerificationVerdict.UnknownKindIsNeverStored | crates/retcon-storage/src/browser_verification.rs:974-985 | what a run leaves is refused if such printing is among the last 200 entries of its console |
| VerificationVerdict.PrintedLogIsNeverStored | crates/retcon-core/src/browser_verification_rpc.rs:268-310 | a run that passes, and whose page prints by `console.log`, is never completed |
| Baselines.FirstComparing | crates/retcon-core/src/browser_verification_rpc.rs:344-359 | the first enabled screenshot step that is compared, if there is one |
| Baselines.ComparingIff | crates/retcon-core/src/browser_verification_rpc.rs:344-359 | a screenshot step is compared unless it or the comparison is switched off by a plain false |
| Baselines.ApprovedIsFirst | crates/retcon-core/src/browser_verification_rpc.rs:386-389 | the approved baseline of a variant is the first one listed for it, and there is none exactly if none is listed |
| Baselines.PreparedNameIsRunnerName | crates/retcon-core/src/browser_verification_rpc.rs:724-737 | the prepared file has the name under which the runner compares that step |
| Baselines.CaptureKeepsFilesIff | apps/browser-service/src/verification.ts:1482-1560 | which captures leave the baselines alone: all under "never" |
| Baselines.BaselineDirectory.Prepare | crates/retcon-core/src/browser_verification_rpc.rs:340-421 | each prepared variant's file holds the content of the first baseline listed for it, and is absent if there is none; no other file changes; fails exactly when for some variant that content is missing or damaged in the store |
| Baselines.BaselineDirectory.CaptureVisual | apps/browser-service/src/verification.ts:1420-1560 | case by case the verdict and the files after a capture; replaced bytes go to the history |
| Baselines.BaselineDirectory.PrepareAndRun | crates/retcon-core/src/browser_verification_rpc.rs:340-421 | every comparison of the prepared step is with the content of the first baseline listed for the variant, or "created" if there is none; others are with whatever file was there |
| Sessions.ParseInvertsAsText | crates/retcon-core/src/session_engine.rs:221-239 | a text is parsed as a state exactly when it is that state's text |
| Sessions.EnteredFrom | crates/retcon-core/src/session_engine.rs:256-309 | the table by destination: from which states each state can be entered |
| Sessions.DurableStatusFollowsTable | crates/retcon-core/src/session_rpc.rs:233-245 | in every run of requests and restarts each session's durable status moves along the table, from Created |
| Sessions.RestartDisconnectsIff | crates/retcon-storage/src/recovery.rs:47-49 | a restart disconnects exactly the sessions that claim to be at work, by steps of the table, and changes no other |
| Sessions.EndedSessionsStay | crates/retcon-core/src/session_engine.rs:256-309 | an ended session keeps its status whatever is asked of it, one request at a time, restarts or not |
| Sessions.PausedRunsThroughStarting | crates/retcon-core/src/session_engine.rs:256-309 | a paused session runs again only by way of Starting |
| Sessions.StartEndsActive | crates/retcon-core/src/session_rpc.rs:411-523 | starting a session that has not ended succeeds by legal steps and leaves it active; otherwise nothing changes |
| Sessions.CancelAlwaysAnswers | crates/retcon-core/src/session_rpc.rs:525-555 | cancelling is legal everywhere, and answers "cancelled" even of an ended session |
| Sessions.PauseSucceedsIff | crates/retcon-core/src/session_rpc.rs:557-586 | pausing succeeds exactly from the active states and Recovering |
| Sessions.ResumeNeverSucceeds | crates/retcon-core/src/session_rpc.rs:588-619 | resuming is always refused, after "preparing" is written from Paused or Created |
| Sessions.SessionService.StartSession | crates/retcon-core/src/session_rpc.rs:411-523 | the loop over the steps leaves the world and the reply described above |
| Sessions.SessionService.TransitionSession | crates/retcon-core/src/session_rpc.rs:233-245 | a legal step is written and announced, an illegal one changes nothing |
| SessionRequests.StartWrites | crates/retcon-core/src/session_rpc.rs:411-523 | starting writes and announces the one shortest way to Running through the table, or nothing for an active session, and registers its directory; one that has ended is refused and nothing changes |
| SessionRequests.PauseWrites | crates/retcon-core/src/session_rpc.rs:557-586 | pausing stops the turn in any case, and writes and announces "paused" from exactly the active states and Recovering |
| SessionRequests.ResumeWrites | crates/retcon-core/src/session_rpc.rs:588-619 | what resuming writes, announces and answers from each state |
| SessionRequests.CancelWrites | crates/retcon-core/src/session_rpc.rs:525-555 | cancelling stops the turn, writes "cancelled" unless the session had ended, and announces and answers it in any case |
| SessionRequests.UnreadableStatus | crates/retcon-core/src/session_rpc.rs:411-619 | a status that is no state's text counts as Created to start or cancel from, as Running to pause, as Paused to resume |
| SessionRequests.NotFoundChangesNothing | crates/retcon-core/src/session_rpc.rs:411-619 | a request about no session, or for a provider there is not, changes nothing |
| SessionRaces.LegalIsWritten | crates/retcon-core/src/session_rpc.rs:411-619 | a request that nothing comes between writes just the steps it plans as it reads the status |
| SessionRaces.EndedStaysIff | crates/retcon-core/src/session_rpc.rs:411-619 | in every run of overlapping requests an ended session stays as it is exactly when no request that read the status before the end writes after it |
| SessionRaces.PauseRevivesCancelled | crates/retcon-core/src/session_rpc.rs:525-586 | a pause that waits for the turn's handle during a cancellation brings the session back as paused |
| SessionRaces.PathSurvivesIff | crates/retcon-core/src/session_rpc.rs:233-245 | in every such run the durable status keeps to the table exactly when no request that another has overtaken since its own last step writes what the table does not have over that one's status |
| SessionRaces.TwoStartsClash | crates/retcon-core/src/session_rpc.rs:411-523 | two starts of a new session that both read before either writes write "preparing" twice |
| Turns.DurablePathLegalIff | crates/retcon-core/src/session_engine.rs:311-345 | in every run a turn's durable statuses follow the table exactly when no step writes one after another has written a terminal one |
| Turns.PathFollowsSteps | crates/retcon-core/src/session_rpc.rs:682-808 | in every run a turn's durable statuses are queued, sending and then what the steps write, in order; without cancellations they are the beginning of one of three ways: failing to start, failing after running, completing |
| Turns.EnteredFrom | crates/retcon-core/src/session_engine.rs:311-345 | the table by destination: from which states each state can be entered |
| Turns.LegalIffCancellationsTimely | crates/retcon-core/src/session_rpc.rs:878-898 | that is, exactly when between each cancellation's read and its write the turn does not end, and after its write nothing is written |
| Turns.CancelledInTheEndIff | crates/retcon-core/src/session_rpc.rs:771-898 | a turn is cancelled in the end exactly when the last write is a cancellation's; once its watcher is done it is otherwise completed or failed |
| Turns.FinishedTurnCanBeCancelled | crates/retcon-core/src/session_rpc.rs:771-898 | a completed turn is cancelled by a request that read its status before |
| Turns.CancellationCanBeWrittenOver | crates/retcon-core/src/session_rpc.rs:771-898 | and a cancellation is written over by the watcher |
| Turns.RecoveryFollowsTableIff | crates/retcon-storage/src/recovery.rs:47-50 | failing a turn at a restart keeps to the table unless it is still queued |
| Turns.SecondTurnAdmittedIff | crates/retcon-core/src/session_rpc.rs:656-667 | in every run the registry's check admits a second turn exactly when one is going on and its handle is not registered yet, or was dropped since by a cancellation, a detachment or another turn's end |
| Turns.OneTurnIff | crates/retcon-core/src/session_rpc.rs:656-667 | a run has one turn at most throughout exactly when no turn is sent while another is going on |
| Turns.SecondTurnCanStart | crates/retcon-core/src/session_rpc.rs:656-667 | such a send can happen |
| Turns.TurnService.WriteCancellation | crates/retcon-core/src/session_rpc.rs:889-897 | a cancellation writes by the status it read, over whatever is stored by then |

## Left out

- Event bus: broadcast to live subscribers, reading the clock, and event ids are parameters or absent; the prune after every so many inserts may come at any time.
- Sequence numbers, ids and counters are unbounded; saturation at the top of 64 bits is not modelled.
- Checkpoints: directories in place of files (removed recursively by a restore), creation of parent directories, path resolution and symbolic links; paths are distinct resolved files.
- Checkpoints: Git snapshots and manual checkpoints only record references. The results about histories (`Checkpoints.UndoRestoresStart`) have no removal of old contents in them; `CheckpointCleanup` says when one matters.
- The SHA-256 digest is ideal: equal digests mean equal contents.
- Jobs: mutex poisoning, and a supervisor without a database; shutdown, which force-stops at most 500 listed jobs (jobs.rs:219), is a sequence of force-stops.
- Jobs: the results about runs take each flush as one step whose write succeeds; `JobFlush` has its two halves apart and lets the write fail, for one job.
- Jobs: a task gives way only while it waits for an attempt; what an operation does before it first waits is part of the step that ends the attempt.
- Redaction: the exact-value replacements after the sweep, and the scan that finds the secrets; findings are any list of ranges.
- Frames: the connection's I/O errors, and JSON encoding; payloads are bytes. The lines of the handshake are read without waiting for events and are not told apart.
- Stdio server: what each browser method does, and line size and JSON checks beyond "unreadable"; a reply stands for its id.
- Stdio server: a reply that cannot be written (a broken output pipe) is not modelled. How many nested arrays the stack has room for is a parameter, and numbers are integers.
- Node transport: the two writes of a frame are one, and what makes a write end is the outside world's choice.
- Node transport: spawning and killing real processes, the handshake's contents, the start lock after the slot is filled, and callers that drop their request.
- Visual comparison: PNG coding, `pixelmatch` and floating-point rounding; coordinates and luma are reals.
- Verification runs: Playwright, all but the severity of the audit's findings, screenshots kept after a failure, redaction of messages, and truncation of an oversized result; an assertion's kind and text are left out.
- Verification runs: `VerificationRun.IsCancellation` takes the signal at the end of the run as one argument, independent of the signal seen by each attempt.
- Translation: error texts are shortened; only that an error occurs is stated.
- Decoding: identifiers, network entries and texts are field-by-field copies.
- Completion: limits on texts, ratios, hashes and network entries, and the comparisons and artifacts of a run, are arguments (`sound`, `files`); approving a baseline changes no run's status.
- Baselines: file system errors other than an unavailable artifact; the write through a temporary file and rename is one replacement.
- Sessions: database errors. Overlapping requests are in `SessionRaces`, for one session and without restarts, which end every request.
- Turns: provider events, which write no status, and the wait for the handle's lock: a cancellation may proceed at any time, which allows every order the lock does. Runs of turns have no restart in them; `Turns.RecoveryFollowsTableIff` says what one writes.
