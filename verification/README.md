# codexD: a verified model

codexD is a durable bridge between Discord and Codex. This project models its step protocols and its
chunking algorithms in Dafny 4.11 and proves what they are for. `dafny verify dfyconfig.toml` checks all of it.

| files | what they model |
|---|---|
| `runs.dfy` | state machines, their runs, invariants over runs |
| `schedule_ledger.dfy`, `ledger_runs.dfy`, `ledger_batches.dfy` | one pass of the scheduler over a due schedule; any number of coordinators with crashes and edits; batches of a backlog |
| `cron_texts.dfy`, `schedules.dfy`, `calendar.dfy` | how cron fields are written; their meaning, the search for the next occurrence, previews; the UTC calendar and the search horizon |
| `events.dfy`, `event_pump.dfy`, `stream_meaning.dfy` | provider events and their merge; the pump for any algebra of events; what coalescing keeps |
| `supervisor.dfy`, `supervisor_runs.dfy`, `supervisor_progress.dfy`, `supervisor_object.dfy` | the runtime supervisor as steps between awaits; its invariants; what it gets done; the sections that update slots and capacity in place |
| `file_leases.dfy`, `file_lease_object.dfy` | descriptors of file inputs through starts, closes and terminal events |
| `provider_barrier.dfy`, `provider_barrier_runs.dfy`, `provider_effects.dfy` | the barrier around provider mutations, with the lock, the queue and the gates that keep effects apart; its runs; one effect from its barrier to its end |
| `mailboxes.dfy`, `mailbox_object.dfy`, `mailbox_loop.dfy` | wake-ups and crashes of a conversation's mailbox; its updates in place; its inner loop |
| `results.dfy`, `texts.dfy`, `greedy.dfy`, `graphemes.dfy`, `discord_text.dfy`, `discord_cuts.dfy`, `discord_links.dfy`, `discord_examples.dfy`, `code_messages.dfy`, `utf8_chunks.dfy` | the message splitters, what their cuts and links are without the search, and greedy cutting in general |
| `tables.dfy` | column widths, pagination and memory of rendered tables |
| `archives.dfy`, `extraction.dfy` | admission of zip archives and their extraction into a tree |
| `control_stripping.dfy` | the filter for Unicode controls |

Every repository call is one atomic step, because the stores run each in one transaction. What tasks do
between two awaits is one step; anything may happen between steps. Clocks, timers, answers of the provider
and of the store, file contents, and the choice of the next task are parameters, so what is proved holds for
all of them.

## Where the code does less than one might expect

Each of these is proved, with its exact condition.

- An edit keeps the ledger of a schedule in order if and only if it sets the cursor past all records
  (`EditIsSafeExactly`). An update at the very millisecond at which an occurrence has fired does not
  (`UpdateIsFreshUnlessFired`), since updates search from `now - 1`. A schedule that materializes every occurrence
  then stands still for good (`EveryAdvancesUnlessRecorded`): `materialize` reports the existing fire and does not
  move the cursor.
- A schedule in UTC that neither restricts weekdays nor selects a date that every year has runs out of
  occurrences (`AlwaysFiresExactlyWhenRecurring`): after February 2096 the next 29 February is past the horizon.
  It then stays active without a cursor.
- Merging hidden deltas is not associative, because the right one always counts as one chunk
  (`HiddenMergeIsNotAssociative`); totals are kept because the provider's own deltas carry no chunk count.
- A message part can be one character over the limit (`OneOverTheLimit`), and a link that ends inside a
  cluster can be split (`LinksSplitExactly`); `discord_examples.dfy` has a text for each.
- A table without body rows is not held to the page height (`PageHeightHoldsExactly`).
- A turn without files that still runs under the handle which a file turn then gets can release that turn's
  descriptors (`ReturnIsSafeExactly`); the code looks for reused handles among the leases only.
- A turn that is cancelled while its thread start is under way no longer keeps commands out. Its thread start
  can then clear the barrier of a command, whose mutation may be forgotten (`LeaveIsSafeExactly`,
  `CancelledStartClearsBarrier`): a turn looks for a barrier before, not when, it raises its own, and raises it
  over another one.
- A wake-up is lost when the mailbox it reaches crashes at its next query (`CrashLosesWakeup`); the next wake-up
  repairs it.
- The aggregate ratio check and the running total check of archives never fire (`AggregateRatioHolds`,
  `ExtractZip`).

## Model

| member | source | states |
|---|---|---|
| LedgerRuns.LedgerIsExact | src/codexd/application/schedule_coordinator.py:460-605 | In every reachable state of any number of coordinators with stale snapshots, crashes, conflicts and edits that set the cursor past all records: no occurrence is recorded twice; the fires since the last edit are exactly the first elements of due, next(due), ... in order; the cursor of an active schedule is the first unrecorded one, or none at its end, and is not recorded |
| LedgerRuns.EditIsSafeExactly | src/codexd/application/schedule_coordinator.py:312-360 | With a worker there, an edit keeps that, at once and in everything that can follow, if and only if it sets the cursor past all records |
| LedgerRuns.StaleEditGoesWrong | src/codexd/application/schedule_coordinator.py:335-360 | Any other edit has a recorded cursor at once, or one pass then records its occurrence out of order |
| LedgerRuns.RecordsStay | src/codexd/storage/schedules.py:1539-1556 | Between any two states of a run the earlier list of fires is a prefix of the later one |
| LedgerRuns.StepKeepsInv | src/codexd/application/schedule_coordinator.py:402-429 | Every snapshot, store call, crash and edit keeps the row exact and every worker consistent with it |
| LedgerRuns.CallIsForCursor | src/codexd/storage/schedules.py:1535-1540 | A call whose expected version is current is for the cursor, which is unrecorded, and moves it to the next element of the enumeration |
| LedgerRuns.VersionReached | src/codexd/application/schedule_coordinator.py:484-605 | A worker that had only successes never expects a version beyond the stored one: a refusal means that it is stale for good |
| LedgerRuns.EnoughFires | src/codexd/application/schedule_coordinator.py:580-602 | Calls that are all recorded account for as many fires after those of the snapshot, in order |
| LedgerRuns.CallKeepsRow | src/codexd/storage/schedules.py:1593-1832 | Each compare-and-swap call leaves the row exact; a success leaves its occurrence recorded and a refusal changes nothing |
| LedgerRuns.CallKeepsProcess | src/codexd/application/schedule_coordinator.py:490-551 | A worker stays consistent after each answer, also when a refused skip goes on to the materialization of the occurrence on time |
| ScheduleLedger.ProcessDue | src/codexd/application/schedule_coordinator.py:460-605 | Against a store that answers as it likes, one pass makes exactly the calls of the specified session, each with the version it expects, and counts exactly the turns it is told of; a conflict ends it |
| ScheduleLedger.GatherOccurrences | src/codexd/application/schedule_coordinator.py:468-480 | The occurrences from the cursor up to now, at most the cap, and the one after them |
| ScheduleLedger.SkipFirst | src/codexd/application/schedule_coordinator.py:502-525 | Skips the leading occurrences until a refusal; afterwards the rest of the session is what the policy says |
| ScheduleLedger.MaterializeFrom | src/codexd/application/schedule_coordinator.py:574-604 | Completes the session from the first selected occurrence on |
| ScheduleLedger.ProcessOccurrences | src/codexd/application/schedule_coordinator.py:484-605 | For each policy: which calls are made on the gathered occurrences, in which order, and where a refusal leads |
| ScheduleLedger.ProcessSkipMissed | src/codexd/application/schedule_coordinator.py:490-527 | All but an occurrence on time are skipped; a refusal goes on with that one, under the version reached |
| ScheduleLedger.ProcessLatestOnly | src/codexd/application/schedule_coordinator.py:528-573 | All but the latest occurrence before the present are skipped; a refusal ends the pass |
| ScheduleLedger.PlanShape | src/codexd/application/schedule_coordinator.py:490-563 | For each policy, which occurrences of a batch are skipped and which are materialized |
| ScheduleLedger.MaterializeIsIdempotent | src/codexd/storage/schedules.py:1634-1648 | A second call for an occurrence changes nothing and answers again whether it has its turn, whatever its version, trigger and target |
| ScheduleLedger.OnTimeExactly | src/codexd/application/schedule_coordinator.py:486-495 | An occurrence is on time if and only if it is no older than the polling allowance or no older than five seconds |
| LedgerBatches.BatchIndependence | src/codexd/application/schedule_coordinator.py:470-605 | At a fixed instant, ticks with any cap of at least 1 lead to the ledger that one unlimited pass leads to, in exactly ceil(backlog / cap) ticks |
| LedgerBatches.DrainOutcome | src/codexd/application/schedule_coordinator.py:490-605 | Draining records every due occurrence once and in order: all as turns, or only the latest, or only the latest if it is on time; the trigger is timer exactly for a turn that is on time; the cursor is the first occurrence after now |
| LedgerBatches.QuietPass | src/codexd/application/schedule_coordinator.py:460-605 | An undisturbed pass records its batch, whole and at once |
| LedgerBatches.BacklogIsComplete | src/codexd/application/schedule_coordinator.py:467-480 | The backlog leaves out no instant at which the schedule fires |
| LedgerBatches.EveryAdvancesUnlessRecorded | src/codexd/storage/schedules.py:1634-1648 | Under the policy that materializes everything, a tick changes nothing if and only if the occurrence at the cursor is already recorded |
| LedgerBatches.UpdateIsFreshUnlessFired | src/codexd/application/schedule_coordinator.py:340-346 | An update puts the cursor past all records, unless (and exactly when) an occurrence at this very instant has fired: the code searches from now - 1 |
| Schedules.ParseCronField | src/codexd/domain/schedules.py:171-201 | However the field is written as comma-separated terms (a star, a number, or a range, each with a step or without): it selects a number if and only if some term reaches it from its first number in steps and not past its last one, with 7 read as Sunday, and it is an error if and only if some term has an unreadable number, a step that is not positive, or bounds out of order or range |
| CronTexts.EveryTextIsSpelled | src/codexd/domain/schedules.py:178-191 | Every text is written as such terms, also a senseless one |
| CronTexts.SpellingIsUnique | src/codexd/domain/schedules.py:178-191 | And in one way only, so that a field has one meaning |
| Schedules.FieldMeans | src/codexd/domain/schedules.py:171-201 | What a field selects, and whether it is an error, in terms of any way to write it |
| Schedules.PartsMean | src/codexd/domain/schedules.py:178-196 | The parts that the code cuts out are refused, and select, as the terms say |
| Schedules.SelectNumbers | src/codexd/domain/schedules.py:178-199 | The union of the ranges of the parts |
| Schedules.ParseCron | src/codexd/domain/schedules.py:97-125 | Five fields, none of them malformed, and only these make an expression; it reads each field, and is as the results on the horizon assume |
| Schedules.ParsePart | src/codexd/domain/schedules.py:178-193 | A range that is read lies between the bounds and has a positive step |
| Schedules.TermIsParsed | src/codexd/domain/schedules.py:178-193 | One term is read as its first number, last number and step, and refused if and only if it is not legal |
| Schedules.MatchesExactly | src/codexd/domain/schedules.py:127-142 | A minute matches if and only if minute, hour and month are selected, and day and weekday are as far as they are restricted, one of the two being enough when both are |
| Schedules.NextOccurrence | src/codexd/application/schedule_coordinator.py:714-733 | The loop over candidate minutes computes the specified next occurrence |
| Schedules.NextIsLeast | src/codexd/application/schedule_coordinator.py:714-733 | The result is the least firing instant strictly after the given one within the horizon; none if and only if there is none there |
| Schedules.PreviewOccurrences | src/codexd/application/schedule_coordinator.py:736-752 | The preview is the first occurrences of the enumeration; a limit outside 1 to 10 is an error |
| Schedules.PreviewHasNoGaps | src/codexd/application/schedule_coordinator.py:736-752 | A preview increases strictly, skips no firing instant, and is short only when nothing follows within the horizon |
| Calendar.RecurringAlwaysFires | src/codexd/application/schedule_coordinator.py:722-732 | In UTC an expression with a weekday restriction, or with a selected date that every year has, always has a next occurrence within the 1830 days |
| Calendar.AlwaysFiresExactlyWhenRecurring | src/codexd/application/schedule_coordinator.py:722-732 | In UTC a parsed expression always has a next occurrence if and only if it restricts weekdays or selects a date that every year has |
| Calendar.LeapDaysRunOut | src/codexd/application/schedule_coordinator.py:722-732 | Any other expression has no next occurrence after the last minute of February 2096 |
| EventPump.Run | src/codexd/runtime/event_pump.py:98-234 | For every choice of timeouts and sink answers: the persisted sequence is the raw one cut into consecutive mergeable runs, each replaced by its merge, up to the first reported terminal, or else all of it followed by one failure record; a run ends at the first reason for it (a timeout, the size bound, or an event that cannot join), so no timeout falls between two events of a run; the outcome is stale if and only if that record, or at the end of the stream an earlier event, was answered as stale |
| EventPump.CuttingIsUnique | src/codexd/runtime/event_pump.py:98-172 | Stream and timeouts determine the runs: two cuttings agree as far as both go |
| EventPump.RunsHoldNoTimer | src/codexd/runtime/event_pump.py:111-118 | In any such cutting, no timeout falls strictly inside the positions that a run covers |
| EventPump.Persist | src/codexd/runtime/event_pump.py:80-93 | One more event is handed over; a reported terminal or a journal error stops the pump, a stale generation does not |
| EventPump.Arrive | src/codexd/runtime/event_pump.py:124-172 | The next event joins the open run, or ends it and is handled on its own; the order is kept |
| EventPump.Flush | src/codexd/runtime/event_pump.py:111-137 | A timeout or the end of the stream hands over the buffer, whole, before anything else |
| EventPump.FlushIfFull | src/codexd/runtime/event_pump.py:148-157 | The open run is handed over when its size reaches the bound |
| EventPump.Fresh | src/codexd/runtime/event_pump.py:144-172 | An event that finds the buffer empty opens a run or is handed over alone |
| Events.BufferKey | src/codexd/runtime/event_pump.py:334-344 | Only the mergeable kinds have a key, appended ones only with an item |
| Events.BufferedExactly | src/codexd/runtime/event_pump.py:334-344 | Exactly the events of the listed kinds are buffered that have no identity of their own and, if they append, an item |
| Events.SameKeyExactly | src/codexd/runtime/event_pump.py:334-344 | Two of them share a key if and only if they are of one kind and, if they append, of one item, and of one index for summaries |
| Events.MergesExactly | src/codexd/runtime/event_pump.py:347-370 | Well-typed events merge if and only if they share a key and, if they append text, both carry a text |
| Events.MergeTakesTheLater | src/codexd/runtime/event_pump.py:365-386 | Time, schema and payload of a merge are those of the later event; raw sizes add up; the raw type of the earlier one stands in for a missing one |
| Events.MergeKeepsKey | src/codexd/runtime/event_pump.py:347-382 | Only events of one key merge, and the result has that key |
| Events.MergeKeepsTypes | src/codexd/runtime/event_pump.py:350-367 | Well-typed events of one key never make the merge raise, and the result is well typed |
| Events.MergeIsAssociative | src/codexd/runtime/event_pump.py:347-382 | On events of one key, other than hidden deltas, merging can be grouped either way |
| Events.HiddenMergeIsNotAssociative | src/codexd/runtime/event_pump.py:350-366 | For hidden deltas it cannot: the sizes agree, the chunk counts always differ by one |
| Events.EventsAreLawful | src/codexd/runtime/event_pump.py:334-392 | Provider events meet what the pump relies on |
| StreamMeaning.ScheduleIndependence | src/codexd/runtime/event_pump.py:98-172 | Any two flush schedules persist the same text per item, the same last value of what is replaced, and the same totals of hidden sizes and chunks, namely those of the raw stream |
| StreamMeaning.TextIsKept | src/codexd/runtime/event_pump.py:368-382 | The concatenated text of each item is that of the raw events |
| StreamMeaning.LastIsKept | src/codexd/runtime/event_pump.py:349-350 | The last plan, diff or usage event is that of the raw events |
| StreamMeaning.HiddenTotalsAreKept | src/codexd/runtime/event_pump.py:350-366 | The totals of hidden deltas are kept when the raw ones carry no chunk count |
| StreamMeaning.CoalescesFully | src/codexd/runtime/event_pump.py:98-157 | Nothing is persisted before it has to be: when the event after a run could have joined it, a timeout fell there or the run held 64 KiB |
| StreamMeaning.ChunksOfRun | src/codexd/runtime/event_pump.py:353-363 | A run keeps its chunk total if and only if its further events count one each in total |
| StreamMeaning.TextEventIsBounded | src/codexd/runtime/event_pump.py:385-392 | A persisted text event is shorter than 64 KiB plus its last raw event |
| StreamMeaning.PumpEvents | src/codexd/runtime/event_pump.py:64-234 | The pump on provider events refines the stream, with no timeout inside a run; it does not fail on well-typed ones |
| SupervisorRuns.CapacityIsRespected | src/codexd/runtime/supervisor.py:967-1028 | At every await point of every interleaving: pooled and handed permits plus the capacity in use are the limit, the capacity in use is the number of reservations, and every process that was launched and whose close has not returned belongs to a reserved slot, so no more than the limit live; a slot whose runtime may be alive, also one that the factory is launching, is reserved; the semaphore is never over-released |
| SupervisorRuns.ProcessesFollow | src/codexd/runtime/supervisor.py:804-844 | A process begins with a launch and ends only where its close returns: in a close past its stop, a cleanup, or a failure report |
| SupervisorRuns.StepTracks | src/codexd/runtime/supervisor.py:115-343 | Every section keeps each living process in the hands of a slot, and a slot past the stop of its runtime has none |
| SupervisorProgress.EmptySlotStarts | src/codexd/runtime/supervisor.py:131-330 | While a permit is free, an empty slot can be started at once and becomes ready under a new living runtime, nothing else changing |
| SupervisorProgress.FailedRuntimeIsReplaced | src/codexd/runtime/supervisor.py:135-146 | A start over a failed runtime ends that one and then puts a new one in its place, with the same capacity in use |
| SupervisorProgress.EvictionMakesRoom | src/codexd/runtime/supervisor.py:967-1021 | At full capacity a start can replace any ready slot without live work whose idle time is over: the victim is empty with its process ended, the starter is ready, the capacity in use is the same |
| SupervisorProgress.EvictsExactly | src/codexd/runtime/supervisor.py:998-1018 | A chosen slot is evicted if and only if it is ready and has no live work |
| SupervisorProgress.CloseEmpties | src/codexd/runtime/supervisor.py:771-844 | Retirement, idle time-out and shutdown of a loaded slot end its process, empty the slot and give one permit back, nothing else changing |
| SupervisorProgress.ReportTakesEffect | src/codexd/runtime/supervisor.py:409-461 | A failure report under the current lease empties the slot, or keeps it as failed when its close failed |
| SupervisorProgress.EnsureLeavesAlone | src/codexd/runtime/supervisor.py:132-140 | A ready runtime is handed out as it is; once the shutdown has begun nothing is started |
| SupervisorProgress.NothingComesUp | src/codexd/runtime/supervisor.py:325-342 | After the shutdown has begun no slot comes to be ready under another runtime than before |
| SupervisorProgress.RefreshesAreShared | src/codexd/runtime/supervisor.py:746-753 | While a refresh is under way, further callers wait for the same task |
| SupervisorRuns.CachesAreCoherent | src/codexd/runtime/supervisor.py:736-765 | A cached catalog or pending refresh always belongs to the loaded runtime; a slot at rest has a runtime exactly when it has a lease |
| SupervisorRuns.LeasesNeverReturn | src/codexd/runtime/supervisor.py:165-180 | A lease that left its slot never comes back |
| SupervisorRuns.OldLeasesHaveNoEffect | src/codexd/runtime/supervisor.py:376-407 | Once a lease has left its slot, failure reports, retirements and refreshes that carry it change nothing, whatever runs there by then |
| SupervisorRuns.StepKeepsInv | src/codexd/runtime/supervisor.py:115-343 | Each section between two awaits keeps slots well formed, the start lock held by one task, evictions paired with the startup that waits for them, and the accounts balanced |
| SupervisorRuns.FinishCleanUpKeeps | src/codexd/runtime/supervisor.py:287-302 | A failed startup whose runtime could not be closed keeps the runtime, its failed lease and the reservation; otherwise all of it goes |
| SupervisorRuns.FailWaitKeeps | src/codexd/runtime/supervisor.py:967-982 | A startup that gives up while it waits for a permit passes back one that was already handed to it |
| SupervisorRuns.TryVictimKeeps | src/codexd/runtime/supervisor.py:984-1021 | An eviction begins only on a ready slot, under both locks, and keeps all invariants |
| SupervisorRuns.FinishEvictionKeeps | src/codexd/runtime/supervisor.py:1004-1017 | The end of an eviction frees the victim and its permit while its starter still holds the start lock |
| SupervisorRuns.FailCloseKeeps | src/codexd/runtime/supervisor.py:802-826 | A failed close leaves the slot its runtime, lease and reservation, and the process; a failed eviction ends its startup and frees the start lock |
| SupervisorRuns.FinishRefreshKeeps | src/codexd/runtime/supervisor.py:753-765 | A refresh result reaches the slot only for the runtime that was asked |
| SupervisorRuns.ClearEffect | src/codexd/runtime/supervisor.py:1023-1028 | Clearing a slot releases exactly one permit, to the parked waiter if there is one |
| SupervisorObject.RuntimeSupervisor.Acquire | src/codexd/runtime/supervisor.py:974-980 | Takes a permit or parks: the slot is reserved if and only if there was one and the supervisor is not closing |
| SupervisorObject.RuntimeSupervisor.Resume | src/codexd/runtime/supervisor.py:974-980 | The parked waiter is reserved if and only if a permit was handed over and the supervisor is not closing |
| SupervisorObject.RuntimeSupervisor.Reserve | src/codexd/runtime/supervisor.py:975-980 | Turns one unused permit into a reservation, or hands it back when closing; the start lock is free, other slots are untouched |
| SupervisorObject.RuntimeSupervisor.Release | src/codexd/runtime/supervisor.py:1023-1028 | Gives the reservation of a slot back as one unused permit, once; other slots are untouched |
| SupervisorObject.RuntimeSupervisor.PublishRuntime | src/codexd/runtime/supervisor.py:323-343 | The slot is ready, reserved, under the lease it started with, and its catalog is that of the runtime |
| SupervisorObject.RuntimeSupervisor.AbandonStart | src/codexd/runtime/supervisor.py:287-302 | A runtime that could not be closed stays with its reservation; otherwise the slot is empty and its permit unused again |
| SupervisorObject.RuntimeSupervisor.CompleteClose | src/codexd/runtime/supervisor.py:837-844 | The slot is empty and its permit unused again; after an eviction the starter holds the start lock and a permit is there for it |
| SupervisorObject.RuntimeSupervisor.CompleteReport | src/codexd/runtime/supervisor.py:446-463 | The slot is empty and its permit unused again if the runtime was closed, and keeps the runtime and the reservation if not |
| SupervisorObject.RuntimeSupervisor.StoreCatalog | src/codexd/runtime/supervisor.py:754-765 | Stores a catalog only for the runtime and lease that the caller started from |
| FileLeases.LeasesAreSafe | src/codexd/runtime/codex_sdk.py:827-958 | In every reachable state, as long as no file turn gets the handle of a running turn: until the exit of the provider is confirmed, the descriptors of every file turn whose start was attempted and whose terminal event has not come are open and held in exactly one place; once closed, nothing is open |
| FileLeases.BlockedMeansHeld | src/codexd/runtime/codex_sdk.py:1561-1585 | While releases are blocked no descriptor is closed, except by the step that confirms the exit |
| FileLeases.TerminalReleases | src/codexd/runtime/codex_sdk.py:1074-1078 | Without a close, a terminal event releases exactly its own turn's descriptors |
| FileLeases.ReturnIsSafeExactly | src/codexd/runtime/codex_sdk.py:941-957 | A start may return a handle if and only if no file turn comes to share it with a running turn while releases are open: then everything that follows is safe, and otherwise something unsafe can follow |
| FileLeases.ReuseIsUnsafe | src/codexd/runtime/codex_sdk.py:941-957 | From any such state the terminal event of the other turn closes descriptors that may still be read |
| FileLeases.ReusedHandleLosesLease | src/codexd/runtime/codex_sdk.py:941-957 | A run of five steps that shows it |
| FileLeases.StepKeepsInv | src/codexd/runtime/codex_sdk.py:827-958 | Every step keeps the descriptors exactly in the pending set or the per-turn map |
| FileLeaseObject.LeasedRuntime.Begin | src/codexd/runtime/codex_sdk.py:862-874 | Descriptors are open and pending before the provider is asked; nothing starts once releases are blocked |
| FileLeaseObject.LeasedRuntime.Returned | src/codexd/runtime/codex_sdk.py:930-957 | The lease moves from the pending set to the turn's handle, or stays, or is found closed |
| FileLeaseObject.LeasedRuntime.Terminal | src/codexd/runtime/codex_sdk.py:1074-1078 | Releases the turn's lease unless releases are blocked |
| FileLeaseObject.LeasedRuntime.ReleaseEverything | src/codexd/runtime/codex_sdk.py:1570-1579 | The loop closes all leases and nothing else |
| FileLeaseObject.LeasedRuntime.StartClosing | src/codexd/runtime/codex_sdk.py:1426-1431 | Blocks releases before the client is closed |
| FileLeaseObject.LeasedRuntime.Finalize | src/codexd/runtime/codex_sdk.py:1448-1497 | Descriptors are closed if the exit is confirmed, and kept with releases blocked if it is not |
| ProviderBarrierRuns.BarrierCoversEffects | src/codexd/application/session_lifecycle.py:1381-1466 | In every reachable state, with a crash at any await, as long as no turn is cancelled during its thread start: while the provider may have applied, or may still apply, a mutation that nothing local accounts for, the barrier is raised; no operation begins over a barrier, and one effect at a time can lower it |
| ProviderBarrierRuns.LeaveIsSafeExactly | src/codexd/storage/repository.py:4193-4195 | A turn may leave the store, by a cancellation or by its end, if and only if its thread start is not between the mailbox and its end: then everything that follows is safe, and otherwise something unsafe can follow |
| ProviderBarrierRuns.LateLeaveIsUnsafe | src/codexd/application/turn_coordinator.py:374-460 | From any state in which a turn leaves during its thread start, a command of the owner and the rest of that start lead to a forgotten mutation |
| ProviderBarrierRuns.CancelledStartClearsBarrier | src/codexd/application/turn_coordinator.py:374-460 | Such a run from the start; without the cancellation the command is turned away |
| ProviderBarrierRuns.BarrierGoesDownOnly | src/codexd/storage/repository.py:3530-3564 | The barrier is cleared only for an effect that is committed or refused for certain, or by the owner's recovery, and then no mutation is hidden |
| ProviderBarrierRuns.RestartFences | src/codexd/application/session_lifecycle.py:802-816 | After a crash with a hidden mutation the monitor fences, the barrier stays, and turns, gated commands and other commands are turned away |
| ProviderBarrierRuns.GateLetsPassExactly | src/codexd/application/session_lifecycle.py:1345-1372 | A command passes its gate if and only if no turn is queued or running and, if it is strict, there is neither barrier nor fence |
| ProviderBarrierRuns.TurnGateLetsPassExactly | src/codexd/application/turn_coordinator.py:362-375 | A turn passes its gate if and only if there is neither barrier nor fence |
| ProviderBarrierRuns.MonitorFencesExactly | src/codexd/application/session_lifecycle.py:802-816 | The monitor fences behind a raised barrier and changes nothing else |
| ProviderBarrierRuns.QuietCommandGoesThrough | src/codexd/application/session_lifecycle.py:286-334 | A strict command on a quiet, open conversation can be carried out and leaves it open |
| ProviderBarrierRuns.BeginOverBarrierIsUnsafe | src/codexd/storage/repository.py:3447-3528 | The store's refusal is needed: with a mutation hidden, a completed effect is safe if and only if its command has an interaction other than the barrier's |
| ProviderBarrier.BeginsFindNoBarrier | src/codexd/storage/repository.py:6784-6800 | The lock, the check for live turns and the order of the mailbox together: whatever the store lets begin finds no barrier |
| ProviderBarrier.RecoveriesMeetNoEffect | src/codexd/storage/repository.py:3797-3880 | The owner's recovery meets no effect that could still lower the barrier |
| ProviderBarrier.StepKeepsInv | src/codexd/application/session_lifecycle.py:286-500 | Each step of the queue, the gates, an effect, the monitor, a crash and a recovery keeps the barrier over every exposed effect and the operations apart |
| ProviderEffects.Conversation.Perform | src/codexd/application/session_lifecycle.py:304-334 | A whole effect ends with the barrier down if and only if it is committed or refused for certain; otherwise the barrier stays and the conversation is fenced unless the store fails too; the other operations are untouched |
| ProviderEffects.Conversation.FinishFailure | src/codexd/application/session_lifecycle.py:1405-1466 | A definite refusal clears the barrier; an unknown outcome keeps it and fences |
| ProviderEffects.Conversation.CommitEffect | src/codexd/application/turn_coordinator.py:427-460 | The commit of a command clears its barrier at once, that of a thread start in a second transaction |
| ProviderEffects.Conversation.BeginEffect | src/codexd/storage/repository.py:3447-3528 | The barrier is written unless another command holds it |
| Mailboxes.NoLostWakeups | src/codexd/runtime/mailbox.py:47-79 | In every reachable state a mailbox that waits with a clear event has left no announced turn in the queue |
| Mailboxes.DeliveryIsSerial | src/codexd/runtime/mailbox.py:129-142 | At most one mailbox of a conversation is live, so at most one handler call is under way |
| Mailboxes.QueuedTurnsAreOnTheirWay | src/codexd/runtime/mailbox.py:47-79 | An announced turn that is still queued has a consumer on its way to it if and only if the mailbox is live |
| Mailboxes.WakeRevives | src/codexd/runtime/mailbox.py:108-142 | A wake-up of an open registry leaves a live mailbox with its event set, also after a crash |
| Mailboxes.EarliestFirst | src/codexd/storage/repository.py:3250-3260 | A query answers none only when nothing is queued, and otherwise the earliest queued turn |
| Mailboxes.RetriesRearm | src/codexd/runtime/mailbox.py:72-79 | A retry sets the event again and comes back to the queue |
| Mailboxes.CrashLosesWakeup | src/codexd/runtime/mailbox.py:51-54 | After any failing query no consumer comes back, whatever happens, until the next wake-up, which makes one |
| Mailboxes.EndsOnlyByCrashOrClose | src/codexd/runtime/mailbox.py:47-79 | A live mailbox ends only by a failing query or once it is closed, not when the queue is empty |
| MailboxLoop.Mailbox.RunUntilIdle | src/codexd/runtime/mailbox.py:51-74 | Whatever the handler does, finish, ask for a retry or return with its turn still queued: turns leave in the order in which they came, none is lost or repeated, and every call is for the first unfinished turn |
| MailboxLoop.Mailbox.RunRound | src/codexd/runtime/mailbox.py:51-74 | One query with its handler call keeps that order |
| MailboxObject.Registry.Announce | src/codexd/runtime/mailbox.py:108-142 | Finds the live mailbox or makes one and sets its event; nothing after the registry is closed |
| MailboxObject.Registry.Enqueue | src/codexd/application/turn_coordinator.py:163-179 | A turn is inserted before its wake-up, after all earlier ones |
| MailboxObject.Registry.PassWait | src/codexd/runtime/mailbox.py:48-50 | The event is clear before the queue is looked at, and the queue is looked at unless the mailbox is closed |
| MailboxObject.Registry.Query | src/codexd/storage/repository.py:3250-3260 | The search answers the earliest queued turn, or none if and only if nothing is queued |
| MailboxObject.Registry.Rearm | src/codexd/runtime/mailbox.py:76-79 | After a retry the consumer can run again unless it is closed |
| MailboxObject.Registry.Close | src/codexd/runtime/mailbox.py:120-127 | Wake-ups do nothing afterwards and the live mailbox can be stopped; the queue is untouched |
| DiscordText.SplitDiscordText | src/codexd/rendering/discord.py:493-518 | The parts join to the text, are nonempty and at most one over the limit (at most the limit if the marker search stopped there); every cut is a cluster boundary and, when links end on boundaries, splits no link; each cut is the next one after the one before, which CutsAreMeant says without the search; each error for its own reason |
| DiscordText.SplitBoundary | src/codexd/rendering/discord.py:541-594 | The searches compute the specified cut, which CutExactly characterizes |
| DiscordCuts.CutsAreMeant | src/codexd/rendering/discord.py:501-518 | For every cut of a split text with more than the limit left after the one before: if the place after the last occurrence of some marker is free and in the last two thirds, the cut is the furthest such place; else, if a link covers the limit, the last boundary up to its start; else the last boundary outside the links within the limit, or with none of these the first boundary |
| DiscordCuts.CutExactly | src/codexd/rendering/discord.py:541-594 | The search returns a place if and only if it is that one; it fails if and only if there is none |
| DiscordCuts.PreferredIsFurthest | src/codexd/rendering/discord.py:549-566 | The search over the markers finds the furthest free place after the last occurrence of a marker, if there is one |
| DiscordCuts.MeantCutIsUnique | src/codexd/rendering/discord.py:541-594 | No two places are meant |
| DiscordText.CutAvoidsLinks | src/codexd/rendering/discord.py:541-594 | A cut splits no link when links are short enough, disjoint, and end on boundaries |
| DiscordText.MarkdownLinkSpans | src/codexd/rendering/discord.py:604-622 | The scanner finds exactly the specified spans |
| DiscordLinks.LinkSpansExactly | src/codexd/rendering/discord.py:604-622 | Every span is a link, an image with its mark, and every bracket that opens a link lies in a span |
| DiscordLinks.LinkEndExactly | src/codexd/rendering/discord.py:604-641 | A link is found if and only if an unescaped bracket has a first closing one at depth zero, a parenthesis right after it, and that one its first closing one |
| DiscordText.LinkSpansAreDisjoint | src/codexd/rendering/discord.py:604-622 | Spans are in order, disjoint and inside the text |
| DiscordText.MatchingDelimiter | src/codexd/rendering/discord.py:625-641 | The scan with a depth counter finds the matching unescaped delimiter |
| DiscordText.OneOverTheLimit | src/codexd/rendering/discord.py:551-560 | A part of a split text is over the limit, by one, if and only if a marker ends one past it, on a boundary and outside the links |
| DiscordText.CutOverTheLimit | src/codexd/rendering/discord.py:551-560 | The same for one cut |
| DiscordExamples.PartOverTheLimit | src/codexd/rendering/discord.py:551-553 | A text with such a part |
| DiscordText.LinksSplitExactly | src/codexd/rendering/discord.py:541-594 | A cut of a split text splits a link if and only if no marker decides and either an earlier link has a boundary inside and none from its end to the start of the covering link, or there is no such covering link and no boundary outside the links in reach |
| DiscordText.CutSplitsLinkExactly | src/codexd/rendering/discord.py:541-594 | The same for one cut |
| DiscordExamples.LinkIsSplit | src/codexd/rendering/discord.py:541-594 | A text with such a cut: the link ends inside a cluster |
| DiscordText.SplitLong | src/codexd/rendering/discord.py:501-518 | The loop: it cuts the whole text at the specified cuts, makes progress each time, and fails only for a cluster or a link start that leaves no boundary |
| DiscordText.FailureIsReal | src/codexd/rendering/discord.py:568-594 | A cut fails only when a cluster is longer than the limit or a link starts inside a cluster |
| Graphemes.GraphemeBoundaries | src/codexd/rendering/discord.py:653-675 | The scan computes the cluster relation |
| Graphemes.FlagsArePaired | src/codexd/rendering/discord.py:653-675 | A row of regional indicators from a cluster start is cut after every second one |
| Graphemes.SplitGraphemeChunks | src/codexd/rendering/discord.py:678-691 | The longest chunks of whole clusters; an error if and only if some cluster is longer than the limit |
| Graphemes.ChunksAreFewest | src/codexd/rendering/discord.py:678-691 | No way to chunk whole clusters within the limit needs fewer chunks |
| CodeMessages.SplitDiscordCode | src/codexd/rendering/discord.py:521-538 | Each message fits, carries its chunk between fences that the chunk does not contain, and the chunks are the code |
| CodeMessages.NoLongerRun | src/codexd/rendering/discord.py:524-526 | No stretch of the code is a longer row of backticks than its longest run |
| CodeMessages.FenceIsShortest | src/codexd/rendering/discord.py:527-530 | The fence is the shortest row of at least three backticks that the code does not contain |
| CodeMessages.StripRestores | src/codexd/rendering/discord.py:533-538 | Stripping prefix and suffix gives the chunk back |
| Utf8Chunks.SplitUtf8Chunks | src/codexd/rendering/discord.py:777-795 | The chunks join to the UTF-8 encoding, split no character and respect the size; an error if and only if one character is too large |
| Utf8Chunks.DecodeUndoesEncode | src/codexd/rendering/discord.py:777-795 | Decoding the encoding gives the code points back |
| Utf8Chunks.ByteChunksAreFewest | src/codexd/rendering/discord.py:777-795 | No way to cut between characters within the size needs fewer chunks |
| Tables.LayoutPages | src/codexd/rendering/tables.py:123-211 | The widths are the least ones for the texts, or scaled; every row has exactly the height of its tallest cell; pages and memory estimate are as promised; too wide only when a column stops at its minimal width, too many pages only when no pagination has few enough, no memory only when no pagination has enough |
| Tables.RowFits | src/codexd/rendering/tables.py:164-167 | The height of a row is no less than what any of its cells needs, and equal for one of them |
| Tables.ScaledExactly | src/codexd/rendering/tables.py:151-153 | A scaled column has its whole proportional share, rounded down, and at least 80 pixels |
| Tables.WrapFollowsWidth | src/codexd/rendering/tables.py:156-162 | A scaled column wraps at the number of 13-pixel characters that it has room for, and at 8 or more |
| Tables.TextFitsColumn | src/codexd/rendering/tables.py:142-149 | A text with its padding is no wider than its column, unless the column has the greatest width |
| Tables.ColumnIsTight | src/codexd/rendering/tables.py:142-149 | A column is not wider than the least width or what one of its texts asks for |
| Tables.Paginate | src/codexd/rendering/tables.py:171-182 | The pages are a complete greedy cutting of the body rows; an error if and only if a row is taller than the budget |
| Tables.FillPage | src/codexd/rendering/tables.py:174-180 | The longest run of rows from a given one that fits |
| Tables.PlacePages | src/codexd/rendering/tables.py:171-194 | A good layout, or an error for its own reason: for the memory error, no pagination stays within the budget |
| Tables.TooWideStopsColumn | src/codexd/rendering/tables.py:151-155 | A table that is too wide after scaling has a column that would have to be narrower than 80 and is not |
| Tables.MemoryIsTooSmall | src/codexd/rendering/tables.py:188-194 | When the estimate of the greedy pagination exceeds the budget, so does that of every other |
| Tables.GreedyIsMinimal | src/codexd/rendering/tables.py:171-187 | No contiguous partition into fitting pages has fewer of them |
| Tables.RgbWithinEstimate | src/codexd/rendering/tables.py:188-194 | All page images together take no more than the estimate |
| Tables.ImagesFit | src/codexd/rendering/tables.py:229-232 | With a body row each page is at most one pixel over the page height |
| Tables.PageHeightHoldsExactly | src/codexd/rendering/tables.py:183-184 | All pages of a layout keep the page height, up to one pixel, if and only if there is a body row or the header leaves room for the footer |
| Tables.ScalingFits | src/codexd/rendering/tables.py:151-155 | A table is too wide after scaling only when the minimal width stops a column |
| Tables.NaturalWidths | src/codexd/rendering/tables.py:134-149 | The least widths that give every cell what it asks for |
| Greedy.FewestPieces | src/codexd/rendering/tables.py:171-182 | Taking the longest piece each time gives the fewest pieces |
| Archives.ValidateZip | src/codexd/application/attachment_materializer.py:382-477 | Admission decides admissibility: entries accepted, totals bounded, folded paths distinct, no file above an entry; apart from the deadline |
| Archives.AcceptedPathsAreSafe | src/codexd/application/attachment_materializer.py:480-507 | An accepted name is its parts joined by slashes, and no part is empty, a dot, two dots, or holds a separator, colon or NUL |
| Archives.SafeParts | src/codexd/application/attachment_materializer.py:480-507 | The parts of an accepted name are acceptable on every system |
| Archives.PathsAcceptedExactly | src/codexd/application/attachment_materializer.py:480-507 | A name is accepted, with these parts, if and only if nothing in it is forbidden, it is the parts joined by slashes with at most one more slash, and the parts are acceptable and not too many |
| Archives.EntryAcceptedExactly | src/codexd/application/attachment_materializer.py:399-446 | An entry is accepted if and only if it is not encrypted, supported, of an accepted name, a regular file or directory as its name says, not too large, not an empty file, and within the ratio |
| Archives.ScanEntries | src/codexd/application/attachment_materializer.py:396-457 | The loop plans all entries, with the totals of the files, or refuses for a reason that makes the archive inadmissible |
| Archives.AggregateRatioHolds | src/codexd/application/attachment_materializer.py:437-467 | The ratio checks of the entries imply that of the whole archive, so that one never fires |
| Archives.ConflictIsReal | src/codexd/application/attachment_materializer.py:468-476 | The conflict search finds a file above an entry if and only if there is one |
| Archives.CollisionIsReal | src/codexd/application/attachment_materializer.py:447-453 | A repeated folded path means that the archive is not admissible |
| Extraction.ExtractZip | src/codexd/application/attachment_materializer.py:230-293 | Extraction of an admitted archive never collides, yields exactly the planned tree, and fails only for time, a wrong size or no file; the running total never exceeds the limit |
| Extraction.MaterializeArchive | src/codexd/application/attachment_materializer.py:230-293 | From the raw entries to the planned tree: it succeeds if and only if the archive is sound, has a file, delivers the declared sizes, and there is time enough |
| Extraction.AdmissibleIsExtractable | src/codexd/application/attachment_materializer.py:241-277 | What admission accepts is what extraction relies on |
| Extraction.EntryIsPlaced | src/codexd/application/attachment_materializer.py:245-277 | Each entry finds its parents creatable and its place free, also where the file system folds case |
| Extraction.WayIsClear | src/codexd/application/attachment_materializer.py:245-250 | No file is above or at the place of an entry that is still to come |
| Extraction.EnsureDirectoryWorks | src/codexd/application/attachment_materializer.py:247-250 | A directory can be made with its parents where no file is in the way, and only its parents appear |
| Extraction.NothingIsReplaced | src/codexd/application/attachment_materializer.py:247-250 | Directories and files are made without touching what is there |
| Extraction.ExtractFile | src/codexd/application/attachment_materializer.py:525-562 | A file is copied if and only if it delivers exactly its declared size |
| ControlStripping.StripIsIdempotent | src/codexd/security/redaction.py:289-307 | A second pass removes nothing |
| ControlStripping.SurvivorsAreJustified | src/codexd/security/redaction.py:289-339 | Every surviving joiner and selector has its required neighbours in the output |
| ControlStripping.FixedExactlyWhenJustified | src/codexd/security/redaction.py:289-307 | A text is left alone if and only if all its characters are justified where they stand |
| ControlStripping.StripKeepsTheJustified | src/codexd/security/redaction.py:289-307 | Of the text without controls and ignorable characters, exactly the characters that are justified there stay |
| ControlStripping.OrdinaryTextSurvives | src/codexd/security/redaction.py:289-307 | Ordinary characters are kept, all and in order |
| ControlStripping.ValidEmojiJoiner | src/codexd/security/redaction.py:310-321 | The backward scan decides whether an emoji precedes the joiner |

## Left out

- LedgerRuns.LedgerIsExact: the edits of its runs set the cursor past all records, which EditIsSafeExactly shows is needed; manual fires are not part of the ledger, they have keys of their own and do not move the cursor.
- LedgerBatches.BatchIndependence: passes are undisturbed and the conversation is available; disturbed ones are in LedgerRuns.
- FileLeases.LeasesAreSafe: in its runs no file turn gets the handle of a running turn, which ReturnIsSafeExactly shows is needed.
- ProviderBarrierRuns.BarrierCoversEffects: in its runs no turn is cancelled during its thread start, which LeaveIsSafeExactly shows is needed; a definite error means that nothing was applied; every command has an interaction of its own, as every caller gives it one; the barrier kinds compact and external_active, and the recovery of an idle thread, are not modelled.
- DiscordText.SplitDiscordText: that no cut splits a link is stated for links that end on cluster boundaries, and LinksSplitExactly says when it does.
- Tables.ScalingFits: the scale is exact arithmetic, not floating point; fonts and wrapping are functions of cell and width.
- EventPump.Run: cancellation of the pump is not modelled (it loses the buffer); an exception inside the merge or the size measure is.
- Events.EventsAreLawful: numbers in payloads are integers; strings that the program would convert are not numbers here.
- Calendar.RecurringAlwaysFires: UTC from 1970 on; other time zones are arbitrary functions from minutes to local time.
- Schedules.ParseCronField: Python's `int` is a parameter; the split at white space, the canonical spelling and time-zone lookups are left out.
- The tick's loop over several schedules, and the blocking of schedules whose configuration is invalid, which is one of the edits.
- SupervisorRuns.CapacityIsRespected: a process counts as living until its close returns, also one that died by itself.
- Supervisor fairness and deadlocks (what can be done is in SupervisorProgress, not that it is), backoff times, idle clocks and crash-loop incidents; whether a slot is idle, in backoff or has live work is free. A factory that fails is assumed to leave no process.
- SupervisorObject.RuntimeSupervisor: slots are values in a sequence field, so aliasing of slot objects is not captured.
- The store's tables, audit rows, command intents other than as identities, and incidents.
- Time-outs while a client closes: a close ends confirmed or not.
- Discord and Codex calls, drawing, font probing, regular expressions for redaction, key rings, service managers, CLI and configuration.
- Unicode tables: character categories, combining marks, normalization and case folding are parameters with the few facts that are used.
- The full rules of CommonMark links and of grapheme clusters: the code's own scanner and relation are modelled.
