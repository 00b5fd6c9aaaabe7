# A verified model of Phonon's core state machines

This project models the parts of the Phonon daemon that keep fast, incremental
state and must agree with a simple specification, and proves that they do.

- **The L4 scheduler** (`RunStore`, `Fencing`, `SchedulerState`, `SchedulerSweep`,
  `SchedulerReclaims`, `SchedulerSteady`, `Scheduler`, `SchedulerRuns`,
  `SchedulerUndisturbed`, `Clock`). A run moves from queued
  over launching, running and waiting for a retry to a terminal status. Its state lives
  in the engine's tables (runs, one queue per schedule, two execution maps) and in store
  rows fenced by owner and epoch. Class `SchedulerEngine` has one method for each stretch
  of code between two awaits. The invariant says that queues hold exactly the waiting
  runs in order of admission, that a schedule which never allowed overlap has at most
  one active run, that a waiting run implies an active one unless its schedule lost a
  run to another owner or to teardown, that attempts stay within 1 + maxRetries, that a
  run ends failed only with all attempts used unless teardown, recovery or a controller's
  verdict ended it, and that each owned row mirrors its run. It holds between
  calls under every interleaving of callers, timers, events and stale continuations.
  Which calls may exempt a schedule or a run is bounded call by call (`SchedulerSteady`),
  and `SchedulerUndisturbed.ServeInOrder` says what is left without any exemption: as
  long as no turn disturbs a schedule, whatever else the engines do, it has at most one
  active run in each engine, none waits without one, runs are launched in order of
  admission, and a failed run has used all its attempts.
  `Fencing` and `SchedulerRuns` put any number of engines over one store, with leases
  lost, expired and reclaimed between any two steps. `SchedulerSweep` and
  `SchedulerReclaims` follow one pass over the listing of unfinished runs, row by row.
- **Cron** (`Calendar`, `Cron`): field parsing, and the day-skipping search against a
  minute-by-minute scan of the Gregorian calendar. Fields follow the `crontab`
  utility of POSIX.1-2017, with its union rule for day of month and day of week.
- **The conversation archive** (`ArchiveState`, `Archive`, `ArchiveEntities`,
  `ArchiveListing`, `Blob`): an append-only hash chain with overlap-tolerant replay,
  pinned pages, an index of entity versions listed page by page, and resumable
  chunked blobs.
- **The outbox** (`OutboxQueue`, `Outbox`, `OutboxRuns`) together with a server that
  acknowledges only a committed contiguous prefix.
- **Current-turn input** (`TurnInputState`, `TurnInput`, `TurnInputRuns`): inputs
  offered to a running turn at its native boundaries.
- **Responses stream repair** (`Compat`): an event transducer in front of an adapter.
- **Transformers** (`Quoting`, `Framing`, `MergePatch`, `TextEdit`): Windows command
  lines, Content-Length framing (the "Base Protocol" section of the Language Server
  Protocol specification), JSON merge patch (section 2 of RFC 7396) as a recursion
  and as path edits, and simultaneous unique-match text edits.

Classes carry the source's mutable tables; what a method does to them is stated
through functions on an immutable view (`View()`), and the lemmas are about those
functions. Ghost state records only history that the tables forget: admission order,
offers, settled promises, schedules that ever allowed overlap, had a run taken over
beside an active one or lost a run, and runs failed by a controller's verdict, by
teardown or by recovery.

Where the code does not keep what its design promises, the model follows the code,
and a lemma names the input and the exact condition:

- A finished run does not always stay finished. The sweep over orphaned runs lists the
  unfinished rows once and claims each without looking at its status. A run that ends
  during the sweep, or in another process after the listing, is claimed again: it is
  written anew from its listed row, and a second end is announced a second time
  (`SchedulerReclaims.SweepEndsRunTwice` in one engine,
  `Fencing.StaleListingReopensFinishedRuns` in two). A call keeps its guarantee exactly
  if it makes no such claim (`Fencing.TrailIsLawfulIff`), a finished row is frozen exactly
  while there is none (`Fencing.TerminalIsFinalIff`), and which runs one engine's sweep
  claims again can be told before it begins: with leases held, exactly the exposed
  ones (`SchedulerReclaims.ClaimedAgainIffExposed`).
- 1500 days do not reach over a century year that is not a leap year, and a due
  occurrence is then dropped (`Cron.LeapDayBeyondHorizon`, `Clock.LeapOccurrenceIsDropped`).
  A search finds nothing exactly if nothing fires before its horizon
  (`Cron.NothingFoundIff`), and a due round drops its occurrence exactly then
  (`Clock.DueRoundDropsIff`).
- `Clock.EarlyTimerRepeats`: outside live dispatch an early timer fires one occurrence twice.
- `ArchiveEntities.CompleteVersionExtended` and the equivalences beside it: a further
  part of a complete entity version is accepted. Over any run of submissions the versions
  stay consistent exactly if no accepted batch adds one (`ArchiveEntities.SubmitAll`).
- `MergePatch.EditsMeetTheRfcIff`: path edits leave an explicit null in place.
- `Framing.CutSeparatorFails`: a header near its limit fails if its separator is cut;
  `Framing.EveryChunkingDeliversIff` says when no cut matters.
- `Quoting.ProgramRoundTripIff`: a program path with a final backslash does not survive.
- The comment on `dispose` says that no persisted run remains pending; runs that are
  dispatched, attached to a workflow or waiting for a retry are released unfinished
  (`Scheduler.SchedulerEngine.RetireRuntime`).

`dafny verify dfyconfig.toml` checks the whole project.

## Model

| member | source | states |
|---|---|---|
| Calendar.DayNumberOfDate | packages/core/src/cron.ts:78-105 | the calendar behind the wall clock: the date reached by walking day by day from 1970 has the closed-form day number it started from, for every day before and after 1970 |
| Calendar.DayNumberInjective | packages/core/src/cron.ts:78-105 | two Gregorian dates with one day number are one date, leap and century years included |
| Cron.ParseField | packages/core/src/cron.ts:34-60 | a field parses exactly when all its comma-separated parts do; it then holds exactly the union of what the parts select, is non-empty and in range, and is a wildcard exactly if one part is a bare star; an error is the error of the first part that does not parse |
| Cron.AddRange | packages/core/src/cron.ts:57-57 | the stepping loop adds exactly the values a whole number of steps from the start of the range |
| Cron.ParseCron | packages/core/src/cron.ts:62-72 | an expression is accepted exactly if it has five fields and each parses within its own bounds; each field then holds exactly what its parts select, is non-empty and in range, and is a wildcard exactly if one part is a bare star; otherwise the error is that of the first field that does not parse |
| Cron.ScanIsLeast | packages/core/src/cron.ts:111-136 | the reference: a minute-by-minute scan yields the least firing minute of its range, or none if none fires |
| Cron.NextCronAfter | packages/core/src/cron.ts:111-136 | the day-skipping search returns what the minute-by-minute scan returns, for every well-formed expression, instant and offset; the hard iteration cap is never what ends it |
| Cron.NextFireIsLeast | packages/core/src/cron.ts:107-136 | a result is a whole minute strictly after the instant and before the horizon, satisfies the expression, and no earlier minute after the instant does; no result means nothing fires on the next 1500 local days |
| Cron.NothingFoundIff | packages/core/src/cron.ts:107-136 | there is no result exactly if the expression fires at no minute between the first whole minute after the instant and the horizon: 1500 local days, one more if it fires on the first of them |
| Cron.NextFireFromEarlier | packages/core/src/cron.ts:107-136 | searching again from any instant before a result finds that same result, as the horizon never moves nearer: nothing is skipped by restarting the search |
| Cron.DayJump | packages/core/src/cron.ts:125-131 | jumping from a day whose date does not match to the next local midnight passes over no firing minute |
| Cron.MinuteStep | packages/core/src/cron.ts:132-133 | inside a matching day each step spends one iteration and keeps the bound on iterations, because a whole matching day cannot pass without a matching time |
| Cron.SearchHits | packages/core/src/cron.ts:120-131 | a firing minute that the search reaches is the one the scan finds, and the iteration cap is still ahead |
| Cron.SearchEnds | packages/core/src/cron.ts:120-136 | a search that stops without a result has reached the horizon, not the iteration cap, and the scan finds nothing either |
| Cron.LeapDayBeyondHorizon | packages/core/src/cron.ts:107-117 | an input of `Cron.NothingFoundIff`: `0 0 29 2 *` has no result on 1 March 2096 although it fires on 29 February 2104 |
| RunStore.RunTable.UpsertRun | packages/core/src/store.ts:1366-1411 | a write to an existing run is taken only from the row's owner and epoch, or from nobody for an unowned row; it never changes schedule, owner, epoch or a frozen dispatch; a refused write changes nothing |
| RunStore.RunTable.AcceptCronRun | packages/core/src/store.ts:1347-1364 | the receipt of a cron run and the schedule's next occurrence are committed together or not at all |
| RunStore.RunTable.ClaimRun | packages/core/src/store.ts:1456-1476 | an unowned, expired or own row can be claimed, whatever its status; ownership passes to another owner only with a higher epoch |
| RunStore.RunTable.RenewRunLease | packages/core/src/store.ts:1478-1483 | a lease is extended only for the owner and epoch in the row |
| RunStore.RunTable.ListActiveRuns | packages/core/src/store.ts:1508-1512 | the unfinished runs, each once, in order of creation |
| RunStore.RunTable.ReleaseRun | packages/core/src/store.ts:1485-1490 | releasing takes owner and epoch away for good: the row is unowned under a higher epoch |
| RunStore.RunTable.UpsertSchedule | packages/core/src/store.ts:1306-1330 | the schedule is stored; whether it ever allowed overlap is remembered |
| RunStore.RunTable.DeleteSchedule | packages/core/src/store.ts:1342-1345 | the schedule goes, its runs stay |
| Fencing.GuaranteeComposes | packages/core/src/scheduler-engine.ts:707-760 | what one lawful step may do to rows and announcements is closed under sequence |
| Fencing.TerminalIsFinalIff | packages/core/src/scheduler-engine.ts:707-760 | over any interleaving of any owners' steps, with leases lost, expired and reclaimed, a terminal run row stays exactly as it is if and only if the run is not claimed again from a listing made before it finished |
| Fencing.AnnouncedAsOftenAsEnded | packages/core/src/scheduler-engine.ts:707-760 | across all owners the end of a run is announced live at most as often as its row became terminal: once, and once more for each claim after it had finished; exactly as often if no engine keeps an end to itself |
| Fencing.DeposedForever | packages/core/src/store.ts:1456-1490 | an ownership token that left a row never comes back to it, whoever claims, renews or releases afterwards |
| Fencing.DeposedOwnerNeverWrites | packages/core/src/scheduler-engine.ts:1111-1121 | from the step that ends an owner's token on, no continuation of that owner can pass the store's fence for the row |
| Fencing.LeaseProtects | packages/core/src/store.ts:1456-1483 | while a lease is unexpired no other engine's step touches the row |
| Fencing.RequeuedOnlyByReclaim | packages/core/src/scheduler-engine.ts:577-600 | a run that left its queue returns to it only through a claim after it had finished, from a listing that still saw it queued |
| Fencing.RecoveredTrail | packages/core/src/scheduler-engine.ts:1142-1286 | the step of one claim from a listing, for every phase and status it may write, queued and terminal ones included: a lawful step if the row is still as listed, a claim of a finished run if not |
| Fencing.TrailIsLawfulIff | packages/core/src/scheduler-engine.ts:1135-1288 | seen as one step, a call whose claims go by a listing made when it began keeps rows to what a step may do, and keeps its guarantee (no finished run changes, each end announced at most once) exactly if none of its claims is of a run that has finished since |
| Fencing.LawfulThenTrail | packages/core/src/scheduler-engine.ts:1123-1288 | the same with a lawful step in front, as when leases are renewed before the sweep |
| Fencing.TrailAnnounces | packages/core/src/scheduler-engine.ts:1135-1288 | in such a call the end of each run is announced exactly as often as its row became terminal: one more time for each claim of it after it had finished |
| Fencing.StaleListingReopensFinishedRuns | packages/core/src/scheduler-engine.ts:1140-1286 | two processes, one stale listing: of two runs listed as unfinished and then finished and released by their owner, one is put back into its queue and the end of the other is announced a second time |
| SchedulerState.FinishedKeepsInv | packages/core/src/scheduler-engine.ts:707-760 | ending a run keeps every invariant, whether the row is still owned (it becomes terminal) or was lost (the run is dropped without a write) |
| SchedulerState.FinishedIsLegal | packages/core/src/scheduler-engine.ts:707-760 | ending a run is a step the fence allows, and it is announced only if it is durable |
| SchedulerState.MovedKeepsInv | packages/core/src/scheduler-engine.ts:577-600 | launching, running and waiting for a retry keep one active run per schedule, the queues, the attempt bounds and the mirror between memory and row |
| SchedulerState.AttemptBegunKeepsInv | packages/core/src/scheduler-engine.ts:589-600 | beginning an attempt counts it, and keeps every invariant; attempts stay within 1 + maxRetries |
| SchedulerState.AdmittedKeepsInv | packages/core/src/scheduler-engine.ts:538-567 | a new run keeps the invariants: active only on an idle schedule or one that allows overlap |
| SchedulerState.PushedKeepsInv | packages/core/src/scheduler-engine.ts:528-531 | a run joining the end of its queue keeps the queue exact, free of duplicates and in order of admission |
| SchedulerState.PoppedKeepsInv | packages/core/src/scheduler-engine.ts:762-775 | taking the head off a queue yields a waiting run of that schedule and leaves the rest exact and in order |
| SchedulerState.RemovalKeepsQueues | packages/core/src/scheduler-engine.ts:861-867 | removing a run from its queue keeps every queue exactly the waiting runs of its schedule |
| SchedulerState.DrainedBehindHead | packages/core/src/scheduler-engine.ts:762-775 | serving the first waiting run, seeing it fail to start and then draining behind it is one first-in-first-out drain |
| SchedulerState.QueueCancelledIsValid | packages/core/src/scheduler-engine.ts:777-784 | with its queue cancelled a schedule owes no active run, so the invariant holds |
| SchedulerState.RetiredKeepsValid | packages/core/src/scheduler-engine.ts:178-193 | retiring a run (released unfinished if durable, ended otherwise) is legal and keeps the invariant |
| SchedulerState.EndedStaysBusyElsewhere | packages/core/src/scheduler-engine.ts:707-775 | a run that ends leaves every other schedule with waiting runs busy; only its own queue remains to be served |
| SchedulerSweep.AdoptedKeepsInv | packages/core/src/scheduler-engine.ts:1142-1200 | taking over a listed run keeps the invariants for every phase it may be adopted in, also when its row has been finished and released since the listing; a schedule counts as overlapped only if it had an active run then |
| SchedulerSweep.OrphanEndedKeepsInv | packages/core/src/scheduler-engine.ts:1254-1286 | finishing a listed run without adopting it keeps the invariants, whatever became of its row since the listing |
| SchedulerSweep.ReconciledSpares | packages/core/src/scheduler-engine.ts:1142-1286 | taking one listed row leaves every other run as it was, except waiting runs of the same schedule that are launched, found lost or ended when the run taken over ends at once; nothing of the kind while only dispatches are handled |
| SchedulerSweep.StillPending | packages/core/src/scheduler-engine.ts:1141-1146 | when its turn comes, a listed run is as it was listed, or was launched from its queue, found lost or ended earlier in the pass |
| SchedulerSweep.AgainIsUnlaunchable | packages/core/src/scheduler-engine.ts:1141-1146 | whatever happened to leases: a run is claimed after it finished only if it was waiting in this engine's memory, still owned, and would end at once when launched, and never while only dispatches are handled |
| SchedulerReclaims.QueueIsServed | packages/core/src/scheduler-engine.ts:762-775 | draining an idle schedule whose leases are held launches its waiting runs up to and including the first that stays, and ends all before it |
| SchedulerReclaims.PassAsExpected | packages/core/src/scheduler-engine.ts:1141-1286 | after every row of the pass each schedule looks as computed from the state before the pass: its queue untouched until the first run taken over only to end on it while idle, and served up to the first run that stays from then on |
| SchedulerReclaims.ClaimedAgainIffExposed | packages/core/src/scheduler-engine.ts:1141-1146 | with leases held, the runs claimed after they finished are exactly those exposed before the sweep: waiting on an idle schedule, listed behind a run of it that is taken over with its last attempt failed and no earlier one that becomes active, with no launch in the queue up to them succeeding |
| SchedulerReclaims.SweepReclaims | packages/core/src/scheduler-engine.ts:1135-1288 | which finished runs a sweep claims again: none if it only handles dispatches or no waiting run would end at its launch, exactly the exposed ones if leases are held |
| SchedulerReclaims.StrandedIsValid | packages/core/src/scheduler-engine.ts:1135-1288 | the input of the next lemmas satisfies the invariant with all leases held: a schedule with policy queue, no retries and a workflow target without plan, a run waiting on it, and an earlier run of it given up by another engine |
| SchedulerReclaims.StrandedIsExposed | packages/core/src/scheduler-engine.ts:1135-1288 | in that state, with the workflow of the earlier run failed, the waiting run is exposed |
| SchedulerReclaims.SweepEndsRunTwice | packages/core/src/scheduler-engine.ts:1135-1288 | one sweep of one engine from that state ends the waiting run as failed, claims it again from the listing, leaves it cancelled, and announces its end twice |
| Scheduler.SchedulerEngine.constructor | packages/core/src/scheduler-engine.ts:95-99 | a new engine over any sound store satisfies the invariant and has announced nothing |
| Scheduler.SchedulerEngine.AssertRunOwner | packages/core/src/scheduler-engine.ts:1111-1121 | true exactly if the store still knows this owner and epoch, and then the lease is renewed; otherwise the run leaves memory, mappings and queue and nothing is written |
| Scheduler.SchedulerEngine.EndRow | packages/core/src/scheduler-engine.ts:727-757 | the terminal row is written and released only through the fence, and announced only if that was durable |
| Scheduler.SchedulerEngine.FinishRun | packages/core/src/scheduler-engine.ts:707-760 | the run ends with the given status, its row is released under a higher epoch, the end is announced, and its schedule's queue is then served in order; the recursion through launches terminates on the queue's length |
| Scheduler.SchedulerEngine.DrainQueue | packages/core/src/scheduler-engine.ts:762-775 | an active schedule is left alone; otherwise waiting runs leave in first-in-first-out order up to the first that stays or is found lost: those before it ended because the schedule was gone, disabled or unstartable on the only attempt; no other run changes |
| Scheduler.SchedulerEngine.LaunchAttempt | packages/core/src/scheduler-engine.ts:577-633 | exactly one more attempt begins if the row is owned, the schedule enabled, and the attempt can start or is not the last; otherwise the run is cancelled (schedule gone or disabled), failed with all attempts used, or dropped because another owner has the row |
| Scheduler.SchedulerEngine.StartAttempt | packages/core/src/scheduler-engine.ts:589-633 | once ownership and schedule are checked: one attempt counted and either started or failed |
| Scheduler.SchedulerEngine.Launch | packages/core/src/scheduler-engine.ts:597-630 | a dispatched run is handed over and running at once; any other awaits the execution it asked for |
| Scheduler.SchedulerEngine.MarkRunning | packages/core/src/scheduler-engine.ts:602-660 | the run counts as running and says so; its row follows only if it is still owned |
| Scheduler.SchedulerEngine.FailAttempt | packages/core/src/scheduler-engine.ts:675-705 | with attempts left the run waits for its retry, without them it ends failed and the queue is served; a lost run is dropped |
| Scheduler.SchedulerEngine.CancelQueued | packages/core/src/scheduler-engine.ts:777-784 | every waiting run of the schedule ends cancelled and its queue is empty; active runs and other schedules are untouched |
| Scheduler.SchedulerEngine.Create | packages/core/src/scheduler-engine.ts:227-261 | refused exactly if the cron expression never fires within the horizon; otherwise stored with its first occurrence |
| Scheduler.SchedulerEngine.Update | packages/core/src/scheduler-engine.ts:263-306 | accepted exactly if the schedule exists and a new cron expression has a next occurrence; the cursor is computed afresh; unless the schedule stays enabled with policy queue, its waiting runs are cancelled |
| Scheduler.SchedulerEngine.Delete | packages/core/src/scheduler-engine.ts:312-324 | the schedule, its queue and all its runs are gone, every owned row cancelled, nothing else changed |
| Scheduler.SchedulerEngine.LaunchRun | packages/core/src/scheduler-engine.ts:511-536 | one trigger has exactly one outcome (denied, skipped row, queued behind the active run, or launched), decided by expiry, local policy, overlap policy and backlog (a full backlog always skips); a cron cursor moves only with the run's row |
| Scheduler.SchedulerEngine.PersistSkipped | packages/core/src/scheduler-engine.ts:790-826 | a skipped trigger leaves one finished row, with the cron cursor in the same transaction, and nothing else |
| Scheduler.SchedulerEngine.Enqueue | packages/core/src/scheduler-engine.ts:528-531 | a waiting run gets its row and goes to the end of its schedule's queue |
| Scheduler.SchedulerEngine.Conclude | packages/core/src/scheduler-engine.ts:469-505 | a verdict on a live run is carried out only by the owner of its row: success, timeout, cancellation, or a failed attempt |
| Scheduler.SchedulerEngine.OnStreamEvent | packages/core/src/scheduler-engine.ts:445-466 | an event concerns only the run its session is mapped to; results conclude it, messages only re-check ownership, events of unknown sessions do nothing |
| Scheduler.SchedulerEngine.OnWorkflowEvent | packages/core/src/scheduler-engine.ts:469-505 | an event concerns the run its workflow is mapped to, or the launching run its metadata names; the first event attributes the workflow; a lost run is dropped before anything else |
| Scheduler.SchedulerEngine.OnRetryTimer | packages/core/src/scheduler-engine.ts:687-704 | a retry timer launches only a run that still waits for its retry |
| Scheduler.SchedulerEngine.EndByCaller | packages/core/src/scheduler-engine.ts:422-439 | cancelling ends a live owned run once, queued or active, and serves the queue; an unknown or lost run is not written |
| Scheduler.SchedulerEngine.Resolve | packages/core/src/scheduler-engine.ts:366-388 | a terminal row answers by itself (same report: already resolved, another: conflict); a wrong dispatch is a mismatch; a live owned run ends as reported, unless it is still queued and reported as executed |
| Scheduler.SchedulerEngine.OnLaunchThrew | packages/core/src/scheduler-engine.ts:666-672 | a launch that throws fails the run's current attempt if the run is still live, even if the launch belonged to an earlier attempt |
| Scheduler.SchedulerEngine.ResumeLaunch | packages/core/src/scheduler-engine.ts:621-664 | after the await the execution is attributed to its run and the run counts as running, if it is still live; its row changes only if it is still owned |
| Scheduler.SchedulerEngine.RenewRunLeases | packages/core/src/scheduler-engine.ts:1123-1133 | exactly the runs whose rows are still owned stay in memory, with renewed leases |
| Scheduler.SchedulerEngine.RetireRuntime | packages/core/src/scheduler-engine.ts:178-193 | a durable run is released unfinished for a later owner, any other is ended, without an announcement |
| Scheduler.SchedulerEngine.Dispose | packages/core/src/scheduler-engine.ts:200-209 | every run is retired, all tables are empty, and nothing is announced; durable runs stay unfinished in the store |
| Scheduler.SchedulerEngine.DetachDispatchClock | packages/core/src/scheduler-engine.ts:153-163 | exactly the runs without a dispatch are retired; dispatched runs and their queues stay |
| Scheduler.SchedulerEngine.ReconcileRow | packages/core/src/scheduler-engine.ts:1142-1286 | one listed row that may be claimed, whatever its present status, is adopted from its listed state (queued, running, waiting for its retry, or attached to its live workflow) or finished by what its workflow reports, and otherwise left alone; its first step is a claim of a finished run exactly if the run has finished since the listing |
| Scheduler.SchedulerEngine.ReconcileOrphanedRuns | packages/core/src/scheduler-engine.ts:1135-1288 | the unfinished runs are listed once, each is taken once in that order and then every queue is served once; each run that finished since the listing is claimed again exactly once; seen as one step the call keeps its guarantee exactly if there is none, and each end is announced once more per such claim; with leases held these are exactly the exposed runs of the state before the call |
| Scheduler.SchedulerEngine.TakeRows | packages/core/src/scheduler-engine.ts:1141-1286 | the loop over the listing, in order of creation: each row taken once, from the snapshot |
| Scheduler.SchedulerEngine.TakeRow | packages/core/src/scheduler-engine.ts:1142-1286 | one listed row taken as the next step of the sweep |
| Scheduler.SchedulerEngine.ServeQueues | packages/core/src/scheduler-engine.ts:1284-1284 | the loop over the queues: each queue there is at that moment drained once |
| Scheduler.SchedulerEngine.Start | packages/core/src/scheduler-engine.ts:108-119 | the first start reconciles orphaned runs, with the same condition; a second one does nothing |
| Scheduler.SchedulerEngine.Trigger | packages/core/src/scheduler-engine.ts:343-358 | a trigger of a missing or disabled schedule is refused; otherwise it has the outcome of one launch, without moving a cron cursor |
| Scheduler.SchedulerEngine.CronRound | packages/core/src/scheduler-engine.ts:933-974 | one round: nothing unless running and enabled, re-armed if more than a second early, nothing accepted without a successor occurrence, otherwise exactly one accepted outcome that moves the cursor, or a storage failure that changes nothing |
| Scheduler.SchedulerEngine.FireOccurrence | packages/core/src/scheduler-engine.ts:949-963 | the due occurrence is accepted, denied by policy with the cursor moved on, or not accepted at all |
| Scheduler.SchedulerEngine.OnCronFire | packages/core/src/scheduler-engine.ts:933-974 | for a dispatch schedule owed its occurrences one by one, the loop terminates and turns the stored cursor and each next occurrence up to now into exactly one outcome each, in order: each round finds the cursor at its occurrence and moves it to the occurrence of the next round; the cursor ends after now, or where the store refused, the search ended or the schedule was switched off |
| SchedulerSteady.HeadIsForemost | packages/core/src/scheduler-engine.ts:762-775 | the run taken off a queue was admitted before every other run that waits for its schedule |
| SchedulerSteady.InOrderComposes | packages/core/src/scheduler-engine.ts:577-775 | that no run comes back or waits anew, and none is launched while one ahead of it waits, is kept over any sequence of steps |
| SchedulerSteady.HeldStarvesNone | packages/core/src/scheduler-engine.ts:1111-1133 | an engine that holds its leases loses no run and so starves no schedule |
| SchedulerSteady.RetiredElsewhere | packages/core/src/scheduler-engine.ts:153-209 | teardown leaves a schedule entirely alone that has no run to retire |
| SchedulerSteady.ReconciledElsewhere | packages/core/src/scheduler-engine.ts:1142-1286 | taking a listed row of one schedule changes no run, row or queue position of any other schedule |
| SchedulerSteady.SweptElsewhere | packages/core/src/scheduler-engine.ts:1141-1286 | so a sweep leaves a schedule alone if before it no unfinished run of the schedule could be claimed |
| SchedulerSteady.SweptActivity | packages/core/src/scheduler-engine.ts:1141-1286 | a schedule that had lost no run comes to overlap in a sweep only if two of its listed runs could be adopted as active; an ordinary restart with one run in flight leaves it unexempted |
| SchedulerSteady.SweepIsSteady | packages/core/src/scheduler-engine.ts:1135-1288 | the same for the whole sweep, its queues served: no run is lost, and only schedules with a run to claim are disturbed |
| SchedulerRuns.Perform | packages/core/src/scheduler-engine.ts:108-974 | every entry into an engine (callers, timers, events, continuations of awaits, lease timer, teardown) keeps the invariant even with leases lost; seen as one step it keeps the guarantee exactly if it claims no finished run again, which only a start or a lease timer can; what it may exempt is bounded: outside teardown no run is lost and an engine that holds its leases starves no schedule, only a call that allows overlap or a sweep beside an active run makes a schedule overlap, and only a controller's verdict, teardown or a sweep excuses a run |
| SchedulerRuns.LeaseStep | packages/core/src/scheduler-engine.ts:1123-1288 | the lease timer renews and then reconciles: with its leases then held, the finished runs it claims again are exactly the exposed ones of the state in between |
| SchedulerRuns.InterferenceKeepsValid | packages/core/src/scheduler-engine.ts:1111-1160 | a step of another engine keeps everything an engine relies on; at worst some of its runs are fenced off |
| SchedulerRuns.Drive | packages/core/src/scheduler-engine.ts:108-1326 | any interleaving of any number of engines over one store keeps every engine valid and is a trace of steps, each lawful or a claim of a finished run, that contains every announcement; without a start or a lease timer no finished run is claimed again; a schedule comes to overlap only if some turn allowed it or swept, and no run is excused without a verdict, a teardown or a sweep |
| SchedulerUndisturbed.FreshIsAtRestIff | packages/core/src/scheduler-engine.ts:95-99 | a new engine is at rest for a schedule exactly if the schedule never overlapped and no unfinished run of it is stored in the engine's name |
| SchedulerUndisturbed.DisturbsByRows | packages/core/src/scheduler-engine.ts:1135-1288 | at rest, what a call may disturb can be told from the call and the stored rows: an unfinished run it would claim from another owner or none, fail on a controller's word or tear down, or a policy that allows overlap |
| SchedulerUndisturbed.OthersFindKept | packages/core/src/scheduler-engine.ts:1111-1160 | a step that does not disturb a schedule takes no run of it from any other engine |
| SchedulerUndisturbed.RecoveredAtRest | packages/core/src/scheduler-engine.ts:1135-1288 | a sweep that may adopt at most one active run of a schedule leaves it at rest, after a restart as well |
| SchedulerUndisturbed.KeptIsOrderly | packages/core/src/scheduler-engine.ts:577-775 | what is kept for a schedule at rest means: at most one active run, a waiting run implies an active one, every run of it owned, launches in order of admission, and failed runs with all attempts used |
| SchedulerUndisturbed.ServeInOrder | packages/core/src/scheduler-engine.ts:108-1326 | turns of any engines, in any interleaving, up to the first that disturbs a schedule at rest: in every engine the schedule has at most one active run, no run waits without one, no lease of it was lost, none of the runs that waited was launched while one ahead of it still waits, and every run of it that ended failed used all its attempts |
| SchedulerRuns.RunsFinishOnce | packages/core/src/scheduler-engine.ts:707-760 | over any such run a finished run's row is frozen exactly if no sweep claims the run again, and its end is announced, over all engines together, at most once if it became finished in the run and once more for each claim after that |
| SchedulerRuns.CronTurnsClock | packages/core/src/scheduler-engine.ts:933-974 | one cron round at a schedule owed its occurrences: the due occurrence is accepted with a row of its own or a denial and the cursor moves to the next one, or nothing changes, or the schedule is switched off |
| SchedulerRuns.CronChain | packages/core/src/scheduler-engine.ts:933-974 | whatever calls and engines run in between, the accepted cron rounds of an enabled dispatch schedule form one chain from its stored cursor to its present one, each at the occurrence after the last and with a run of its own unless denied, until it is switched off; an update, a deletion or a catch-up after downtime starts anew |
| Clock.NextOccurrence | packages/core/src/scheduler-engine.ts:995-998 | the computed next run is an occurrence after the given instant, and there is none between |
| Clock.EveryOccurrenceOnce | packages/core/src/scheduler-engine.ts:933-974 | firings that follow one another by the computed successor contain every occurrence of the expression between the first and the next, once each and in order |
| Clock.CaughtUpOwesNothing | packages/core/src/scheduler-engine.ts:933-974 | a loop that caught up has handled every occurrence from the stored cursor up to now, each once, in order, and left the cursor at the first occurrence after now |
| Clock.EarlyTimerRepeats | packages/core/src/scheduler-engine.ts:940-946 | for a schedule that is not owed its occurrences one by one, the successor computed by a timer within its one-second tolerance is the occurrence that just fired, exactly if the clock has not reached that occurrence |
| Clock.DueRoundDropsIff | packages/core/src/scheduler-engine.ts:942-947 | a due round of an armed schedule returns without accepting its occurrence exactly if the expression fires at no minute up to the horizon of the search, counted from the occurrence if occurrences are owed one by one and from the clock if not |
| Clock.LeapOccurrenceIsDropped | packages/core/src/scheduler-engine.ts:945-947 | an input of `Clock.DueRoundDropsIff`: `0 0 29 2 *` on 29 February 2096 is due and has no successor within the horizon |
| ArchiveState.ExtendedIsChained | packages/core/src/conversation-archive.ts:248-285 | appending consecutive entries to a hash chain gives a hash chain that extends it, with exactly those entries |
| ArchiveState.ExtendedIsLawful | packages/core/src/conversation-archive.ts:261-277 | entries accepted one by one leave an archive all of whose entries obeyed the rules when they were appended |
| ArchiveState.HashFixesHistory | packages/core/src/conversation-archive.ts:128-139 | equal hashes at any two positions of two archives mean the same scope, the same position and the same entries before it |
| ArchiveState.SameHeadSameEntries | packages/core/src/conversation-archive.ts:128-144 | two valid archives with the same head hash hold identical entries from the same genesis |
| ArchiveState.ResubmissionIsAccepted | packages/core/src/conversation-archive.ts:256-262 | a committed contiguous batch submitted again is not refused and has nothing new |
| ArchiveState.RewriteConflicts | packages/core/src/conversation-archive.ts:256-262 | a batch that changes a committed entry is refused, as a conflict if it starts from the right hash |
| Archive.ConversationArchive.Append | packages/core/src/conversation-archive.ts:248-286 | refused exactly for the first fault in order (budget, anchor, conflict with what is committed, entry rules, capacity), and then nothing changes; otherwise only the new suffix is added, the chain stays valid from genesis to head, and the receipt names the hash of the submitted batch's last entry, replayed or not |
| Archive.TakeBatch | packages/core/src/conversation-archive.ts:256-279 | the loop over a batch: overlap compared by hash with what is committed, the rest appended entry by entry; it fails exactly with the batch's refusal |
| Archive.OverlappingEntry | packages/core/src/conversation-archive.ts:258-262 | the hash comparison of an overlapping entry succeeds exactly if the entry is the committed one |
| Archive.ConversationArchive.Read | packages/core/src/conversation-archive.ts:287-314 | a page is a slice of the range from its position on, within limit and byte budget, never empty before the end, ended early only because the next entry does not fit, and points on exactly if the range is not finished |
| Archive.TakePage | packages/core/src/conversation-archive.ts:299-311 | the loop of `read`: the longest slice that limit and wire budget allow |
| Archive.ReadRange | packages/core/src/conversation-archive.ts:287-314 | following `nextAfterSequence` with a pinned end always gets on and ends; the pages together are exactly the pinned range and hash-linked across page borders, whatever is appended between them and whatever each page's envelope costs, as long as each entry fits into a page of its own |
| ArchiveEntities.VersionOccupies | packages/core/src/conversation-archive.ts:261-277 | each entity version occupies the sequences from its number on, one per part, with equal parts, order and deleted flag, and only the archive's last version may lack parts |
| ArchiveEntities.GroupsAgreeIff | packages/core/src/conversation-archive.ts:261-270 | all entries of one version agree exactly if every further part continued an unfinished version; `append` does not compare the part count of a version that is already complete |
| ArchiveEntities.AcceptedKeepsGroupsIff | packages/core/src/conversation-archive.ts:261-270 | an accepted entry keeps versions consistent exactly if it is not a further part of a version that is already complete |
| ArchiveEntities.BatchKeepsGroupsIff | packages/core/src/conversation-archive.ts:256-277 | the same for a whole accepted batch: every further part in it must come directly behind an unfinished version |
| ArchiveEntities.SubmittedKeepsGroupsIff | packages/core/src/conversation-archive.ts:256-284 | the same for a submission that may overlap what is committed, be refused, or add nothing |
| ArchiveEntities.SubmitAll | packages/core/src/conversation-archive.ts:249-286 | over any run of submissions to a live archive the versions stay consistent exactly if no accepted batch added a further part to a complete version; once broken they stay broken |
| ArchiveEntities.CompleteVersionExtended | packages/core/src/conversation-archive.ts:261-270 | a second part of a complete one-part version is accepted, and from then on the collection's query fails its integrity check |
| ArchiveEntities.EntitiesAreNewest | packages/core/src/conversation-archive.ts:315-346 | a query pinned at a sequence answers exactly with each key's newest version complete at that sequence, if it is not a deletion, and never finds a consistent archive inconsistent |
| ArchiveEntities.PinnedAnswerStays | packages/core/src/conversation-archive.ts:315-346 | later appends change neither a pinned answer nor its incomplete flag |
| ArchiveEntities.IncompleteMeansCutOff | packages/core/src/conversation-archive.ts:315-346 | the incomplete flag says exactly that the pinned range ends inside a version of the collection |
| ArchiveListing.HitStands | packages/core/src/conversation-archive.ts:330-343 | each key and version the query finds has all its parts in place among the entries up to the pinned sequence, an order and no deletion, so the checks on its first and last entry never fail |
| ArchiveListing.SelectRows | packages/core/src/conversation-archive.ts:333-336 | ordering and limit of the query: the highest hits by order and then by key, strictly falling, all of them if fewer than the limit |
| ArchiveListing.QueryEntities | packages/core/src/conversation-archive.ts:315-346 | one page of the answer: not found, beyond the head, inconsistent, or the highest hits with the key asked for behind the cursor, at most `limit`, each described by its own entries, and a cursor exactly if there are more |
| ArchiveListing.PageAdds | packages/core/src/conversation-archive.ts:333-346 | a page read at the cursor adds exactly the next highest hits: nothing is repeated or skipped between pages |
| ArchiveListing.ListEntities | packages/core/src/conversation-archive.ts:315-346 | following the `before` cursor with a pinned end, for any page size and whatever is appended between pages, lists each key's newest complete undeleted version exactly once, in strictly falling order of order and key, and ends |
| Blob.VerifyBlob | packages/core/src/conversation-archive.ts:173-181 | accepts exactly the blobs whose chunks are all in place, none missing, with a complete one hashing to its declared digest |
| Blob.ArchiveBlob.Write | packages/core/src/conversation-archive.ts:193-225 | the answer is determined by the bytes stored so far; an accepted chunk lies at its offset from then on; a retry changes nothing, a refused chunk changes nothing, a final chunk that breaks the digest is refused |
| Blob.ArchiveBlob.Read | packages/core/src/conversation-archive.ts:226-243 | a chunk of a complete blob and where the next starts, only at chunk borders and inside the blob, the empty blob included |
| Blob.ChunkAdded | packages/core/src/conversation-archive.ts:193-225 | one more chunk keeps the stored bytes a gapless chunk-aligned prefix, and the blob sound exactly if a completing chunk makes the digest match |
| Blob.Upload | packages/core/src/conversation-archive.ts:193-225 | over any order of writes, retries and restarts the content only grows, every accepted chunk stays at its offset, and a complete blob hashes to its declared digest |
| Blob.UploadFile | packages/core/src/conversation-archive.ts:182-225 | from any first part of the file an earlier sender left, nothing and all of it included, a sender that goes on at the received count completes the upload with exactly its file, in one write per missing chunk and at most two more; only a lack of quota or space stops it, and then the upload can be resumed again |
| Blob.Download | packages/core/src/conversation-archive.ts:226-243 | reading along `nextOffset` returns exactly the blob's bytes, the empty blob included |
| OutboxQueue.SortSorts | packages/core/src/outbox.ts:110-121 | the order of `pending` keeps exactly the events and is strict by session and sequence |
| OutboxDelivery.OutboxStore.Add | packages/core/src/store.ts:872-894 | an event is stored unless its key is stored or the proactive message was seen before |
| OutboxDelivery.OutboxStore.Ack | packages/core/src/store.ts:910-923 | watermark and deletion of the rows below it happen together; the watermark never moves back |
| OutboxDelivery.OutboxStore.MarkFinalized | packages/core/src/store.ts:902-908 | the watermark alone, as a crash may leave it; it never moves back |
| OutboxDelivery.Outbox.constructor | packages/core/src/outbox.ts:33-55 | a reload deletes exactly the rows at or below their watermark and keeps exactly the rest, in order |
| OutboxDelivery.LoadRows | packages/core/src/outbox.ts:41-54 | the reload loop: buffer, key set and table agree and hold no settled event |
| OutboxDelivery.Outbox.Enqueue | packages/core/src/outbox.ts:57-68 | an event is added exactly if it is neither settled nor waiting nor a repeated proactive message; nothing is ever dropped for lack of room |
| OutboxDelivery.Outbox.Ack | packages/core/src/outbox.ts:70-83 | an acknowledgement moves the watermark only forward and never beyond the highest waiting sequence, and removes exactly the events up to it |
| OutboxDelivery.Outbox.ResumeFrom | packages/core/src/outbox.ts:97-108 | per session the lowest waiting sequence, in order of sessions |
| OutboxDelivery.Outbox.Pending | packages/core/src/outbox.ts:110-121 | strictly sorted, exactly the waiting events that are not before their session's starting point |
| OutboxDelivery.ResumedPendingIsPending | packages/core/src/outbox.ts:97-121 | resuming from where `resumeFrom` says replays exactly everything pending |
| OutboxRuns.Server.Receive | sdk-python/agent_phonon/server.py:790-802 | a server that commits in sequence and acknowledges only its committed contiguous prefix, once that covers the event |
| OutboxRuns.NothingIsLost | packages/core/src/outbox.ts:33-121 | while device and server are in step, every event ever made durable is committed at the server or still waiting |
| OutboxRuns.Step | packages/core/src/outbox.ts:33-121 | every enqueue, duplicate, delivery, late or repeated acknowledgement, restart, and crash between watermark and row deletion keeps the two sides in step and moves no watermark back |
| OutboxRuns.Run | packages/core/src/outbox.ts:33-121 | over any run no accepted event is lost, `pending` is strictly sorted, and watermarks are monotone and never above a known sequence |
| TurnInputState.AdmittedKeepsValid | packages/core/src/current-turn-input.ts:79-106 | admitting an input within the limits keeps every invariant of the turn |
| TurnInputState.ResolvedKeepsValid | packages/core/src/current-turn-input.ts:91-99 | an input resolves only with its offer, once, and is then no longer waiting |
| TurnInputState.OfferedKeepsValid | packages/core/src/current-turn-input.ts:148-170 | an input that has no offer gets its only one, at a boundary of this turn |
| TurnInput.SortedMatches | packages/core/src/current-turn-input.ts:174-193 | an observation matches only waiting inputs that were offered at its boundary to its native session, peer mail of that boundary, or inputs accepted there before |
| TurnInput.ActiveInput.Insert | packages/core/src/current-turn-input.ts:79-106 | admitted exactly if the turn is active, the binding can take it, and the per-message, waiting, total and byte limits leave room; otherwise nothing changes |
| TurnInput.ActiveInput.Resolve | packages/core/src/current-turn-input.ts:91-99 | settles a waiting input once: resolved with its offer, rejected without one, nothing if it has settled |
| TurnInput.ActiveInput.PrepareBegin | packages/core/src/current-turn-input.ts:118-124 | each boundary is taken at most once, one at a time, at most 256 |
| TurnInput.ActiveInput.PrepareEnd | packages/core/src/current-turn-input.ts:125-172 | accepted exactly if the turn is still active and the peer mail belongs to the boundary and fits; the batch is the peer mail and then inputs never offered before, at most 8 messages and 16000 bytes, the inputs within the headroom the peers left; an input is passed over only because it may not be offered, the headroom left is too small, or the batch is full |
| TurnInput.ActiveInput.OfferWaiting | packages/core/src/current-turn-input.ts:148-170 | the loop over waiting inputs, in order of admission: each is offered, rejected for a reason, deferred for lack of headroom, or left because the batch is full |
| TurnInput.TakePeers | packages/core/src/current-turn-input.ts:136-145 | peer mail is taken exactly if it fits the batch limits under ids of its own; what remains of the headroom |
| TurnInput.ActiveInput.Authorize | packages/core/src/current-turn-input.ts:195-210 | passes exactly if the observation matches and neither an input nor the peer side refuses, and then changes nothing; a refusal withdraws exactly the observed inputs |
| TurnInput.ActiveInput.Observe | packages/core/src/current-turn-input.ts:212-231 | only evidence of application resolves inputs, each only if offered at the observed boundary to the observed session; a refusal rejects them all; a receipt the binding cannot claim changes nothing |
| TurnInput.ActiveInput.Close | packages/core/src/current-turn-input.ts:233-237 | every input that still waits is rejected, so that all have settled |
| TurnInputRuns.Step | packages/core/src/current-turn-input.ts:79-237 | every event keeps the turn valid, the history consistent, and every offer as it was made |
| TurnInputRuns.RunTurn | packages/core/src/current-turn-input.ts:38-237 | under every interleaving each admitted input has settled exactly once when `run` returns, resolved only on a receipt that came in after its single offer, for the boundary and session of that offer, and that proves application (a provider payload or an applied context); every batch kept its limits and its inputs the native headroom, and no input was in two batches |
| Compat.InOrderMeans | scripts/claude-gpt-compat/compat.py:124-136 | content indexes of an item never decrease in the forwarded stream |
| Compat.FinalItemStreamWrapper.FinishText | scripts/claude-gpt-compat/compat.py:56-96 | succeeds exactly if the final message is well formed and agrees with everything streamed for it and missing text can still be put in order; then exactly the missing text is forwarded, in order |
| Compat.FinalItemStreamWrapper.Replay | scripts/claude-gpt-compat/compat.py:76-92 | the loop over the final texts: streamed text must agree, missing text is forwarded at its index unless a later one was streamed |
| Compat.FinalItemStreamWrapper.Stream | scripts/claude-gpt-compat/compat.py:124-136 | a delta is forwarded and recorded exactly if it has an identity, its item is not done and no higher content index was streamed |
| Compat.FinalItemStreamWrapper.ProcessEvent | scripts/claude-gpt-compat/compat.py:106-172 | does not raise exactly if the event is acceptable in the current state; the forwarded log stays faithful: deltas of a finished item concatenate to its final text, those of an unfinished one to what was streamed, one closing event per finished item |
| Compat.FinalItemStreamWrapper.Conclude | scripts/claude-gpt-compat/compat.py:150-171 | the completed response is accepted exactly if its ids are distinct, each message and tool call agrees with the stream, something is visible and nothing observed is missing from it; then everything final was forwarded |
| Compat.ReplayAdds | scripts/claude-gpt-compat/compat.py:82-88 | replaying a missing text keeps order and content of everything forwarded so far |
| Compat.StreamKeepsFaithful | scripts/claude-gpt-compat/compat.py:124-136 | forwarding a delta in order keeps the log faithful |
| Compat.CompleteNow | scripts/claude-gpt-compat/compat.py:150-171 | once all final messages are finished and nothing else was observed, the forwarded stream is the complete response |
| Compat.RunStream | scripts/claude-gpt-compat/compat.py:56-172 | an accepted stream ends with its completed response, and the adapter was then given, for each final message, exactly its final text per content index, in order, with one closing event, and no text of any other item |
| Compat.BareResponseIff | scripts/claude-gpt-compat/compat.py:56-172 | a stream that brings only its completed response is accepted exactly if the response has distinct ids, finished text messages, no tool call and some text: all of it is replayed |
| Compat.CompleteStreamIsUnchanged | scripts/claude-gpt-compat/compat.py:56-172 | a message that was announced, streamed in any chunks and finished with the same text is forwarded event by event unchanged, and refused exactly if there was no text at all |
| Quoting.ScanEscaped | packages/core/native/process-job.c:60-71 | scanning an escaped argument inside its quotes gives it back, for any mix of backslashes and quotes |
| Quoting.ScanQuoted | packages/core/native/process-job.c:58-73 | a quoted argument is scanned back exactly, up to the separator behind it |
| Quoting.ParseRest | packages/core/native/process-job.c:56-73 | any list of arguments behind the program name parses back exactly, empty arguments and spaces included |
| Quoting.ParseLine | packages/core/native/process-job.c:44-75 | parsing the produced line by the Microsoft C runtime's rules gives back every argument, for a program path without quotes and final backslash |
| Quoting.ProgramRoundTripIff | packages/core/native/process-job.c:56-77 | the program path comes back exactly if it has neither a quote nor a final backslash; the `.exe` check of the caller ensures the latter |
| Quoting.LineFits | packages/core/native/process-job.c:44-47 | the produced line is shorter than the buffer of 2 * length + 4 per argument and one |
| Quoting.CommandLine | packages/core/native/process-job.c:44-75 | no line exactly if the size exceeds 32767; otherwise the buffer holds exactly the quoted arguments, or for `cmd.exe /d /s /c` the command as it is in one pair of quotes, and is terminated, every write inside it |
| Quoting.WriteQuoted | packages/core/native/process-job.c:58-73 | one pass over an argument with a count of pending backslashes writes exactly its quoted form |
| Framing.DecimalIsDigits | packages/core/src/discovery-rpc.ts:57-57 | the written length is a decimal without leading zero whose value is the length |
| Framing.HeaderAnnounces | packages/core/src/discovery-rpc.ts:84-88 | the header of a written message announces exactly its length |
| Framing.FramedReader.ReadFramed | packages/core/src/discovery-rpc.ts:76-95 | after each chunk exactly the complete messages of the buffered bytes were received and the rest is kept; beyond two MiB or on a malformed frame the connection fails for good |
| Framing.Drain | packages/core/src/discovery-rpc.ts:81-94 | the loop takes complete messages off the front of the buffer, in order, until none is complete |
| Framing.DecodeInPieces | packages/core/src/discovery-rpc.ts:76-95 | as long as nothing failed, decoding in pieces is decoding at once |
| Framing.DecodeStream | packages/core/src/discovery-rpc.ts:76-95 | any well-framed stream of the peer with headers of at most 8189 bytes decodes to exactly its payloads, and no part of it is taken for a violation |
| Framing.DecodeBehind | packages/core/src/discovery-rpc.ts:81-94 | complete frames decode to their payloads whatever follows them |
| Framing.FrontOfPart | packages/core/src/discovery-rpc.ts:82-92 | a frame that has not fully arrived is waited for, unless its separator is incomplete and more than 8192 bytes are there |
| Framing.ReadAll | packages/core/src/discovery-rpc.ts:76-95 | chunk after chunk the reader does what the fold over the chunks says, beyond the output limit and after a violation included |
| Framing.EveryChunkingDeliversIff | packages/core/src/discovery-rpc.ts:76-95 | a well-framed stream within the output limit is delivered exactly and in order, with nothing left over, however it is cut into chunks, if and only if no header in it is longer than 8189 bytes |
| Framing.WrittenStreamArrives | packages/core/src/discovery-rpc.ts:53-95 | however a stream of written messages is cut into chunks, within the output limit exactly those payloads are received, in order, and nothing is left over |
| Framing.CutSeparatorFails | packages/core/src/discovery-rpc.ts:82-84 | for any frame of a stream with a header of 8190 to 8192 bytes, which is within the limit: the stream cut before the last byte of that frame's separator fails |
| MergePatch.FieldOfMerged | packages/core/src/maintenance.ts:116-126 | field by field, the recursion is the table of section 2 of RFC 7396: null deletes, an absent entry keeps, any other entry merges |
| MergePatch.ApplyJsonMergePatch | packages/core/src/maintenance.ts:116-126 | the loop over the patch's entries computes that recursion, for any target and patch |
| MergePatch.PatchIsIdempotent | packages/core/src/maintenance.ts:116-126 | applying a patch twice is applying it once |
| MergePatch.ConfigDocument.Walk | packages/core/src/maintenance-file.ts:142-153 | the path edits change exactly the mapping at the walked path, field by field, against the values the document had before |
| MergePatch.EditsMeetTheRfcIff | packages/core/src/maintenance-file.ts:142-153 | the path edits give the RFC's result exactly if the patch nowhere says null where the target has an explicit null |
| MergePatch.ConfigPatch | packages/core/src/maintenance.ts:279-297 | a patch is committed exactly if it is a clean mapping within the allowed root keys and the edits meet the RFC's result; the committed value is that result and differs from the old one only at allowed root keys |
| TextEdit.TwoSearchesDecide | packages/core/src/maintenance-file.ts:122-123 | the two searches decide exactly whether a fragment occurs once, overlapping occurrences counted |
| TextEdit.CheckedIff | packages/core/src/maintenance-file.ts:119-124 | an edit is accepted exactly if it is well-formed Unicode, not empty, not redacted, and its old text occurs exactly once |
| TextEdit.LocatedIff | packages/core/src/maintenance-file.ts:117-126 | the edits are located exactly if there are 1 to 100, each is sound and matches once, and no two matches, in whatever order the edits come, share a code unit; the check of neighbours after sorting decides that |
| TextEdit.Splice | packages/core/src/maintenance-file.ts:127-128 | splicing from right to left is the left-to-right concatenation of untouched segments and replacements |
| TextEdit.EditConfigText | packages/core/src/maintenance-file.ts:117-131 | the whole operation, with its errors in the source's order |
| TextEdit.OrderDoesNotMatter | packages/core/src/maintenance-file.ts:117-131 | the same edits in any order are accepted alike and give the same text |
| TextEdit.UndoIff | packages/core/src/maintenance-file.ts:117-131 | the edits with old and new text exchanged are accepted on the result exactly if each replacement is non-empty and occurs once there (and the original is a readable config text); then they restore the original |
| TextEdit.EditsKeepCharactersWhole | packages/core/src/maintenance-file.ts:117-131 | no edit cuts a surrogate pair: editing well-formed text gives well-formed text |

## Left out

- Scheduler.SchedulerEngine.ReconcileOrphanedRuns: one step of one engine; another process can write to the store between its listing and a claim only as in `Fencing.StaleListingReopensFinishedRuns`, not inside this method. Which runs are claimed again is told from the state before the call only if leases are held; without that it is told in one direction (`SchedulerReclaims.SweepReclaims`). The guard against a second call from within is left out, as no step of the call is one.
- SchedulerUndisturbed.ServeInOrder: one active run means one in each engine; two engines that both accept triggers of a schedule may each have one, as the code looks only at its own memory.
- SchedulerRuns.CronChain: what `restoreCron` does to the cursor when an engine starts (skipping or catching up occurrences missed while no process ran) is a new start of the chain and not modelled, beyond the catch-up round itself.
- Scheduler.SchedulerEngine.OnCronFire: its rounds run without another step in between; with other steps between them they are the subject of `SchedulerRuns.CronChain`.
- Scheduler.SchedulerEngine.ResumeLaunch: there is no attempt token, so per-attempt facts such as one retry record per attempt are not stated; they do not survive an await that returns during a later attempt.
- Scheduler.SchedulerEngine.Start: the timers it arms, and the catch-up decision of `restoreCron` before the first firing.
- Scheduler: run objects are values in a table; a timer or closure that still holds the object of a run that was dropped and adopted again is not distinguished from one that looks the run up.
- Scheduler: retry history, consent masking, payload shaping, transcripts, metrics, subscriptions, `replayUnacked` and webhook tokens: record copying.
- Scheduler: time stands still within a step; it may be anything from one step to the next.
- Cron.NextCronAfter: the time zone is a fixed offset in minutes; the jump to midnight assumes days of 24 hours and is not exact across daylight-saving changes.
- Cron.ParseCron: the split at white space and the `Intl` conversion.
- Archive, Blob: SHA-256 is ideal (a digest is the value it was computed from); scopes, record ids and keys are numbers; JSON sizes are any functions of the entry.
- ArchiveListing.QueryEntities: the stored size of an entity, and how keys compare as text: a key is its rank.
- Archive: `status`, `blobStatus`, the blob quota and the schema migration of the database.
- OutboxRuns.Server.Receive: the server commits each session's events in sequence from zero and may deliver acknowledgements late, repeatedly or never; what it does with an event is not modelled.
- Outbox: the transport. A crash is possible between writing a watermark and deleting its rows, and between any two calls.
- TurnInput.ActiveInput.PrepareEnd: headroom is computed over exact tenths, floating point may reserve one token more; a `beforeApply` callback either throws or does nothing; peer mail is a parameter.
- TurnInput.ActiveInput.Observe: which error a refusal carries.
- TurnInput: the bridge process, the adapter's capability and the peer context's own receiver and journal (packages/core/src/peer-context.ts) beyond `peerContextHeadroom`.
- Compat.RunStream: the adapter is the log of the events given to it; an item counts as open in it if its opening event was forwarded; the output index of a replayed delta, the chunk queue, timeouts and closing of the source are left out.
- Quoting.CommandLine: how `cmd.exe` reads the command it is given with `/s /c`.
- Framing.FramedReader.ReadFramed: JSON parsing is an arbitrary predicate; a byte is a character; matching replies to requests, and the newline-delimited mode.
- MergePatch.ConfigDocument.Walk: the document is its value tree; comments and formatting, YAML and JSON parsing, and numbers other than integers.
- MergePatch.ConfigPatch: the redaction check and the tree budget are parameters; locking, backups and the file write.
- TextEdit.EditConfigText: reading the file, and re-parsing the edited text in its format.
- Liveness by the wall clock: that a timer eventually fires, a server eventually acknowledges, a lease is eventually renewed.
- Sockets, HTTP, SQLite, child processes, Win32 and POSIX calls: only success, failure or an atomic commit appears.
- Consoles, CLI, rescue, discovery of devices, SSH, gateway pairing and MCP transport: plumbing that would add only easy members.
