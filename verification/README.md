# A verified model of the monitoring engine

The engine probes devices, turns probe results into incidents and mail, and keeps a daily history. This project
models what happens between a probe result and everything that outlives it - the tables, the mail, the event stream,
the staged update - and proves what holds over whole runs: across restarts, retention passes, clock changes, crashes
and arbitrary interleavings.

| files | component |
|---|---|
| `Calendar`, `Heartbeats`, `Incidents` | local days, raw rows, the incident table |
| `Downtime`, `History`, `Janitor` | the two downtime algorithms, rollups, retention, the maintenance pass |
| `Model`, `State`, `Lifecycle`, `Restarts`, `Outages`, `Announcements`, `Mailings`, `Evaluator` | the up/down machine, its state in memory and in two tables, what is announced, mailed and shown |
| `Engine` | probes, restarts, recorded heartbeats and passes in one run over one set of tables |
| `Digest`, `Collapser`, `HourlyCap`, `Outbox`, `MailTable` | collapsing alerts, the hourly cap, the retrying mail queue, and the one table the last two share |
| `Scheduler`, `Recorder` | settings tiers and probe loops, the buffered heartbeat writer |
| `Hub`, `EventStream`, `LineEndings` | event fan-out, the frame writer and the incremental parser |
| `Semver`, `Update`, `UpdateSteps`, `Updater` | versions and the update checker |
| `Series` | the decimated latency chart |
| `Base`, `Text` | shared vocabulary |

Code that changes things step by step is a class or a loop here too. Each method is tied to a function on values (its
`ensures` gives the new state as that function of the old one), and the theorems are about runs of those functions.

**Assumptions.** Times are whole seconds. Local midnights are an arbitrary strictly increasing integer sequence, so
days of 23 and 25 hours are included. Map iteration order, the database's choice among equal rows, thresholds,
notify flags and the moments of restarts are arbitrary. Each statement of the database has its meaning on rows, and
successful writes are atomic. JSON parsing and file hashing are arbitrary functions. `Answer` in `Update` is a server
that honours `If-None-Match`. `Effective.recipients` and `Group.recipients` are the lists the stored text splits into.

## Where the code does less than it appears to

The first six contradict a comment or a log message at the line given. Each is a theorem, with the exact condition
under which the claim is true where there is one.

- `internal/rollup/janitor.go:120`: pruning is by age only, so a day can lose its raw rows before it has a rollup.
  `History.PassPreservesViewIffBatchFits` has the condition, `History.OversizedBacklogLosesHistory` an input.
- `internal/store/rollups.go:165`: a rolled day is never a candidate again, so a figure is never corrected:
  `History.SummariesAreNeverRevised`.
- `internal/store/outbox.go:99`: an exhausted row stays due, so twenty of them keep newer mail from being tried:
  `Outbox.ExhaustedStaysDue`, `Outbox.SureToBeTriedIff`, `Outbox.ExhaustedRowsStarveOthers`.
- `internal/store/heartbeats.go:129`: "at most maxPoints" holds exactly for windows shorter than that many seconds:
  `Series.AtMostMaxPointsIff`.
- `internal/core/core.go:277`: what the writer holds or still takes after the cancel is flushed under the cancelled
  context and lost, and the drain after it stops at 500 rows: `Recorder.ShutdownLosesNothingIff` for one order of
  events, `Recorder.EveryShutdownKeepsAllIff` for all of them.
- `internal/update/checker.go:265` and `:324`: a staged installer that is gone is not fetched again while the server
  answers 304, not even on request: `Update.CheckStagesIff`, `Update.GoneInstallerStaysGone`.
- `internal/core/evaluator.go:183`: a reminder is remembered only in memory: `Restarts.RestartShiftsOnlyReminders`,
  `Restarts.RestartRepeatsReminder`.

One disagreement is between two pieces of code: the query that rolls a day up subtracts an incident that ended before
it started, which a clock set back can produce, and the splitting loop ignores it (`Downtime.LoopAgreesWithQuery`,
`Downtime.ClockSetBackDisagrees`).

## Model

| member | source | states |
|---|---|---|
| Engine.HistoryIsExact | internal/store/uptime.go:171-273 | over every run of probes, restarts, inserts and passes, finished or cut short, in which each device-day is settled when it is summarised: every finished day of the window that has checks is shown with the number of heartbeats ever recorded between its midnights, the number of those that succeeded, and exactly the seconds the device was down that day |
| Engine.StepKeepsSound | internal/rollup/janitor.go:97-231 | every such step keeps the tables in order, and keeps every summary of the window equal to what the incident table says of that day |
| Calendar.FromMidnights | internal/store/uptime.go:318-322 | any strictly increasing midnights give a calendar in which every second lies in exactly one day |
| Calendar.OneDayPerSecond | internal/store/uptime.go:302-312 | a second is in the half-open interval of a day exactly when that is its day, so the splitting loop tiles time |
| Downtime.AddIncident | internal/store/uptime.go:302-312 | the day-splitting loop gives every day its share of one incident, adds it to what was there, and touches no other device or day |
| Downtime.DowntimeByDay | internal/store/uptime.go:277-316 | the map holds, for every requested device and day, the clipped overlap of each of its incidents added up, open ones counted until now |
| Downtime.LoopAgreesWithQuery | internal/store/rollups.go:128-159 | for a finished day at or after the cutoff the loop and the clip-and-sum query agree if and only if no incident of the device ends before it starts inside that day, or the device was down at no second of it |
| Downtime.ClockSetBackDisagrees | internal/store/rollups.go:139-158 | an incident with a negative duration makes the query report 1900 seconds where the loop reports 2000 |
| Downtime.DaysAddUpToDuration | internal/store/uptime.go:302-312 | the per-day amounts of an incident add up to exactly its duration clipped at the cutoff, for days of any length |
| Downtime.DowntimeIsSecondsDown | internal/store/rollups.go:139-158 | when a device's incidents do not overlap, the day's figure is the number of seconds of that day at which it was down, hence never more than the day has |
| Downtime.LoopIsSecondsDown | internal/store/uptime.go:277-316 | and the loop's figure, for any day of the window that has begun, is the number of its seconds until now at which the device was down, if no incident ends after now |
| Downtime.RetentionKeepsQuery | internal/store/rollups.go:236-249 | deleting resolved incidents that ended before a boundary changes the queried figure of no later day |
| Downtime.RetentionKeepsLoop | internal/store/rollups.go:236-249 | nor the loop's figure when its cutoff is at or after that boundary |
| Heartbeats.RowsAfterPrune | internal/store/rollups.go:191-224 | deleting rows older than a midnight empties every earlier device-day and leaves every later one complete |
| Heartbeats.TallyCounts | internal/store/rollups.go:53-61 | a device-day's figures are the number of its rows between the two midnights and the number of those that succeeded |
| Heartbeats.OneMoreCheck | internal/store/uptime.go:223-231 | one more row raises the checks of its own device-day by one, the successful ones by one if and only if it succeeded, and changes no other device-day |
| Janitor.Store.InsertHeartbeats | internal/store/heartbeats.go:16-45 | the batch is added under ids never used before, one row each, and nothing else changes |
| Janitor.Store.PendingRollups | internal/store/rollups.go:41-79 | returns distinct finished device-days that have rows and no rollup, at most the limit, and never a later day while an earlier one is left out |
| Janitor.Store.WriteRollup | internal/store/rollups.go:161-182 | afterwards that day has this summary and every other day the one it had; under a cancelled context nothing changes |
| History.WrittenIsNotPending | internal/store/rollups.go:41-79 | a written summary takes its day, and no other, off the candidates for every later pass |
| Janitor.Store.PruneHeartbeats | internal/store/rollups.go:191-224 | the chunked loop terminates; it only deletes rows older than the cutoff, counts them, and leaves one of them behind only if the context was cancelled |
| Janitor.Store.PruneRollups | internal/store/rollups.go:226-234 | a summary stays, unchanged, if and only if its day is not before the boundary; the count is of those that went |
| Janitor.Store.PruneResolvedIncidents | internal/store/rollups.go:236-249 | an incident stays if and only if it is open or ended at or after the boundary; every device's open incidents and the downtime of every later day are what they were |
| Janitor.Store.DeviceDays | internal/store/uptime.go:171-273 | lists one row per device-day of the window, 90 days unless asked for otherwise and at most 400, that has a rollup or raw rows: the rollup if there is one, else the number of raw rows between its midnights and of those that succeeded, with the loop's downtime |
| Janitor.Janitor.RollUp | internal/rollup/janitor.go:182-231 | takes a batch of pending days and summarises those of the rollup window from the rows they had, all of them unless the context is cancelled between two; reports how many it wrote |
| Janitor.Janitor.Once | internal/rollup/janitor.go:97-174 | a finished pass leaves the tables summarised, then pruned; one cut short leaves some days summarised, or all and some old rows deleted, or also old summaries dropped, in this order and nothing else |
| History.PassRowByRow | internal/rollup/janitor.go:109-174 | after a finished pass: a raw row is there if it is not before the raw boundary, an incident if it is open or ended at or after the rollup boundary, a summary if its day is not before it; a summary that was there is as it was, and one of a picked day holds the counts and the downtime from before the pass |
| History.PickedAre | internal/store/rollups.go:41-79 | a pass picks device-days that are over, have rows and no summary: all of them, or 500 of which none is later than one left out |
| History.PassPreservesViewIffBatchFits | internal/rollup/janitor.go:117-133 | a pass leaves the checks and downtime reported for every day of the rollup window unchanged if and only if the pending days about to lose their raw rows fit in one batch or none lies in the window |
| History.EveryCheckIsReported | internal/store/uptime.go:171-273 | over every run of inserts, incident changes and passes, finished or cut short, in which each batch fits, every device-day of the window is reported with exactly the checks ever recorded for it |
| History.CutKeepsFaithfulAt | internal/store/rollups.go:197-201 | a shutdown anywhere in a pass loses no check of a day of the window |
| History.OversizedBacklogLosesHistory | internal/rollup/janitor.go:120-122 | of 501 devices last seen sixteen days ago exactly one, whichever batch the pass picks, is shown with its check before the pass and with nothing after it |
| History.SummariesAreNeverRevised | internal/store/rollups.go:161-182 | a day with a summary is never picked again; a pass keeps that summary as it is or prunes it |
| History.PendingAfterPass | internal/rollup/janitor.go:176-231 | with raw rows kept no longer than rollups, what stays pending is what was neither picked nor old enough to be deleted |
| History.PassShrinksBacklog | internal/rollup/janitor.go:182-201 | each pass at a fixed clock removes at least min(500, n) of n pending device-days |
| History.CatchUpTerminates | internal/rollup/janitor.go:182-201 | n pending device-days are gone after n/500 passes, rounded up |
| History.BacklogStallsWhenRawOutlivesRollups | internal/rollup/janitor.go:197-201 | raw rows kept longer than rollups: a full batch of days outside the rollup window is skipped, stays pending and blocks everything behind it |
| State.Snapshot.Apply | internal/state/state.go:73-147 | the in-place update of the snapshot and its transition are those of the state machine, for any thresholds and flags |
| State.CountersFollowRuns | internal/state/state.go:80-124 | the two counters are the lengths of the trailing runs, and the streak start is the time of that run's first failure |
| State.MachineRefinesRuns | internal/state/state.go:73-147 | the device is DOWN if and only if a run of FailureThreshold failures occurred with no later run of RecoveryThreshold successes, and UNKNOWN exactly while every check failed and there were too few |
| State.CancelledCountForNothing | internal/state/state.go:73-79 | a history and the same history without its cancelled probes leave the same snapshot |
| State.IncidentStartsAtFirstFailure | internal/state/state.go:117-135 | the probe that completes the tripping run, and no other, opens an incident, and it starts at the first failure of that run |
| Evaluator.Store.OpenIncident | internal/store/incidents.go:35-51 | appends one open row under an id above that of every row there is |
| Evaluator.Store.CloseIncident | internal/store/incidents.go:53-61 | row by row: that incident is over with its length on record if it was open, keeps its end if it was not, and every other row is what it was |
| Incidents.ClosedStaysClosed | internal/store/incidents.go:53-61 | closing an incident a second time, at any time, changes nothing |
| Lifecycle.CloseSurvivesRestart | internal/store/devices.go:268-311 | a restart after a device's open incident was closed finds none |
| Evaluator.Store.MarkIncidentAlerted | internal/store/incidents.go:63-68 | row by row: that incident is marked with the time, and every other row is what it was |
| Lifecycle.MarkSurvivesRestart | internal/store/devices.go:268-311 | a restart after it knows the open incident as announced at that time, and otherwise as before |
| Evaluator.Store.SaveState | internal/store/devices.go:313-330 | writes the counters, status and streak start of an existing device and of no other |
| Evaluator.Store.LoadSnapshots | internal/store/devices.go:268-311 | rebuilds a snapshot of its own for every device from its row and its newest open incident |
| Evaluator.App.Refresh | internal/core/core.go:360-392 | the settings map becomes the given list, every known snapshot survives even for a device that left it, and last-check times of such devices go |
| Evaluator.App.Dispatch | internal/core/evaluator.go:122-192 | at most one mail per transition, the one `Mailings.MailIff` describes, and only a DOWN mail marks the incident |
| Evaluator.App.Evaluate | internal/core/evaluator.go:44-119 | one probe changes the snapshot, the device row and the incident table exactly as the step on values does, and no other device's; an uncancelled probe of a known device is handed to the writer once and told to the dashboards, with the status and incident it changed, and any other is not |
| Lifecycle.RunKeepsConsistent | internal/core/evaluator.go:44-119 | over every run a device's snapshot, its row and its open incident agree: at most one open incident, open exactly while DOWN, with its id in memory |
| Lifecycle.OpenRowsAfterClosing | internal/store/incidents.go:53-61 | closing the incident in memory leaves that device none open and the others theirs |
| Restarts.RestartsAreTransparent | internal/store/devices.go:268-311 | over every run, taking all restarts out leaves both tables and every transition, DOWN mail and RECOVERY mail as they were |
| Restarts.RestartsAreInvisibleWithoutReminders | internal/store/devices.go:268-311 | with reminders off every single decision is the same with and without the restarts |
| Restarts.RestartShiftsOnlyReminders | internal/core/evaluator.go:183-191 | a restart before a probe changes its decision if and only if the alert time in memory and the one in the table disagree on whether a reminder is due |
| Restarts.RestartRepeatsReminder | internal/core/evaluator.go:183-191 | a reminder sent 200 seconds ago is sent again after a restart although the interval is 600 |
| Outages.OutagesNeverOverlap | internal/state/state.go:80-135 | over every run with each device's probe times in order, it has one open incident exactly while DOWN, its incidents never overlap, and a day's downtime is its seconds down that day |
| Outages.DayIsFinalIffSettled | internal/rollup/janitor.go:215-221 | after a day is over its downtime can no longer change, whatever later probes, restarts and retention do, if and only if the device is DOWN or has no failing streak begun before the day's end |
| Outages.UnsettledCanChange | internal/state/state.go:117-129 | an open streak begun inside the day can still become an incident that reaches back into it |
| Announcements.EachOutageIsAnnouncedOnce | internal/core/evaluator.go:122-192 | over every run each incident gets at most one DOWN decision, on opening, only for a device that answered before, and at most one RECOVERY decision, only if DOWN was decided for it |
| Announcements.RemindersAreSpaced | internal/state/state.go:137-145 | within one process with a constant interval, whatever incidents it found open when it started, all alerts of one incident are at least that interval apart |
| Mailings.MailIff | internal/core/evaluator.go:122-192 | for a device with recipients one probe sends a DOWN mail for incident i if and only if i opened there with a DOWN decision, a RECOVERY mail if and only if i closed there with a RECOVERY decision, a reminder if and only if i stands there with a reminder decision, and no mail otherwise; without recipients none |
| Mailings.DecidedIff | internal/state/state.go:80-135 | over every run, restarts included: DOWN is decided if and only if an incident opens, notifying is on and the device answered before; RECOVERY if and only if one closes, notifying is on and DOWN was decided for it |
| Mailings.MailsOverRuns | internal/core/evaluator.go:122-192 | hence over every run a DOWN mail for i leaves if and only if i opens, somebody is to be told and the device answered before, and a RECOVERY mail if and only if i closes, somebody is to be told and DOWN was decided for i |
| Mailings.RemindedIff | internal/state/state.go:137-145 | within one process a reminder is decided if and only if a probe fails while the device is DOWN and announced, notifying and reminders are on, and every alert of that incident is at least the interval old |
| Mailings.OpenedRowIs | internal/core/evaluator.go:44-119 | the row of an incident that opens has an unused id, starts at the first failure of the streak, was detected by this probe with its error as the cause, and is marked as alerted exactly when DOWN was decided |
| Mailings.ClosedRowIs | internal/core/evaluator.go:44-119 | the row of an incident that closes ends at this probe with its length, says whether the recovery is announced, and is otherwise what it was; the downtime reported is counted from its start |
| Mailings.OthersAreUntouched | internal/core/evaluator.go:44-119 | a probe leaves the live state, the row and the incidents of every other device, and every resolved incident, as they were |
| Mailings.HeartbeatIs | internal/core/evaluator.go:60-80 | an uncancelled probe is recorded once, up if and only if it succeeded, with its time and latency; a cancelled one is not recorded |
| Mailings.NoticesAre | internal/core/evaluator.go:60-119 | dashboards are told of every heartbeat, and right after it of a status if and only if it changed, from the old one to the new one |
| Mailings.IncidentNoticeIs | internal/core/evaluator.go:60-119 | and last of the incident that opened, with its start, or closed, with its end and length |
| Digest.DigestRecipients | internal/core/digest.go:270-289 | the recipients are exactly those of the replaced mails, none twice |
| Digest.EachAlertOnce | internal/core/digest.go:75-82 | every alert queued is counted exactly once: in one mail sent, or waiting in the batch of its own group and direction |
| Digest.WaitIsBounded | internal/core/digest.go:92-104 | a batch is due if and only if some alert in it has waited 120 seconds or all of them have waited the window |
| Collapser.AlertBuffer.QueueAlert | internal/core/digest.go:106-115 | with a window the alert is parked behind its batch and nothing is sent; without one it is sent at once and nothing is parked |
| Collapser.AlertBuffer.SendBatch | internal/core/digest.go:143-156 | three or more alerts of a real group leave as one digest that names exactly them, fewer or ungrouped ones as a mail each, in order and none lost |
| Collapser.AlertBuffer.FlushAlerts | internal/core/digest.go:117-157 | with ten or more DOWN alerts waiting, the global flush; otherwise a batch stays if and only if the flush is not forced, some alert in it is younger than the window, none is 120 seconds old and somebody of its group is missing; every other batch leaves, three or more of a real group as one digest and any other as a mail each, and nothing else is sent; conservation in any map order |
| Collapser.AlertBuffer.FlushGlobal | internal/core/digest.go:169-218 | the first mail is the only global one and its members are, key by key, exactly the DOWN alerts that waited; then each group with three or more recoveries gives one digest and every other recovery a mail of its own; the buffer is empty |
| Digest.GlobalMailNamesEachOutage | internal/core/digest.go:180-196 | each DOWN alert is a member of the global mail as often as it waited, and nothing else is |
| Digest.DownCountFollows | internal/core/digest.go:159-167 | the count the global flush is decided by: none at first, one more for each DOWN alert parked, none for a recovery, and a batch fewer when one leaves |
| Collapser.AlertBuffer.Release | internal/core/digest.go:140-156 | one batch leaves the buffer, as one digest or as a mail each, and no other batch changes |
| HourlyCap.Limiter.Send | internal/core/evaluator.go:194-216 | a mail without recipients is no mail; any other is queued, withheld, or withheld with a notice |
| HourlyCap.Limiter.AllowMail | internal/core/evaluator.go:218-260 | lets a mail go if and only if there is no cap or fewer than `cap` outbox rows were created in the last 3600 seconds; otherwise queues a notice, at most once an hour |
| HourlyCap.AtMostCapAndNotice | internal/core/evaluator.go:218-260 | with a constant cap M no half-open hour sees more than M + 1 mails queued by one process, whatever the outbox held before |
| HourlyCap.EveryRefusalIsExplained | internal/core/evaluator.go:238-259 | whenever a mail is refused, a notice was queued at that moment or less than an hour before |
| HourlyCap.CapAndNoticeIsReached | internal/core/evaluator.go:238-259 | M + 1 is reached |
| HourlyCap.QueuedIff | internal/core/evaluator.go:218-240 | over every run an addressed mail is queued if and only if the cap is not positive or fewer than cap positions of the outbox hold a row created in the 3600 seconds before |
| HourlyCap.NoticedIff | internal/core/evaluator.go:241-260 | a refused mail puts a notice in the outbox if and only if this process put none there in the 3600 seconds before |
| HourlyCap.WithinCapNothingIsWithheld | internal/core/evaluator.go:218-240 | if no mail, with those offered before it and what the outbox held, exceeds the cap in its hour, nothing is withheld |
| Outbox.Queue.Enqueue | internal/store/outbox.go:12-28 | adds one row under an id no row has, due at once: an admissible step of the runs below |
| Outbox.Queue.DueAlerts | internal/store/outbox.go:30-64 | the unsent rows due by now, soonest first, all of them or the first `limit`, however often they have failed |
| Outbox.Queue.MarkFailed | internal/store/outbox.go:74-109 | counts the attempt, moves the due time by the schedule while it lasts, and says when it is used up |
| Outbox.Queue.Drain | internal/notify/worker.go:52-118 | the rows tried are the first of a due batch of at most twenty, in order and once each, as many as there are or as shutdown allows, and none while the mail settings are unusable; each is marked by its outcome, and the result counts the deliveries |
| Outbox.AttemptsArePaced | internal/store/outbox.go:74-109 | over every run, after k failures no attempt comes before the first failure plus the first k delays; from the ninth attempt on that is 1041 minutes |
| Outbox.NextAttemptWaits | internal/store/outbox.go:92-109 | failure k + 1 makes the row due exactly from `backoff[k]` later |
| Outbox.WholeSchedule | internal/store/outbox.go:74-90 | the eight delays add up to 60, 360, 1260, 4860, 19260, 33660, 48060 and 62460 seconds |
| Outbox.ExhaustedStaysDue | internal/store/outbox.go:96-103 | a failed row is due again at that very moment if and only if its schedule is used up |
| Outbox.SureToBeTriedIff | internal/notify/worker.go:52-70 | a due row is in every batch the next drain may read if and only if fewer than twenty other due rows are due no later |
| Outbox.ExhaustedRowsStarveOthers | internal/store/outbox.go:92-109 | a run reaches twenty or more exhausted rows, and from then on a newer mail is due and in no batch |
| MailTable.CapCountsTheTable | internal/store/settings.go:261-271 | over every run the hourly cap's count equals the number of rows of the queue created since, however often they were tried or sent |
| Outbox.NeverSentTwice | internal/store/outbox.go:66-72 | over every run a row that was delivered is never handed to the sender again |
| EventStream.BoundaryIsStable | ui/src/api/events.ts:95-101 | once a complete blank line is in the buffer, more text does not move the cut |
| EventStream.FramesOfMore | ui/src/api/events.ts:88-101 | cutting frames early and holding the rest over gives the frames of the whole text |
| EventStream.Parser.Feed | ui/src/api/events.ts:82-102 | each chunk yields exactly the events it completes: events of everything so far = events before + these |
| EventStream.Parser.ReadFrame | ui/src/api/events.ts:108-127 | the field loop reads a frame as its lines say: comments skipped, the last event and data line win, malformed JSON gives nothing |
| EventStream.ParseChunks | ui/src/api/events.ts:75-106 | the events do not depend on how the text is split into chunks |
| EventStream.Writer.WriteEvent | internal/api/events.go:83-92 | appends one frame to what was written, whose text is the print of all items so far |
| EventStream.WrittenEventsAreRead | internal/api/events.go:59-92 | for any sequence of events and comments the service writes, the parser yields exactly those events whose payload is JSON, in order, and holds nothing back |
| EventStream.LastDataLineWins | ui/src/api/events.ts:112-117 | of two data lines in a frame only the second counts |
| LineEndings.LastFieldsCount | ui/src/api/events.ts:108-117 | of any lines, the last that begins with `event:` is the type and the last that begins with `data:` the payload, trimmed; everything else counts for nothing |
| LineEndings.FrameIsEventIff | ui/src/api/events.ts:118-127 | a frame is an event if and only if it has both and the payload is JSON |
| LineEndings.LineEndingsDoNotMatter | ui/src/api/events.ts:92-112 | whichever of the line ends carry a carriage return as well, exactly the same events are read and nothing is held back |
| Hub.Hub.Subscribe | internal/api/hub.go:62-95 | registers a new empty channel for the given types, all types when none is given |
| Hub.Hub.Publish | internal/api/hub.go:97-119 | every registered subscriber of that type gets the event if its buffer has room, and the counter grows by those that have none |
| Hub.PublishReaches | internal/api/hub.go:97-119 | a channel gains the event if and only if it is registered, asked for its type and holds fewer than 256; the counter grows by the number of registered subscribers of that type that hold more; nothing else changes |
| Hub.RegisteredIff | internal/api/hub.go:62-95 | over every run a channel is registered if and only if the subscription that made it has not been detached since |
| Hub.TypesAre | internal/api/hub.go:64-76 | over every run a channel carries exactly the types its subscription named, or every type if it named none |
| Hub.DroppedCountsTheMissing | internal/api/hub.go:97-139 | over every interleaving with the two-step unsubscribe: registered channels are open, buffers hold at most 256, each subscriber's stream is an in-order subsequence of what it was offered, and all the missing events add up to the counter |
| Scheduler.PausedByEither | internal/model/effective.go:78-87 | the resolved device is paused if and only if its own pause or its group's ends after now |
| Scheduler.NearestTierWins | internal/model/effective.go:46-76 | each of the four numbers comes from the device if it sets it, else from its group, else from the defaults, the recipients from the group if it has any, else from the defaults, and the address and group from the device; mail is off if either the device or its group turns it off |
| Scheduler.WantedFromTables | internal/store/devices.go:247-266 | the effective set has exactly the enabled devices, each resolved against its own group |
| Scheduler.Scheduler.Settle | internal/scheduler/scheduler.go:75-94 | one worker is stopped if gone or paused, given a new loop if and only if its address, interval or timeout changed, and otherwise keeps its loop and adopts the new settings; no other worker changes |
| Scheduler.Scheduler.Apply | internal/scheduler/scheduler.go:61-111 | afterwards exactly the wanted, unpaused devices run, with the given settings; unchanged ones keep their loop and changed ones get a new one; the three counts are the sizes of the three sets; after `Stop` nothing happens |
| Scheduler.Scheduler.Stop | internal/scheduler/scheduler.go:204-214 | every loop ever started is cancelled and no worker is left |
| Scheduler.OneLoopPerDevice | internal/scheduler/scheduler.go:119-129 | of all loops ever started a device has at most one uncancelled, with its worker's address, interval and timeout |
| Scheduler.SizeChanges | internal/scheduler/scheduler.go:96-110 | the number of workers changes by started minus stopped |
| Scheduler.RepeatedApplyIsIdle | internal/scheduler/scheduler.go:61-111 | applying the same set again at the same moment finds nothing to start, stop or restart |
| Scheduler.RunningIsEnabledAndUnpaused | internal/core/core.go:360-392 | after a refresh the devices that should run are exactly the enabled ones whose own and group pauses have both passed |
| Recorder.NothingIsLostWhileRunning | internal/core/core.go:404-448 | until shutdown every heartbeat the channel had room for is in the table, the batch or the channel, once and in order |
| Recorder.EachEventMoves | internal/core/core.go:404-448 | until then a heartbeat is dropped only when 1024 wait, the writer takes the oldest and inserts as soon as a full batch is in hand, and a tick inserts whatever is; fewer than a full batch are ever in hand |
| Recorder.ShutdownKeeps | internal/core/core.go:279-336 | for any order of events between the cancel and the writer's leaving: the table gains the oldest 500 of what the channel holds at the drain, and what is lost is the writer's batch, what it took after the cancel, and the channel beyond 500 |
| Recorder.ShutdownLosesNothingIff | internal/core/core.go:404-438 | one such shutdown loses nothing if and only if the batch was empty, the writer took nothing after the cancel, and the channel held at most 500 at the drain |
| Recorder.EveryShutdownKeepsAllIff | internal/core/core.go:423-436 | whatever the writer's select picks, nothing is lost if and only if batch and channel were empty at the cancel, nothing was offered before the writer left, and at most 500 after |
| Recorder.Recorder.FlushRemaining | internal/core/core.go:315-336 | the drain loop terminates and moves the first 500 waiting heartbeats, or all, in order |
| Semver.ParseVersion | internal/update/semver.go:31-61 | the loop over the three parts accepts and rejects exactly what the grammar does |
| Semver.ParsedIsCanonical | internal/update/semver.go:31-61 | whatever is read has three numbers that fit in 64 bits and a tag that does not end in white space |
| Semver.ParsesIff | internal/update/semver.go:31-61 | a text is read as a version if and only if, without outer white space and one leading v, it is three numbers below 2^63 with dots between them and, behind a hyphen, the tag if there is one |
| Semver.PrintedIsReadBack | internal/update/semver.go:63-70 | every such version is read back from its printed form |
| Semver.CompareIsAntisymmetric | internal/update/semver.go:72-97 | swapping the two flips the sign, and only equal versions compare as 0 |
| Semver.CompareIsTransitive | internal/update/semver.go:72-97 | with the above, a total order |
| Semver.PrereleaseLeadsToItsRelease | internal/update/semver.go:83-96 | a prerelease sorts below its release and above every older release |
| Semver.OlderIff | internal/update/semver.go:72-97 | a smaller major is older whatever the rest; with equal majors a smaller minor, with equal minors a smaller patch; with equal numbers no tag is newest and two tags go by the text order |
| Semver.TextIsByFirstDifference | internal/update/semver.go:96-96 | text order is decided at the first character that differs, a proper prefix being first |
| Semver.NewerIsByMajorFirst | internal/update/semver.go:99-115 | so a candidate is newer if and only if its major is larger, or with equal majors its minor, and so on down to the tag |
| Semver.NewerIsAStrictOrder | internal/update/semver.go:99-115 | "newer" never holds both ways, is transitive, and decides between any two readable versions that differ |
| Updater.Checker.Reconcile | internal/update/checker.go:209-284 | the startup step leaves settings, directory and status as the state machine says |
| Updater.Checker.Once | internal/update/checker.go:295-392 | so does a check, for every answer of the server and every outcome of the download |
| Updater.Checker.Stage | internal/update/checker.go:418-475 | so does staging; it reports success exactly when the checked installer is on record and alone in the directory |
| Updater.Checker.Fetch | internal/update/checker.go:394-416 | so does a requested download, which fails when no newer release is known |
| Updater.Checker.Install | internal/update/checker.go:483-546 | a file is handed to the installer if and only if it is on record and hashes to the recorded sum, and it is that file |
| Updater.Checker.DiscardStaged | internal/update/checker.go:553-569 | removes every file and the record, and withdraws READY |
| Updater.Checker.Sweep | internal/update/checker.go:580-596 | removes every file but one |
| Update.NamesAreDistinct | internal/update/github.go:44-49 | two versions never share an installer name, and a partial download never has one |
| Update.ReadyIsNewerAndMatches | internal/update/checker.go:209-475 | over every run, with crashes at any point and version changes, READY implies a recorded version strictly newer than the running one whose staged file hashes to the recorded sum |
| Update.RecordWasPublished | internal/update/checker.go:441-470 | whatever is on record was listed, for that version, by the checksum file of some attempt in the run |
| Update.InstallRunsOnlyWhatWasPublished | internal/update/checker.go:483-519 | a file accepted by `Install` is for a newer version and hashes to a sum published for it |
| Update.ReadySurvivesRestart | internal/update/checker.go:209-284 | an update that is ready or installing is ready again after a restart that did not apply it, with a note exactly when an install had been started |
| Update.AppliedUpdateLeavesNothing | internal/update/checker.go:244-250 | once the running version has caught up, no file and no record is left |
| Update.CheckStagesIff | internal/update/checker.go:320-389 | with nothing wrong with the release, an automatic check ends with it ready if and only if it was ready or the server's tag differs from the recorded one |
| Update.NothingIsFetchedWhileUnmodified | internal/update/checker.go:322-332 | after a restart, no number of checks and requested downloads answered 304 changes what is staged |
| Update.GoneInstallerStaysGone | internal/update/checker.go:260-266 | an installer missing at startup is forgotten and not fetched again under 304 |
| UpdateSteps.CheckIsSkipped | internal/update/checker.go:303-311 | with checking off, in a development run, or for a version that cannot be read, a check changes nothing |
| UpdateSteps.CheckWithoutNews | internal/update/checker.go:320-352 | an answer without a release moves only the time and the tag, which a 304 keeps and a draft, a prerelease or a 404 clears; a failed check moves only the time and the error |
| UpdateSteps.CheckWithdraws | internal/update/checker.go:354-379 | a release that is not newer is noted, and whatever was staged goes with its files |
| UpdateSteps.CheckOffers | internal/update/checker.go:381-392 | a newer release already ready stays so; otherwise it is offered, and only with automatic downloads fetched: then it ends ready and alone, or, if anything is wrong, with everything staged before untouched |
| UpdateSteps.RequestedDownload | internal/update/checker.go:398-416 | a requested download ends with the newest known release ready if it is newer and all is well with it, and otherwise with what was staged before |
| UpdateSteps.StartIs | internal/update/checker.go:209-293 | a new process is READY if and only if a newer version is on record and its file hashes to the sum on record, and offers if and only if nothing is on record and the latest version seen is newer; what is on record and not ready goes with every file |
| UpdateSteps.InstallIs | internal/update/checker.go:483-546 | the installer starts if and only if updating is supported, a version is on record and its file hashes to the sum on record, and then the time is noted; a file that is gone or altered is dropped with the record |
| UpdateSteps.ReadyIsAccepted | internal/update/checker.go:483-519 | over every run a supported copy that reports READY is not refused, for a hash that is never empty |
| Series.HeartbeatSeries | internal/store/heartbeats.go:136-175 | clamps the points, derives the width, and appends one sample per bucket that has rows |
| Series.SeriesConserves | internal/store/heartbeats.go:136-175 | the buckets' checks and failures add up to the rows and the failed rows of the window |
| Series.SeriesKeepsThePeak | internal/store/heartbeats.go:111-121 | the largest latency over the buckets is that over the rows |
| Series.EachSampleDescribesItsBucket | internal/store/heartbeats.go:150-162 | each sample has the earliest time, the largest latency, the number of checks and of failures of the rows in its bucket, and every row of the window falls in the bucket of a sample |
| Series.SeriesIsShortAndInOrder | internal/store/heartbeats.go:123-145 | at most twice the points asked for, in disjoint, increasing stretches of time inside the window |
| Series.AtMostMaxPointsIff | internal/store/heartbeats.go:123-145 | every table gives at most maxPoints buckets if and only if the window is shorter than maxPoints seconds |
| Series.TwiceThePointsIsReached | internal/store/heartbeats.go:138-145 | a window of 2m - 1 seconds with a check every second has 2m buckets |

## Left out

- SQL text, transactions that fail, pragmas, migrations and the agreement of the database's day with the program's.
- Latency averages, the 95th percentile, uptime percentages and the per-group view: floating point over the same totals.
- Vacuuming and checkpoints, which touch no row, and the pruning of delivered mail, which removes outbox rows at least a day old: older than anything the hourly cap counts, and never tried again.
- Deleting a device, which removes its rows from every table, and editing devices, groups and settings.
- Splitting recipient text, resolving `Source` labels and validating settings: one-branch facts.
- Janitor.Janitor.Once: a statement fails only because the context is cancelled; other errors of single statements are not modelled.
- Evaluator.App.Evaluate: the group tally published after a transition, names and latencies in the published events, and log lines are left out; one clock reading serves the whole step.
- Lifecycle.RunKeepsConsistent: a store write that fails, after which memory and tables may differ, is not modelled.
- Collapser.AlertBuffer.FlushAlerts: mail texts, group names and the fallback of an unreadable policy are left out; the window is a parameter of each call.
- HourlyCap.AtMostCapAndNotice: for a cap that stays the same; `send` reads the clock once.
- Outbox.Queue.Drain: the SMTP session and the stored error text are left out; a shutdown in the middle of a failing send, which leaves that row as it was, is not modelled.
- EventStream.WrittenEventsAreRead: payloads without line breaks or outer white space, which is what the service's JSON encoder writes; text decoding of bytes is left out.
- Hub.Hub.Publish: subscribers are visited in order of registration; they are independent, so the order changes nothing.
- Scheduler.Scheduler.Apply: one reading of the clock for the whole call; the code reads it once per worker.
- Scheduler loops: jitter, tickers and the limit on concurrent probes.
- Recorder.ShutdownKeeps: for a shutdown that is not cut short by its own timeout and whose last insert succeeds.
- Update.ReadyIsNewerAndMatches: nobody else edits the staging directory while the service runs, and removing a file succeeds; what a file contains between the last hash check of `Install` and its start is not modelled.
- Updater.Checker.Stage: error texts are shortened, and the recorded error, check time, notes address and publication date, which the checker never acts on, are left out.
- HTTP handlers, authentication, mail templates, password sealing, the user interface, the service wrapper and the command line.
