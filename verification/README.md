# EasyZFS: verified model of its engines

EasyZFS is a Go daemon with a browser front end that manages ZFS pools. This project models the parts of it that
decide something: incremental replication, long operations, job scheduling and its three schedule languages, the two
snapshot pruners, the login limiter, push notifications with quiet hours, the alert table, the event broker, the
history ring buffer, the CRC bookkeeping of disks, the grouping of Veeam backups and the recommendation engine that
exists once in Go and once in TypeScript. Dafny proves what each of them keeps over whole runs.

`dafny verify dfyconfig.toml` checks the project.

## How it is built

One module stands for one source file or component. What the source changes in place is a class or an array here,
with methods that carry the source's branches; each method is proved equal to a step of a specification on values,
and the theorems about runs are lemmas about that specification. Commands, clocks, random numbers, push services
and the walk over a file system are parameters that answer as they like; tables are sequences and maps.

| file | models |
|---|---|
| Replication.dfy, Pruning.dfy | the replication runner, its bookmark and retry protocol, and both pruners |
| LongOps.dfy | the operation manager at the granularity of its critical sections |
| Schedule.dfy, Calendar.dfy | the schedule language, the next instant, the Gregorian calendar |
| Scheduler.dfy, StaleStamp.dfy | the periodic check beside runs on demand and edits, and the run in which an instant runs twice |
| Presets.dfy, Modals.dfy, SysSched.dfy | the editors' presets and the texts they print and parse |
| TimerSyntax.dfy, BackEnds.dfy | what cron and systemd make of those texts, and the agreement of all three |
| LoginLimiter.dfy | the sliding window and the lockout |
| Push.dfy, Sending.dfy | who gets a notification when, the deferred queue, the bounded retry |
| Alerts.dfy, Hub.dfy | alert deduplication, the event broker |
| History.dfy, Smart.dfy, Veeam.dfy, Recs.dfy | history ring, disk counters, backup chains, recommendations |
| Text.dfy, Order.dfy, Lists.dfy | string functions of Go and JavaScript, string order and sorting, lists |

Time is local wall-clock time in nanoseconds (seconds in Push.dfy) with a fixed whole-minute UTC offset. Cron has the
meaning given by the `crontab` utility of POSIX (IEEE Std 1003.1), section INPUT FILES, with 7 also meaning Sunday;
OnCalendar that of systemd.time(7), section CALENDAR EVENTS; both for fields that are a wildcard or one number, and
for the nicknames the editor accepts.

## Assumptions

- Replication: one job for each source, executions of a job do not overlap, a pipeline that ends done has committed
  its receive, and zfs refuses what cannot be done (the list heads Replication.dfy). Nobody else touches a job's
  bookmark or destination, so that an interrupted receive stays until a destroy. A snapshot or bookmark command that
  reports failure has had no effect; a destroy of the destination that does may have had any. The context of an
  execution is never canceled (runner.go:81 and :130 pass the background context), so waitOp never cancels.
- Scheduler: one check at a time, as the ticker gives; runs on demand and edits interleave with its steps. Each read or
  write of the table is one step; writes succeed. Job ids are distinct.
- Scheduler, limiter: the clock does not run backwards. The limiter's table holds at most 1024 keys.
- Alerts, push: calls do not overlap and database writes succeed. Where a lemma says so, the hours of a window lie in
  0..23, which the settings handler checks (internal/httpapi/push_handlers.go:181), and subscriptions have distinct ids.
- CRC bookkeeping: the disks of a pass have distinct keys where a lemma says so; counters do not overflow int64.
  `Smart.UnreadablePassInflates` is about a disk with one key on both passes, as when lsblk and smartctl report the same
  serial number (smart.go:203 keys on it, :292 takes smartctl's).

## Where the code does less than it seems to

Each of these is a lemma that says exactly when the expectation holds.

- After a destroy or a full retry has failed and the destination is lost, replication never recovers by itself
  (`Replication.FailedRetryWedges`, `Replication.WedgedForever`).
- The pipeline receives with `recv -s`: a canceled or broken send can leave an interrupted receive behind, which only
  force_full gets rid of, and not after a first send (`Replication.PartialWedges`, `Replication.CancelWedges`).
- Broken backup chains are raised at the level "critical" (internal/collectors/veeam.go:76), but only "crit" breaks
  through quiet hours and disabled types (`Push.CriticalWaits`).
- A run on demand takes its time stamp before it stores it. Stored after a check has run the job, an older stamp sets
  last_run back, and the same instant runs again (`StaleStamp.SixRunsTwice`). Unless a check under way still runs the
  job it does so exactly when the stamp is older than the latest trigger (`Scheduling.StaleStampTriggersAgain`); without
  such stamps never (`Scheduling.NoInstantRunsTwice`).
- Editing an OnCalendar expression with seconds other than 00 moves its instants (`BackEnds.OnCalendarRebuild`). The
  editors accept expressions that cron and systemd refuse: weekdays above 7, seconds above 59, white space other than
  blanks (`BackEnds.CronAccepted`, `BackEnds.CronAcceptsInvalid`, `BackEnds.OnCalendarAccepted`,
  `BackEnds.SecondsAreDropped`).
- Retention spans above 106751 days overflow (`Schedules.RetentionExact`, `Schedules.LongRetentionIsNegative`), as does
  a Retry-After above 292 years (`Sending.RetryAfterHonoured`, `Sending.LongRetryAfterIgnored`); gaps between backups
  saturate there (`Veeam.GapIsTrue`, `Veeam.LongGapSaturates`).
- A kindless alert raised again keeps its old level, and one whose message is active under a kind is not raised at
  all (`Alerts.KindlessLevel`, `Alerts.ActiveKeepsActivator`, `Alerts.RaisedKeyIsActive`). The comment on RaiseKind
  speaks of deduplication by source and message; the query behind it does not look at the kind.
- A pass in which a disk's SMART data cannot be read makes the next one report the whole lifetime CRC counter as new
  (`Smart.TotalGrowth`, `Smart.UnreadablePassInflates`).
- The comment on chainGap speaks of gaps of at least the threshold; the code, and `Veeam.ChainGap`, count spans above
  it.
- A live backup file that also exists in a snapshot is shown live with the size of the snapshot copy (`Veeam.Merge`,
  `Veeam.LiveKeepsSnapshotSize`).

## Model

| member | source | states |
|---|---|---|
| Replication.Runner.Execute | internal/replication/runner.go:136-159 | an execution changes the pool, the destination and the job row exactly as the step specification says, and reports that outcome |
| Replication.Runner.Run | internal/replication/runner.go:170-218 | snapshot, pipeline, then success, cancel, failure or the force_full retry, in that order |
| Replication.Runner.Retry | internal/replication/runner.go:200-217 | the single destructive retry with a full send; a destroy reported failed ends the execution on whatever it left |
| Replication.Runner.PostSuccess | internal/replication/runner.go:222-234 | the old bookmark goes, the new one is set, the prune follows; a refused bookmark fails the execution |
| Replication.Runner.WaitOp | internal/replication/runner.go:291-303 | polling returns the first final status a poll shows, and nothing exactly as long as every poll says running or finds no operation |
| Replication.AwaitedIsFinal | internal/replication/runner.go:291-303 | whatever critical sections of the operation manager interleave with the polls, the status awaited is the one the operation has in every later state |
| Replication.OutcomeIsTruthful | internal/replication/runner.go:136-234 | reported ok: the stored bookmark, the source bookmark and the newest received snapshot all name this snapshot, which survives the prune; failed: the stored bookmark is unchanged |
| Replication.SuccessPrunes | internal/replication/runner.go:222-258 | a successful execution removes a source snapshot if and only if the listing succeeded, its name starts with ezrepl-, two such names are newer, and it is not stuck |
| Replication.SuccessKeepsTwo | internal/replication/runner.go:222-258 | with nothing stuck the newest min(2, n) ezrepl- snapshots are left, later than every removed one, and every other snapshot stays |
| Replication.RunKeepsTwo | internal/replication/runner.go:222-258 | after each such success of any run the source holds at most two ezrepl- snapshots |
| Replication.FailureRemovesNothing | internal/replication/runner.go:170-218 | a failed execution removes no source snapshot; it leaves its own exactly when it was taken |
| Replication.BookmarkMoves | internal/replication/runner.go:222-230 | the bookmark changes only when an execution comes to set it; a refused one fails the execution and may have lost the old |
| Replication.DestinationIs | internal/replication/runner.go:170-218 | the destination is what the last pipeline started or the destroy left, and untouched before |
| Replication.InvalidDoesNothing | internal/replication/runner.go:170-173 | an invalid job fails without touching pool, bookmark or destination |
| Replication.DestroyIsJustified | internal/replication/runner.go:183-207 | a destroy of the destination is asked for at most once, only under force_full, only right after an incremental that failed without being canceled; received snapshots are lost in no execution that did not ask for it |
| Replication.RecoversIffNotWedged | internal/replication/runner.go:170-218 | when no command fails needlessly an execution succeeds if and only if the state is not wedged; an interrupted receive left on the destination counts against every further send |
| Replication.SuccessIsNotWedged | internal/replication/runner.go:222-234 | after a stored success the next execution is not wedged |
| Replication.FailedRetryWedges | internal/replication/runner.go:200-215 | a destination lost in a failed execution that asked for its destruction wedges the job even with force_full, also when the destroy itself was reported failed |
| Replication.PartialWedges | internal/replication/runner.go:273-288 | a destination left with an interrupted receive wedges the job if and only if force_full is off or nothing was ever replicated |
| Replication.CancelWedges | internal/replication/runner.go:183-198 | canceling an incremental halfway can take a job in perfect order there: wedged afterwards if and only if force_full is off |
| Replication.WedgedForever | internal/replication/runner.go:170-218 | from a wedged state no sequence of executions ever succeeds, whatever the environment answers |
| Replication.RowTracksLastSuccess | internal/replication/runner.go:136-159 | over every run the row names the last successful execution, and the bookmark names the same or is missing |
| Replication.DestinationIsChronological | internal/replication/runner.go:170-218 | over every run with increasing stamps the destination holds replication snapshots in time order |
| Replication.NamesAreChronological | internal/replication/runner.go:177-177 | snapshot names are ordered as their times are |
| Pruning.Source.Prune | internal/replication/runner.go:238-258 | exactly the superseded replication snapshots that can be destroyed are gone, nothing when the listing fails |
| Pruning.PruneKeepsNewestTwo | internal/replication/runner.go:238-258 | with every destroy succeeding exactly the newest min(2, n) replication snapshots stay, and every other snapshot does |
| Pruning.PruneKeepsLatest | internal/replication/runner.go:252-253 | the just-replicated snapshot, when its name is the latest, survives |
| Pruning.SupersededAre | internal/replication/runner.go:252-253 | the names before the last two of the sorted list are those with two newer ones |
| Pruning.Pool.SnapshotPrune | internal/actions/actions.go:659-695 | removes exactly the rows named easyzfs-auto-..., of datasets whose path extends the given one, not newer than the cutoff and not stuck; the number returned is that of the rows lost |
| Pruning.RetentionExactly | internal/actions/actions.go:671-690 | the same for one row, in its name, path and time |
| Pruning.InTreeIsSubtree | internal/actions/actions.go:671-685 | the string test holds exactly for the datasets whose path extends the given path |
| Pruning.RetentionSparesOthers | internal/actions/actions.go:671-690 | replication snapshots, snapshots outside the subtree and snapshots newer than the cutoff are never destroyed |
| Pruning.PrefixesApart | internal/model/model.go:212-212 | no snapshot name belongs to both pruners |
| LongOps.Manager.Start | internal/longops/longops.go:84-111 | registers a new running operation at the front, under the next number |
| LongOps.Manager.AppendLine | internal/longops/longops.go:148-155 | the window becomes the last 50 of the lines appended |
| LongOps.Manager.Finish | internal/longops/longops.go:130-143 | canceled if that was asked, else done without an error, else failed with its text; the end is the time given and the operation is no longer cancelable |
| LongOps.Manager.Find | internal/longops/longops.go:194-221 | finds a registered operation by id, and none only when no registered one has it |
| LongOps.Manager.Mark | internal/longops/longops.go:222-233 | reports success exactly when the operation was cancelable and then records the request |
| LongOps.Manager.List | internal/longops/longops.go:169-189 | returns copies of exactly the kept operations, in order, after the compaction, without their cancel functions |
| LongOps.Manager.Compact | internal/longops/longops.go:172-181 | compacting in the backing array being read leaves exactly the kept operations, in order |
| LongOps.Manager.RunningFor | internal/longops/longops.go:237-246 | true exactly when a registered operation is running on the target |
| LongOps.StepKeepsInv | internal/longops/longops.go:84-233 | every critical section keeps: registry strictly decreasing, running = cancelable = unended = watched, each window the last 50 of its output, running operations registered |
| LongOps.LeavesRunningOnce | internal/longops/longops.go:114-144 | in every interleaving an operation leaves running at most once, exactly once if seen finished, and its final status and end never change |
| LongOps.ExitDecides | internal/longops/longops.go:114-144 | over every run from nothing an exit event decides for good: canceled if a Cancel of it came before, done exactly if its error is empty, else failed with that error, ended at its time |
| LongOps.StartNames | internal/longops/longops.go:84-111 | an operation keeps the kind, target, time and number of its start |
| LongOps.ShowsLastFifty | internal/longops/longops.go:148-155 | an operation shows the last 50 of the lines it printed |
| LongOps.CancelIsHonoured | internal/longops/longops.go:209-233 | after a successful Cancel the operation is running or canceled in every later state, however the exit races with it |
| LongOps.RequestPersists | internal/longops/longops.go:222-233 | a recorded cancel request is never lost |
| LongOps.RefusedCancelHasNoEffect | internal/longops/longops.go:224-226 | a Cancel refused with ErrNotRunning changed nothing and met an ended operation |
| LongOps.CanceledWasAsked | internal/longops/longops.go:132-138 | only an operation whose cancel was requested ends canceled |
| LongOps.ListDropsExactly | internal/longops/longops.go:172-181 | listing drops an operation if and only if it ended more than an hour before; never a running one |
| Schedules.ParseSchedule | internal/scheduler/schedule.go:35-83 | every accepted schedule is in range |
| Schedules.AcceptsExactly | internal/scheduler/schedule.go:35-83 | a text is accepted as a schedule if and only if it is a kind, its argument, an @ and a time written with numbers in range, and it then means those numbers; hourly and daily ignore an argument |
| Schedules.NamesOfDays | internal/scheduler/schedule.go:28-32 | the names sun to sat are the days 0 to 6 of the calendar, in which 1 January 1970 is thu |
| Schedules.NextIsLeast | internal/scheduler/schedule.go:101-130 | the instant is later, satisfies the schedule and is the least such, for all four kinds and every instant |
| Schedules.Next | internal/scheduler/schedule.go:101-130 | the code's own search returns that least instant; the weekly loop moves at most seven days |
| Schedules.SearchWeek | internal/scheduler/schedule.go:116-121 | the day-by-day search stops within seven steps on the closed-form answer |
| Schedules.NextEnumerates | internal/scheduler/schedule.go:101-140 | iterating Next enumerates exactly the later instants of the schedule |
| Schedules.RetentionExact | internal/scheduler/schedule.go:143-161 | the duration is the written span if and only if it is at most 106751 days (int64 nanoseconds) |
| Schedules.RetentionAccepted | internal/scheduler/schedule.go:143-161 | a retention is accepted exactly when it is a positive number with one of the units d, m and y |
| Schedules.LongRetentionIsNegative | internal/scheduler/schedule.go:143-161 | 106752d, one day too long, is read as a negative duration |
| Calendar.DateReadsBack | internal/scheduler/schedule.go:122-128 | a day built from month and day of month reads back as them |
| Calendar.YearStart | internal/scheduler/schedule.go:101-130 | the calendar counts 365 days a year plus the Gregorian leap days |
| Calendar.UnixEpoch | internal/scheduler/schedule.go:101-130 | 1 January 1970 is day 719528, a Thursday |
| Scheduling.Scheduler.Check | internal/scheduler/scheduler.go:230-259 | one tick triggers exactly the due rows of the table it read, in order, whatever runs on demand and edits do meanwhile; it is a run of the listed steps, keeps the triggers in order if every stamp stored meanwhile was fresh, and leaves no job with a base due if others were calm |
| Scheduling.Scheduler.CheckRows | internal/scheduler/scheduler.go:237-258 | the loop takes every row through its own steps and logs a trigger for each due one |
| Scheduling.Scheduler.Due | internal/scheduler/scheduler.go:237-254 | the loop's test gives the due instant of the specification: disabled, invalid and not yet due rows are skipped |
| Scheduling.Scheduler.MarkRun | internal/scheduler/scheduler.go:160-165 | other rows stay; rows with the id change only last run and result, the last run less than a second before the finish and not after it, the result ok exactly without an error |
| Scheduling.WholeCheckIsRun | internal/scheduler/scheduler.go:230-300 | from the reading of the table to the end of the loop a check is exactly its own clock reading and row steps and the steps others take in its gaps, in that order |
| Scheduling.CheckedTriggers | internal/scheduler/scheduler.go:237-258 | however others interleave, after n rows a check has logged exactly the triggers of those due when read |
| Scheduling.DueIffPending | internal/scheduler/scheduler.go:237-254 | a job is due if and only if an instant of its schedule lies after its base and not after now, and it is due for the first of them |
| Scheduling.DueExactly | internal/scheduler/scheduler.go:237-254 | a job is due exactly when it is enabled, valid, has a last run or a creation time, and an instant after that and not after now |
| Scheduling.StampsAreNow | internal/scheduler/scheduler.go:288-288 | the stamp of a run is the reading of the clock after its action |
| Scheduling.StoreMarksTheRow | internal/scheduler/scheduler.go:257-295 | a check stores stamp, in whole seconds, and outcome in the row of the job it ran and in no other |
| Scheduling.StoresMarkTheRow | internal/scheduler/scheduler.go:262-295 | so does a run on demand |
| Scheduling.EditExactly | internal/scheduler/scheduler.go:116-157 | an edit changes the switch and the schedule of the job with the id and nothing else |
| Scheduling.CheckLeavesNothing | internal/scheduler/scheduler.go:230-300 | at the end of a check, beside runs on demand that set no base back and without edits, no enabled job with a base has an instant left up to the check's time: several missed instants collapse into one run |
| Scheduling.CheckLeavesNoneDue | internal/scheduler/scheduler.go:230-300 | the same of the state the method leaves: beside calm others no job with a base is due at the check's time |
| Scheduling.UndisturbedIsCalm | internal/scheduler/scheduler.go:230-300 | a check during which runs on demand at most take their stamps is calm |
| Scheduling.StepKeepsInv | internal/scheduler/scheduler.go:230-300 | each step of a check, a run on demand or an edit keeps: triggers of a job strictly increase and those of stored runs lie behind its base, unless it stores a stamp from before such a trigger |
| Scheduling.NoInstantRunsTwice | internal/scheduler/scheduler.go:230-300 | over every interleaving of the steps of checks, runs on demand and edits in which no run on demand stores a stamp from before a stored trigger of its job, the triggers of a job strictly increase |
| Scheduling.CheckKeepsOrder | internal/scheduler/scheduler.go:230-300 | the same of the state the method leaves |
| Scheduling.NotBackIsFresh | internal/scheduler/scheduler.go:160-165 | a stored stamp that does not set last_run back is never from before such a trigger |
| Scheduling.StaleStampTriggersAgain | internal/scheduler/scheduler.go:262-300 | unless a check under way still runs the job, storing a stamp of a run on demand lets the job be triggered again at or before its latest trigger if and only if the stamp, in whole seconds, is from before that trigger |
| StaleStamp.SixRunsTwice | internal/scheduler/scheduler.go:262-300 | daily@06:00: a run on demand stamped 05:59:59 and stored after the check of 06:00:05 makes the next check run the job for 06:00 again |
| BackEnds.DaemonReadsEditor | web/src/components/Modals.tsx:1106-1113 | the daemon accepts what its editor prints, with the meaning shown in the editor |
| BackEnds.EditorRoundTrip | web/src/components/Modals.tsx:1116-1127 | the editor reads back its own text, fields the frequency does not use at their defaults |
| BackEnds.EditorShowsElse | web/src/components/Modals.tsx:1116-1127 | without a minute or a time the editor shows 00 or 06:00, with an unknown weekday Sunday |
| BackEnds.CronReads | web/src/ui/syssched.ts:41-49 | the printed cron line denotes the preset's schedule |
| BackEnds.CronRoundTrip | web/src/ui/syssched.ts:72-106 | parsing the printed cron line returns the preset |
| BackEnds.CronAccepted | web/src/ui/syssched.ts:72-106 | an accepted cron line is valid if and only if it is separated by blanks and its weekday is at most 7, and then denotes what the preset read from it means |
| BackEnds.CronAcceptsExactly | web/src/ui/syssched.ts:72-106 | of the lines cron understands the editor accepts exactly those that denote one of its schedules |
| BackEnds.CronRebuild | web/src/ui/syssched.ts:41-106 | rebuilding an accepted cron line gives a valid one; the denotation is unchanged if and only if the line was valid |
| BackEnds.CronAcceptsInvalid | web/src/ui/syssched.ts:72-106 | two accepted lines that are not cron: a weekday 8, which the editor shows as Monday, and fields separated by line feeds |
| BackEnds.OnCalendarReads | web/src/ui/syssched.ts:53-62 | the printed OnCalendar expression denotes the preset's schedule |
| BackEnds.OnCalendarRoundTrip | web/src/ui/syssched.ts:109-138 | parsing the printed OnCalendar expression returns the preset |
| BackEnds.OnCalendarAccepted | web/src/ui/syssched.ts:109-138 | an accepted expression is valid if and only if it is separated by spaces and its seconds are below 60, and then denotes the preset's schedule displaced by its seconds |
| BackEnds.OnCalendarAcceptsExactly | web/src/ui/syssched.ts:109-138 | of the expressions systemd understands, written with one or two digits and two for the minute, the editor accepts exactly those that denote one of its schedules at any second |
| BackEnds.OnCalendarRebuild | web/src/ui/syssched.ts:53-138 | rebuilding any accepted expression gives a valid one with the same instants if and only if it was separated by spaces and its seconds are absent or 00 |
| BackEnds.SecondsAreDropped | web/src/ui/syssched.ts:118-135 | a daily event with any two-digit second is accepted as the preset without it, although 60 to 99 are invalid |
| BackEnds.CronForMeans | web/src/ui/syssched.ts:41-49 | the cron line of a schedule matches exactly the schedule's instants |
| BackEnds.OnCalForMeans | web/src/ui/syssched.ts:53-62 | the calendar event of a schedule matches exactly its instants, displaced by the second |
| BackEnds.BackEndsAgree | web/src/ui/syssched.ts:41-62 | for every valid preset cron, systemd and the iterated Next of the daemon run at the same instants |
| LoginLimiter.Limiter.Allow | internal/httpapi/auth_handlers.go:46-86 | one key changes as the single-key specification says, every other key not at all |
| LoginLimiter.LoginAttempt.Allow | internal/httpapi/auth_handlers.go:64-85 | the window left after filtering and the verdict are those of the specification |
| LoginLimiter.Limiter.Success | internal/httpapi/auth_handlers.go:97-108 | clears counter and block of a known key |
| LoginLimiter.Limiter.Failure | internal/httpapi/auth_handlers.go:111-125 | counts a failure; the tenth starts a block and restarts the count |
| LoginLimiter.StepKeepsInv | internal/httpapi/auth_handlers.go:46-125 | the window is sorted, at most 5 long, the end of the admitted attempts; what it dropped is at least a minute old |
| LoginLimiter.SixSpanAMinute | internal/httpapi/auth_handlers.go:46-86 | in every interleaving any six admitted attempts span at least one minute |
| LoginLimiter.AdmittedExactly | internal/httpapi/auth_handlers.go:64-85 | in every interleaving a try is admitted exactly when no block lasts and fewer than five tries were admitted in the last minute |
| LoginLimiter.BlockWaitIsExact | internal/httpapi/auth_handlers.go:69-71 | the wait told during a block is exactly the time left of it |
| LoginLimiter.WaitIsExact | internal/httpapi/auth_handlers.go:78-82 | after a window denial an unblocked retry is admitted if and only if the returned wait has passed |
| LoginLimiter.CounterTracksStreak | internal/httpapi/auth_handlers.go:97-173 | in serial logins the counter is the current failure streak modulo ten, and a block is set exactly once the streak reached ten |
| LoginLimiter.BlockDeniesAll | internal/httpapi/auth_handlers.go:66-69 | while a block lasts every login is denied and the state does not change |
| LoginLimiter.TenthFailureBlocks | internal/httpapi/auth_handlers.go:111-173 | the tenth consecutive failure denies every login of the next 15 minutes |
| Push.QuietHourClockwise | internal/push/prefs.go:163-170 | the hour test holds exactly for the hours walked clockwise from start before end is met |
| Push.SilenceEnds | internal/push/prefs.go:149-171 | silence lasts without a break until the window's end, at most a day ahead |
| Push.Sender.Notify | internal/push/push.go:137-179 | the loop with its per-user decisions changes queue, subscriptions and sends as specified; what that is the next rows say |
| Push.NotifySendsExactly | internal/push/push.go:155-178 | an alert is sent at once, in device order, exactly to the devices of users for whom it is crit, or who have its type on, are awake at their first device and do not have the application open |
| Push.WaitsExactly | internal/push/push.go:155-171 | a user gets exactly one queued row if the alert is not crit, they have a device, its type is on and they sleep at their first device, else none |
| Push.NotifySubs | internal/push/push.go:251-274 | one alert deletes exactly the subscriptions to which a send was answered 404 or 410 after only transient failures; the others stay in their order |
| Push.DrainSubs | internal/push/prefs.go:223-302 | so does one tick |
| Push.RunSubs | internal/push/push.go:251-274 | over every run between settings a subscription is deleted exactly then; none is added |
| Push.SleepsIs | internal/push/prefs.go:149-171 | a user is silent exactly at the hours of their own zone walked clockwise from the start of a complete window |
| Push.Sender.Enqueue | internal/push/prefs.go:191-200 | adds one row under the next id |
| Push.Sender.DrainUser | internal/push/prefs.go:253-302 | sends a user's rows in id order to their devices and removes exactly those rows |
| Push.Sender.DrainQueue | internal/push/prefs.go:223-250 | drains exactly the queued users who are not in their window |
| Push.Sender.ClearQueue | internal/push/prefs.go:305-310 | removes the rows of one user only |
| Push.NotifyQueues | internal/push/push.go:152-171 | an alert adds to the queue exactly the rows of the users whose fate is to wait |
| Push.QueuedOnce | internal/push/push.go:150-171 | one row for each such user however many devices, none for anybody else |
| Push.SleeperGetsOneRow | internal/push/push.go:152-171 | a subscribed user in quiet hours with the type enabled gets exactly one row, at the end |
| Push.CriticalWaits | internal/push/push.go:158-177 | an alert of level critical, which is not crit, is queued for a sleeping user or dropped with its type, never sent at once |
| Push.CritReachesEveryDevice | internal/push/push.go:152-178 | a crit alert is attempted on every subscription, in order, and queues nothing |
| Push.SilenceIsKept | internal/push/push.go:158-177 | any other alert is sent at once only to users with the type enabled and outside their window |
| Push.DeliveredPrefix | internal/push/prefs.go:289-298 | a row goes to the devices in order up to the first one met with the application open |
| Push.DrainSendsInOrder | internal/push/prefs.go:284-299 | a drain sends only rows of types still enabled, in id order |
| Push.DrainSendsExactly | internal/push/prefs.go:284-299 | the sends of a drain are exactly, row by row, those to the devices before the first with the application open, for each row of an enabled type |
| Push.TickSendsExactly | internal/push/prefs.go:223-302 | a tick sends exactly the waiting rows of the queued users who are awake, user by user, to their own devices |
| Push.DrainEffect | internal/push/prefs.go:223-302 | rows of a user in the window are untouched; all rows of any other queued user are consumed, in order |
| Push.TickWaitsForTheWindow | internal/push/prefs.go:242-249 | one tick consumes nothing of a sleeping user and everything of anybody else |
| Push.NoQueuedCrit | internal/push/push.go:159-170 | in every run no queued row is of level crit |
| Push.ConsumedOnceInOrder | internal/push/prefs.go:223-310 | in every run the rows ever queued for a user are, in id order, those consumed followed by those waiting: none lost, none twice |
| Sending.Transmit | internal/push/push.go:231-276 | at most three attempts, only transient failures retried, each wait between half and the whole doubled backoff or what the service asked, whichever is longer |
| Sending.Jitter | internal/push/push.go:280-282 | between half of the backoff and all of it |
| Sending.JitterReaches | internal/push/push.go:280-282 | every wait between half of an even backoff and all of it can come up |
| Sending.GoneExactly | internal/push/push.go:250-276 | a subscription is found dead exactly when a 404 or 410 follows only transient failures within three attempts |
| Sending.OutcomeExactly | internal/push/push.go:231-276 | given up exactly after three busy attempts; else the first other answer decides: 404 and 410 gone, other 4xx rejected, the rest delivered |
| Sending.BackoffDoubles | internal/push/push.go:231-268 | the backoff is one second, two, four |
| Sending.RetryAfterElse | internal/push/push.go:286-303 | a date to come asks for the time left to it; anything else but a positive number for nothing |
| Sending.RetryAfterHonoured | internal/push/push.go:286-303 | a numeric Retry-After is respected if and only if it is at most 9223372036 seconds (int64 nanoseconds) |
| Sending.LongRetryAfterIgnored | internal/push/push.go:286-303 | a Retry-After of 9223372037 seconds is followed by a wait of at most two |
| Veeam.BuildChains | internal/veeam/veeam.go:103-135 | the chains in order hold every full and incremental backup as often as it is listed, by stamp; only the first chain can lack its full backup, which is what broken means |
| Veeam.GroupFiles | internal/veeam/veeam.go:110-130 | the loop with its current-chain pointer places every file as specified |
| Veeam.GroupedPartitions | internal/veeam/veeam.go:110-130 | the specification partitions its input into well-formed chains |
| Veeam.GroupingIsForced | internal/veeam/veeam.go:103-135 | any two lists of well-formed chains over the same files have the same groups |
| Veeam.ChainGap | internal/veeam/veeam.go:141-162 | the gap is the largest span above two days between neighbouring dated increments, or 0 |
| Veeam.GapIsTrue | internal/veeam/veeam.go:152-160 | that span is the true number of days if and only if no two neighbours lie more than 106751 days apart |
| Veeam.LongGapSaturates | internal/veeam/veeam.go:141-162 | increments dated 1700-01-01 and 2000-01-01 lie 109572 days apart and the gap reported is 106751 |
| Veeam.DatesSortByDay | internal/veeam/veeam.go:106-108 | the text order of well-formed dates is the order of their days |
| Veeam.StampsSortByDay | internal/veeam/veeam.go:106-108 | in stamp order readable dates never go back |
| Veeam.StampsSortByTime | internal/veeam/veeam.go:106-108 | stamps are ordered by date, and on one date by the time of day |
| Veeam.BrokenChains | internal/veeam/veeam.go:281-291 | reports every broken chain with its machine and its position counted from 1, in order |
| Veeam.OnlyFirstIsBroken | internal/veeam/veeam.go:103-135 | of well-formed chains a report names exactly the first, when it lacks its full backup |
| Veeam.OneReportPerMachine | internal/veeam/veeam.go:281-291 | the reports are, in order, chain 1 of each machine whose first chain lacks its full backup, one for each; no other machine is reported |
| Veeam.LastBackup | internal/veeam/veeam.go:263-278 | the greatest date and time among dated files, empty when there is none; with it its time, or when that cannot be read 0 or the time of another dated file |
| Veeam.Merge | internal/veeam/veeam.go:174-206 | a file is shown live if and only if it was met live, as last met, else as the first snapshot copy; its size stays that of the first copy met |
| Veeam.LiveKeepsSnapshotSize | internal/veeam/veeam.go:174-206 | a live file of size 2 with a snapshot copy of size 1 is shown live with size 1 |
| Veeam.GroupByMachine | internal/veeam/veeam.go:217-232 | files are grouped by machine with running totals |
| Veeam.GroupsPartition | internal/veeam/veeam.go:217-232 | every file belongs to exactly one machine and a machine's total is that of its own files |
| Veeam.TotalsAddUp | internal/veeam/veeam.go:217-232 | the machines' totals add up to the capacity |
| History.ParseStream | internal/collectors/history.go:61-82 | for any number of lines the result is exactly the last min(n, 100) recognised entries, in order |
| History.Put | internal/collectors/history.go:65-71 | writing at n modulo 100 keeps the last 100 entries in their slots |
| History.Newest | internal/collectors/zpool.go:313-322 | the cached list reversed; empty for an unknown pool |
| History.OldLinesDoNotMatter | internal/collectors/history.go:61-82 | lines before 100 later entries have no influence |
| Hub.Broker.Publish | internal/hub/hub.go:39-52 | every registered channel is offered the event once and takes it if it has room; nothing after close |
| Hub.Broker.Subscribe | internal/hub/hub.go:55-65 | a fresh open registered channel, or a closed unregistered one after close |
| Hub.Broker.UserActive | internal/hub/hub.go:68-80 | true if and only if the user is not empty and owns a registered channel |
| Hub.Broker.Unsubscribe | internal/hub/hub.go:83-87 | only that channel stops being registered |
| Hub.Broker.Close | internal/hub/hub.go:90-101 | closes every registered channel once and registers none; a second close does nothing |
| Hub.Channel.TrySend | internal/hub/hub.go:46-50 | a send needs an open channel, never blocks, and drops only on a full buffer |
| Hub.StepKeepsInv | internal/hub/hub.go:39-101 | registered channels are open; buffers hold at most 32; read plus buffered is an in-order part of what was offered; each drop met 32 unread events; offered is exactly what was published while registered |
| Hub.EveryRunKeepsInv | internal/hub/hub.go:39-101 | the same over every run |
| Hub.DropsExactlyWhenFull | internal/hub/hub.go:46-50 | an event is dropped for a channel exactly when 32 events it took are unread |
| Hub.SubscribeGives | internal/hub/hub.go:55-65 | a new channel is empty, open and its subscriber's, or closed and nobody's after close |
| Hub.RegisteredExactly | internal/hub/hub.go:83-101 | over every run a channel is its user's until the hub is closed or that channel is given up, and nobody's afterwards |
| Hub.ChannelsClose | internal/hub/hub.go:90-101 | a channel is closed exactly when the hub is closed before that channel was given up |
| Hub.ClosedExactly | internal/hub/hub.go:90-101 | the hub is closed exactly when somebody closed it |
| Hub.KeepingUpLosesNothing | internal/hub/hub.go:46-50 | a reader never 32 events behind misses none |
| Hub.CloseIsFinal | internal/hub/hub.go:90-101 | a closed hub never publishes, registers or reopens |
| Smart.Collector.CollectOnce | internal/collectors/smart.go:185-228 | a pass leaves the counters and disks of the specification and announces the changes |
| Smart.Collector.ApplyCrcDelta | internal/collectors/smart.go:376-391 | growth is the positive part of the counter change and raises ok to warn |
| Smart.Collector.PublishChanges | internal/collectors/smart.go:235-265 | announces the changed disks and forgets the absent ones |
| Smart.PassIsDelta | internal/collectors/smart.go:185-221 | with distinct keys growth depends on the previous pass only, 0 on first sight, and exactly this pass's disks are remembered |
| Smart.PassShows | internal/collectors/smart.go:185-228 | each field a pass shows of a disk: counter, growth under its serial number, warn only over ok, and the note |
| Smart.RenamingDoesNotMatter | internal/collectors/smart.go:202-209 | two listings of the same disks with serial numbers, in any order and under any device names, leave the same counters and show the same growth for each disk |
| Smart.SwapIsRenaming | internal/collectors/smart.go:202-209 | two disks that swap device names, and with them their places, are such listings |
| Smart.RenamingInPlace | internal/collectors/smart.go:202-209 | renaming in place changes no counter and no growth even when disks share a serial number |
| Smart.TotalGrowth | internal/collectors/smart.go:376-380 | growth shown adds up to last minus first plus every fall; to last minus first if and only if the counter never fell |
| Smart.UnreadablePassInflates | internal/collectors/smart.go:185-221 | after a pass without a counter for a disk, the next pass that reads it under the same key shows the whole lifetime counter as growth |
| Smart.ChangesAreAnnounced | internal/collectors/smart.go:235-265 | a disk is announced if and only if it was known with another state |
| Smart.ChangesInOrder | internal/collectors/smart.go:235-265 | the announcements are those of the changed disks, once each, in listing order |
| Alerts.Alerter.RaiseKind | internal/alerts/alerts.go:60-101 | inserts and publishes, refreshes, or does nothing, as the lookup decides |
| Alerts.Alerter.Ack | internal/alerts/alerts.go:226-231 | marks the row with the id and no other, and changes nothing else |
| Alerts.Alerter.Purge | internal/db/db.go:198-202 | a row stays exactly if it is unacknowledged or not older than the cutoff |
| Alerts.PurgeSparesActive | internal/db/db.go:198-202 | an unacknowledged alert is never purged |
| Alerts.AckExactly | internal/alerts/alerts.go:226-231 | acknowledging changes the mark of the row with the id only |
| Alerts.PurgeExactly | internal/db/db.go:198-202 | a purge removes exactly the acknowledged rows older than the cutoff |
| Alerts.PublishedIsInserted | internal/alerts/alerts.go:91-101 | what is published is the inserted row: as raised and unacknowledged; nothing is published without one |
| Alerts.AtMostOneActive | internal/alerts/alerts.go:60-108 | over every run at most one unacknowledged alert for each source and kind, and for each source and message without a kind |
| Alerts.OneEventPerActivation | internal/alerts/alerts.go:91-101 | over every run alert.new is published for a key exactly as often as the key turns active |
| Alerts.ActiveSaysLastRaise | internal/alerts/alerts.go:67-82 | over every run an active alert with a kind carries the time, level, message and data of its last raise |
| Alerts.ActiveKeepsActivator | internal/alerts/alerts.go:60-101 | over every run an active alert keeps the target of the raise that activated it, and one without a kind all that raise said |
| Alerts.KindlessLevel | internal/alerts/alerts.go:83-90 | without a kind the active alerts carry the raised level if and only if those active before already did |
| Alerts.KindlessKeepsOldLevel | internal/alerts/alerts.go:83-90 | a warning raised again as critical stays a warning |
| Alerts.RaisedKeyIsActive | internal/alerts/alerts.go:83-90 | a raised key is active afterwards unless a kindless raise met the same message under a kind |
| Recs.Evaluate | internal/recs/recs.go:27-76 | the server's list is the recommended one, which the next rows describe |
| Recs.ComputeRecommendations | web/src/data/recs.ts:8-42 | the browser's list is the recommended one of the disks as received |
| Recs.SaysExactly | internal/recs/recs.go:37-73 | an entry is in the list exactly when some disk calls for its kind and level by its raw fields (100 reallocated sectors, 100 link errors), with that disk's own fields and the hold its last pool of that name gives |
| Recs.ListIs | internal/recs/recs.go:37-76 | device and kind of every entry, in order: the critical calls of the disks, then the warnings, then the rest, health before link, each once |
| Recs.WorseIsNotMilder | internal/recs/recs.go:49-60 | a disk with no lower health counter gets advice at least as severe |
| Recs.EnginesAgree | web/src/data/recs.ts:8-42 | whatever zero counters the server omits, both lists are equal |
| Recs.StableSort | internal/recs/recs.go:74-74 | sorting by rank gives all critical, then warning, then info entries, each in their old order |
| Recs.IsStableSort | internal/recs/recs.go:74-88 | the list is a permutation ordered by severity that keeps the order within a level |
| Recs.OneEntryPerDisk | internal/recs/recs.go:49-71 | at most one health and one cable entry for each disk |
| Recs.EntriesFit | internal/recs/recs.go:37-48 | every entry is said of some disk, and a hold stands only on a replacement |

## Left out

- Process execution, SSH, SQLite, HTTP handlers and JSON: commands and replies are parameters, tables are values.
- Daylight saving and time-zone changes, and clocks that run backwards.
- Replication: jobs that share a source, overlapping executions, the cancel of waitOp, the text of the pipeline, the
  demo run; the due test of its own ticker is the one modelled in `Scheduling.DueAt`.
- Scheduler: what a job's action does, and the data threshold that may skip it; both are the environment's outcome.
  Creating and deleting jobs, so that ids are never used again; the history it writes.
- Long operations: launching and killing the process, and reading its output.
- SysSched.ParseCron: a weekday field is an unbounded number, where the code rounds one above 2^53.
- LoginLimiter.LoginAttempt.Allow: the filter writes a fresh sequence where the code reuses the array it reads.
- Login limiter: the hygiene sweep above 1024 keys and how the key is made from the request.
- Push: payload texts, encryption, TTL and urgency; queue rows with unreadable JSON; deleting a user with their rows;
  database errors; the demo mode, in which nothing is sent.
- Alerts: the thresholds that raise them, the webhook; the text comparison of time stamps in the purge, whose cutoff
  is a parameter.
- Hub: the HTTP stream and its heartbeat.
- Cron and OnCalendar expressions with lists, ranges or steps, which the editor does not accept; letters outside
  ASCII in the case folding of OnCalendar texts.
- History: the line grammar, a parameter; a line above 1 MiB, at which the scanner stops.
- Disks: the reading of smartctl's output, temperatures and their series; detail texts are kept as structured values.
- Veeam: the walk over the file system and the grammar of file names, a parameter; the order of machines in the
  result and the usage figures of zfs. Files of a chain are values, not shared pointers.
- The demo providers, the web components, dictionaries and themes.
