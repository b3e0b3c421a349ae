# Bridra backend: a verified model

Bridra is an application framework with a Go backend and a Dart client. This
project models the parts of `backend/framework` and `backend/codegen` that keep
state over time or decide something about whole schemas, and proves what they
promise: over every input, every run and every interleaving.

| Files | What they model |
|---|---|
| `Calendar`, `CronSearch`, `CronParse`, `CronSchedule`, `Text` | The Gregorian calendar, the five-field cron parser, the jumping search for the next run, and a schedule from its text to its first delay. |
| `LeasedQueue`, `LeaseProtocol` | The queue of stored jobs that three stores implement, and the lease protocol over every interleaving of workers. |
| `FileJobLog`, `FileJobFaults`, `FileJobRuns`, `FileJobStore` | The append-only log, its replay after a restart, a crash in mid-write or a failed append, the lease protocol over restarts, and the store that writes the log. |
| `ReadyMembers`, `RedisStructures`, `RedisScripts`, `RedisJobStore` | Two hashes and three sorted sets kept in step by scripts, and the ordered hexadecimal key. |
| `SqlJobStore` | Select, then a conditional update or insert, with other workers in between. |
| `PersistentWorkers`, `PersistentExecution` | How often a handler starts, and how a worker ends a reservation. |
| `Schemas`, `SchemaCycles`, `SchemaExpansion`, `SchemaValidation`, `RequestRules` | The three-colour search for reference cycles, the expansion it gates, and which rules can be met. |
| `WireFormat`, `StringSets`, `FieldComparison`, `FieldContract`, `WireCompatibility`, `SchemaCompatibility` | The compatibility verdict against the contracts of the schemas, what requests accept and what decoders read. |
| `RateLimits`, `RateAnswers`, `RateLimiter` | The token bucket with a bounded table of keys, and what its answers mean. |
| `JobQueueSteps`, `JobQueueOrder`, `JobQueue` | The in-memory queue with delayed jobs and shutdown, and the order of its jobs. |
| `StreamFlow` | Credits of a stream and its writer. |
| `SubscriptionBuffer` | The replay buffer, cursors and a reader that follows them. |
| `FileTransferSteps`, `FileTransferFlow`, `FileTransferStore` | Resumable uploads and downloads, and what can be done next with each. |
| `ResourceBrokerSteps`, `ResourceBroker` | Capability leases. |
| `DynamicTask` | The runner of a dynamic scheduled task. |

Concurrent components are state machines: one step for each critical section,
channel operation or call made without the lock. `CanStep` says when a step can
happen, `Next` what it does, and a lemma over all sequences of steps says what
every reachable state keeps. Beside each stands a class with the source's fields,
whose methods are those steps: each is the step it stands for and keeps the
invariant that the lemma is about.

Times are integers (microseconds in the stores, nanoseconds in the limiter,
minutes and nanoseconds in cron); the zero time is 0. Random tokens and ids are
parameters that have not been used before. JSON text, SHA-256 and date parsing
are functions given to the model.

`Wrappers` holds the option and result types, `Totals` sums over maps and sizes of sets. `dafny verify dfyconfig.toml`
checks everything.

## Findings

Where a property that the design suggests does not hold of the code, the model
keeps the code, shows a run or an input, and proves when it does hold.

- Reloading the file log gives back the live map exactly when every appended
  event passes the checks of replay, and every text written since the last start
  is already in the form that JSON gives it: a handler or error that is valid
  UTF-8, a payload that is compacted and escaped (`ReloadExact`). A payload that
  encoding lengthens past the limit is accepted by the running store and makes the
  log unreadable (`LengthenedPayloadIsRefused`).
- The file store goes on after an append that failed. When a write stopped part of
  the way, the log can be read again if and only if no append succeeded after it
  (`TornAppends`): the next line begins with the rest of the failed one. When the
  write was whole and the sync failed, the caller is answered with an error but the
  operation takes effect at the next start (`UnsyncedTakesEffect`), and after the
  next event about the job the log can be read if and only if that event is a
  reservation after a release or a failure; repeating the operation makes the log
  unreadable (`NextAboutJob`).
- The SQL store hands out the job it selected; its update compares the attempts of
  the row, not the content. The work handed out is the row's if and only if no
  other work was last enqueued under the id between the two statements
  (`WorkAfter`, `TryReserve`); `EnqueuedAgainIsStale` is a run where it is not.
- `MaxAttempts` bounds the starts of the reservations made between two resets of a
  job, in every run (`StartsPerEpoch`). Counted from an enqueue or a retry on
  instead, it bounds them if and only if no reservation within the limit was still
  pending at that moment (`MaxAttemptsExact`): each such one can add a start
  (`BoundIsReached`), and nothing else can (`StartsSinceRetry`).
  `StalledWorkerStartsAgain` is the smallest run.
- A caller that is denied for want of tokens and waits exactly `RetryAfter` is
  admitted whatever other keys do if and only if `RetryAfter` is below the window
  (`WaitingExact`); otherwise others can take every place in the table first, and
  `WholeWindowDenial` reaches such a denial. With two requests or more per window
  it is always below, if the window is two nanoseconds or more (`RetryBelowWindow`).
- A cron step so large that the last value of its range and the step add up beyond
  64 bits makes the marking loop index below zero (`MarkSpan`, `OverrunMeaning`). No
  step up to the largest integer less 59 does (`SmallStepsDoNot`); the largest one
  does (`LargestStepOverruns`).
- A valid schema can have a request field that no request passes: validation checks
  that the bounds of a length or a number can be met (`TextBounds`, `NumberBounds`)
  but not that an allowed value lies within them (`EnumBounds`,
  `ValidFieldRefusesAll`).
- The broker's limit counts its table and the grants under way. Native leases can
  exceed it by the releases in progress, because `Release` frees the place before
  the native call: by no more (`NativeLeasesBound`), and by as many
  (`NativeLeasesReached`).
- The comment on `TriggerNow` says that requests before the next invocation
  coalesce into one. They do unless one arrives after the runner has cleared the
  flag and before the invocation starts; then there are two invocations
  (`OneMoreInvocation`, `TwoTriggersTwoInvocations`).

## Model

| member | source | states |
|---|---|---|
| Calendar.DateOrder | backend/framework/scheduler_cron.go:226-289 | day numbers order exactly as dates of the Gregorian calendar (4/100/400 leap rule) |
| Calendar.MomentOrder | backend/framework/scheduler_cron.go:226-289 | minute numbers order exactly as dates with hours and minutes |
| Calendar.ClosedForm | backend/framework/scheduler_cron.go:226-289 | the days before a year, counted year by year, are the closed form with quarters, centuries and 400-year cycles |
| Calendar.CivilDateCounts | backend/framework/scheduler_cron.go:226-289 | normalising an over-long day, as time.Date does, keeps the day number |
| Calendar.EveryDayHasADate | backend/framework/scheduler_cron.go:226-289 | every day number is the number of a valid date |
| Calendar.WeekdayByZeller | backend/framework/scheduler_cron.go:278-289 | the weekday of every date is the one Zeller's congruence gives, which counts no days |
| Calendar.WeekdayFollows | backend/framework/scheduler_cron.go:278-289 | each day is a weekday later than the one before |
| Calendar.KnownWeekday | backend/framework/scheduler_cron.go:278-289 | 1 January 1970 was a Thursday |
| Calendar.AddMinutesOrdinal | backend/framework/scheduler_cron.go:263-272 | adding minutes to a moment adds them to its minute number, across day, month and year ends |
| CronSearch.MonthJump | backend/framework/scheduler_cron.go:237-249 | jumping to the first of the next month passes over no firing minute and moves forward |
| CronSearch.DayJump | backend/framework/scheduler_cron.go:250-262 | jumping to the next midnight passes over no firing minute and moves forward |
| CronSearch.HourJump | backend/framework/scheduler_cron.go:263-268 | jumping to the next full hour passes over no firing minute |
| CronSearch.MinuteStep | backend/framework/scheduler_cron.go:269-272 | stepping a minute passes over no firing minute |
| CronSearch.LeapNearby | backend/framework/scheduler_cron.go:226-235 | the next leap year is at most seven years away, or eight from a leap year before a common century |
| CronSearch.WeekdayInMonth | backend/framework/scheduler_cron.go:278-289 | each month has each weekday within its first seven days |
| CronSearch.EightYearsReach | backend/framework/scheduler_cron.go:226-276 | if any date of the calendar matches month and day rules, some minute within eight years of any start fires |
| CronSearch.SilentWindow | backend/framework/scheduler_cron.go:226-276 | eight years without a firing minute mean that no date in the whole calendar matches |
| CronSearch.Next | backend/framework/scheduler_cron.go:226-276 | gives the least whole minute strictly after the start that fires; false exactly when no date ever matches |
| CronParse.ItemRoundTrip | backend/framework/scheduler_cron.go:141-224 | reading a written item (star, number or name, range, step; in any letter case, with plus signs and leading zeros) gives exactly its crontab meaning within the bounds, and is refused exactly when it has none |
| CronParse.ItemIsWritten | backend/framework/scheduler_cron.go:141-224 | every item the parser accepts is written in that grammar |
| CronParse.FieldMeaning | backend/framework/scheduler_cron.go:141-193 | a comma-joined list of items is accepted exactly when every item has a meaning, and allows exactly their union |
| CronParse.FieldIsListed | backend/framework/scheduler_cron.go:141-193 | every accepted field is such a list |
| CronParse.AcceptsFields | backend/framework/scheduler_cron.go:141-193 | so the parser accepts exactly the cron fields, with the values they mean |
| CronParse.OverrunMeaning | backend/framework/scheduler_cron.go:188-190 | on a cron field the parser panics exactly when, in the grammar, the last member and the step of some item add up beyond 64 bits |
| CronParse.SmallStepsDoNot | backend/framework/scheduler_cron.go:188-190 | no step up to the largest integer less 59 does |
| CronParse.LargestStepOverruns | backend/framework/scheduler_cron.go:188-190 | the largest step does from every start but zero |
| CronParse.MarkSpan | backend/framework/scheduler_cron.go:188-190 | in place, marks exactly the members of the stepped range, or panics exactly when the sum after the last one is beyond 64 bits |
| CronParse.ParseItems | backend/framework/scheduler_cron.go:148-192 | reads exactly when every item parses and none overruns, with exactly the union of their values; panics exactly when an item overruns before any is refused |
| CronParse.ParseField | backend/framework/scheduler_cron.go:141-193 | reads exactly the texts that list items with a crontab meaning and do not overrun, and marks exactly the values they mean together |
| CronParse.FoldSunday | backend/framework/scheduler_cron.go:118-119 | day 7 becomes day 0 and the other weekdays stay |
| CronParse.ParseCronExpression | backend/framework/scheduler_cron.go:92-130 | reads exactly five cron fields that do not overrun; the result allows exactly what crontab makes of them, with month and weekday names, Sunday twice and the wildcard flags of the day rule |
| CronSchedules.ItemForms | backend/framework/scheduler_cron.go:158-190 | a star means every value, a number itself, a range what lies between its ends |
| CronSchedules.SteppedForms | backend/framework/scheduler_cron.go:158-208 | with a step, every so many values from the start; a star and a number go on to the end of the field |
| CronSchedules.MonthNames | backend/framework/scheduler_cron.go:12-25 | the names of the months mean their places in the year, in any letter case, and there are no others |
| CronSchedules.WeekdayNames | backend/framework/scheduler_cron.go:27-35 | the names of the weekdays mean their places in the week from Sunday, and there are no others |
| CronSchedules.FiresAsWritten | backend/framework/scheduler_cron.go:92-130 | a parsed expression fires at exactly the minutes its five words name: both day fields must match, or one of them when both leave days out; weekday 7 is Sunday |
| CronSchedules.ScheduleCron | backend/framework/scheduler_cron.go:64-90 | a text is taken exactly when it is five cron fields that name some minute, and the first delay leads to the first such minute |
| LeasedQueue.BeforeTotal | backend/framework/file_job_store.go:210-218 | available time, enqueue time and id order two jobs one way unless they share the id |
| LeasedQueue.BeforeTransitive | backend/framework/file_job_store.go:210-218 | that order is transitive |
| LeasedQueue.PickFirst | backend/framework/file_job_store.go:198-219 | finds the job that sorting all eligible ones puts first, in any order of the map; none exactly when no job is eligible |
| LeasedQueue.FirstUnique | backend/framework/file_job_store.go:210-219 | there is only one first job |
| LeasedQueue.EnqueuedMeans | backend/framework/file_job_store.go:142-175 | a new job can be reserved exactly from its time on, and nobody holds it |
| LeasedQueue.ReservedMeans | backend/framework/file_job_store.go:219-240 | a reserved job can be reserved again exactly from the end of the lease on; one more attempt is counted and only the token holds it |
| LeasedQueue.ReleasedMeans | backend/framework/file_job_store.go:242-271 | a released job can be reserved exactly from its new time on, with its attempts and the error |
| LeasedQueue.FailedMeans | backend/framework/file_job_store.go:292-318 | a failed job can be reserved at no time, and says when and why it failed |
| LeasedQueue.RetriedMeans | backend/framework/file_job_store.go:383-423 | a retried job can be reserved exactly from its new time on, and the next reservation is its first attempt |
| LeasedQueue.RecoveredMeans | backend/framework/redis_job_store.go:71-92 | recovering an expired reservation changes nothing for those who could take the job |
| LeaseProtocol.NextKeepsInv | backend/framework/file_job_store.go:177-355 | every operation keeps: a held record's token is its job's newest and unfinished; an unfinished token holds or has expired |
| LeaseProtocol.OneUnexpiredLease | backend/framework/file_job_store.go:198-240 | a job has at most one lease that was granted, not given back and not expired, and it is the holder's |
| LeaseProtocol.OnlyTheNewestFinishes | backend/framework/file_job_store.go:320-355 | only the newest token of a job can release, complete or fail it |
| LeaseProtocol.EachTokenFinishesOnce | backend/framework/file_job_store.go:320-355 | in every run no token is given back twice |
| LeaseProtocol.LeaseSafety | backend/framework/file_job_store.go:177-355 | the three lease promises together, in every state reachable from an empty queue |
| FileJobLog.ReplayAppend | backend/framework/file_job_store.go:497-550 | replaying whole lines and then more bytes is replaying the more bytes on the result |
| FileJobLog.LineLimit | backend/framework/file_job_store.go:526-546 | a line longer than the payload limit and 64 KiB is refused whatever it says; of another what it says decides |
| FileJobLog.StoredJobLimits | backend/framework/file_job_store.go:677-690 | which other handler, payload, times and attempts keep a stored job valid |
| FileJobLog.IdentifierIsHex | backend/framework/file_job_store.go:700-711 | identifiers are exactly the texts of 64 lower-case hexadecimal digits |
| FileJobLog.StoredError | backend/framework/file_job_store.go:713-722 | a short error is stored as it is, of a longer one the longest beginning that fits and is valid UTF-8 |
| FileJobLog.ReplayIsSound | backend/framework/file_job_store.go:552-636 | whatever bytes are replayed, records sit under their own ids and identifiers are valid UTF-8 |
| FileJobLog.AppliedIsAccepted | backend/framework/file_job_store.go:552-636 | replay applies only events that a running store could have appended, but for the form of a token and a reservation of a failed job |
| FileJobLog.ReloadedEffect | backend/framework/file_job_store.go:552-636 | what a reload does to the texts commutes with every operation |
| FileJobLog.ReplayRebuilds | backend/framework/file_job_store.go:482-636 | a log of appended events is accepted exactly when each survives a reload, and then gives the live map; only texts written since the base can come back changed |
| FileJobLog.ReloadExact | backend/framework/file_job_store.go:482-636 | the reload equals the live map if and only if the events are reloadable and the texts written since the base are valid UTF-8 and compact |
| FileJobLog.LengthenedPayloadIsRefused | backend/framework/file_job_store.go:142-175 | a payload that encoding lengthens past the limit is appended and then refused by replay |
| FileJobLog.WholeEventsLongest | backend/framework/file_job_store.go:497-550 | the events counted inside a byte prefix are the longest run that fits |
| FileJobLog.TornWrite | backend/framework/file_job_store.go:482-550 | cutting the log anywhere leaves the state after the longest whole prefix of events |
| FileJobFaults.TornAppends | backend/framework/file_job_store.go:482-550 | after appends of which some stopped part of the way, the log is accepted exactly when no append succeeded after such a one and the successful events survive a reload, and then gives the store's map |
| FileJobFaults.ActualIsAppended | backend/framework/file_job_store.go:482-495 | with one whole event that was answered with an error, the log is still a history, of a map that differs in that job only |
| FileJobFaults.UnsyncedTakesEffect | backend/framework/file_job_store.go:482-495 | such an event takes effect at the next start, as long as the job is left alone |
| FileJobFaults.NextAboutJob | backend/framework/file_job_store.go:482-636 | with the next event about the job the log is accepted exactly when that reserves it after a release or a failure; otherwise it is refused for good |
| FileJobStores.FileJobStore.Append | backend/framework/file_job_store.go:482-495 | writes one encoded line at the end of the file, or nothing |
| FileJobStores.FileJobStore.Enqueue | backend/framework/file_job_store.go:142-175 | adds the job exactly under the source's checks, and logs it; otherwise nothing changes |
| FileJobStores.FileJobStore.Reserve | backend/framework/file_job_store.go:177-240 | leases the first eligible job under a new token and counts the attempt; empty only when none is eligible |
| FileJobStores.FileJobStore.FinishReservation | backend/framework/file_job_store.go:320-355 | ends a reservation exactly when the token is the record's |
| FileJobStores.FileJobStore.Release | backend/framework/file_job_store.go:242-271 | puts the job back with its new time, exactly for the holder |
| FileJobStores.FileJobStore.Complete | backend/framework/file_job_store.go:273-290 | deletes the job, exactly for the holder |
| FileJobStores.FileJobStore.Fail | backend/framework/file_job_store.go:292-318 | marks the job failed, exactly for the holder |
| FileJobStores.FileJobStore.RetryFailed | backend/framework/file_job_store.go:383-423 | resets the attempts of a failed job, and only of a failed one |
| FileJobStores.FileJobStore.ForgetFailed | backend/framework/file_job_store.go:425-454 | deletes a failed job, and only a failed one |
| FileJobStores.FileJobStore.Reopens | backend/framework/file_job_store.go:497-550 | at any moment the bytes of the file replay to the live map, but for the form of texts written since the start, or are refused |
| FileJobStores.ReplayFile | backend/framework/file_job_store.go:497-550 | the reading loop gives what replay of the whole lines gives, and where they end |
| FileJobStores.OpenFileJobStore | backend/framework/file_job_store.go:86-114 | opens exactly the logs that replay, on that map, with an incomplete last line cut off |
| FileJobRuns.EventIsStep | backend/framework/file_job_store.go:142-454 | an event the store appends, with the new token and the eligible job of Reserve, is an enabled step of the lease protocol with the same effect |
| FileJobRuns.LogIsRun | backend/framework/file_job_store.go:142-454 | from any start, what a store appended is a run of the lease protocol, and its map is the queue of that run |
| FileJobRuns.RestartKeepsInv | backend/framework/file_job_store.go:497-636 | a restart keeps the lease invariant, although texts can change |
| FileJobRuns.SessionsAreLawful | backend/framework/file_job_store.go:142-636 | over any number of restarts and crashes the file replays to the map of a state with the lease invariant |
| FileJobRuns.FileLeaseSafety | backend/framework/file_job_store.go:177-240 | so at every moment of every session a job of the file store has at most one unexpired lease, and its holder has it |
| FileJobStores.FileJobStore.IsLawful | backend/framework/file_job_store.go:142-454 | every valid store has made such a run since its start, keeps the lease promise, and leaves a lawful state for the next start |
| ReadyMembers.HexOrder | backend/framework/redis_job_store.go:689-692 | fixed-width hexadecimal orders and equals as the numbers do |
| ReadyMembers.SignFlipShifts | backend/framework/redis_job_store.go:689-692 | flipping the sign bit of a 64-bit value is adding 2^63 |
| ReadyMembers.MemberOrder | backend/framework/redis_job_store.go:689-692 | members sort by bytes exactly as jobs by enqueue time and id |
| ReadyMembers.MemberId | backend/framework/redis_job_store.go:104-108 | the text after the first 17 characters is the id |
| RedisStructures.PickLeast | backend/framework/redis_job_store.go:99-103 | ZRANGE 0 0: the lowest score, then the lowest member |
| RedisStructures.RangeByScore | backend/framework/redis_job_store.go:71-75 | ZRANGEBYSCORE with a limit: the lowest members up to a score, all of them when they fit |
| RedisStructures.RecoveredAllAt | backend/framework/redis_job_store.go:76-97 | recovering a batch clears exactly the tokens of its members |
| RedisStructures.EnqueueAgrees | backend/framework/redis_job_store.go:59-68 | enqueue keeps the five structures in agreement and adds the job to the queue they stand for |
| RedisStructures.ReleaseAgrees | backend/framework/redis_job_store.go:132-149 | release keeps the agreement and releases in the queue |
| RedisStructures.DeleteAgrees | backend/framework/redis_job_store.go:151-166 | complete and forget keep the agreement and delete from the queue |
| RedisStructures.FailAgrees | backend/framework/redis_job_store.go:168-186 | fail keeps the agreement and fails in the queue |
| RedisStructures.RetryAgrees | backend/framework/redis_job_store.go:203-222 | retry keeps the agreement and retries in the queue |
| RedisStructures.RecoverAgrees | backend/framework/redis_job_store.go:86-95 | recovering an expired lease keeps the agreement |
| RedisStructures.LeaseAgrees | backend/framework/redis_job_store.go:119-129 | leasing the candidate keeps the agreement |
| RedisStructures.LeaseQueue | backend/framework/redis_job_store.go:119-129 | leasing the candidate reserves in the queue |
| RedisScripts.CandidateIsFirst | backend/framework/redis_job_store.go:70-130 | with no more expired leases than the batch, the lowest ready member is the job a full scan and sort would choose |
| RedisScripts.CandidateIsEligible | backend/framework/redis_job_store.go:99-117 | the lowest ready member that is due names an eligible job, whatever the number of expired leases |
| RedisScripts.NothingIsExact | backend/framework/redis_job_store.go:99-104 | when no ready member is due, nothing was recovered and no job is eligible: no retry answer is possible |
| RedisScripts.RecoveredIsDue | backend/framework/redis_job_store.go:76-104 | a recovered job is due at once, because it was available before it was leased |
| RedisScripts.BatchIsWhole | backend/framework/redis_job_store.go:71-75 | a batch holds every expired lease when they are no more than its size |
| RedisScripts.BatchRecovers | backend/framework/redis_job_store.go:76-97 | the loop ends without an error and recovers every member of the batch |
| RedisScripts.GrantMeets | backend/framework/redis_job_store.go:106-130 | the candidate passes every corruption check, and leasing it is what the queue promises |
| RedisScripts.TurnMeets | backend/framework/redis_job_store.go:99-130 | granted, empty, and never retry or corrupt, on structures that agree |
| RedisScripts.AnswersMeet | backend/framework/redis_job_store.go:70-130 | on agreeing structures every answer the script can give meets the promise: granted or empty, never retry or corrupt |
| RedisJobStores.ReserveIsRun | backend/framework/redis_job_store.go:70-130 | a granting reserve is a run of recoveries and one reservation of the lease protocol |
| RedisJobStores.TakesIsEnabled | backend/framework/redis_job_store.go:132-239 | each script accepts a change exactly when the protocol enables it |
| RedisJobStores.ScriptLinks | backend/framework/redis_job_store.go:59-239 | each script is one step of the protocol on agreeing structures |
| RedisJobStores.CallLinks | backend/framework/redis_job_store.go:59-239 | one call, with any answer its script can give, is a run of the protocol that keeps the agreement |
| RedisJobStores.CallsStayLinked | backend/framework/redis_job_store.go:59-239 | whatever is called, with whatever answer the scripts can give, is a run of the protocol; the structures agree and stand for its state, and every reserve granted or found nothing |
| RedisJobStores.RedisJobStore.EnqueueScript | backend/framework/redis_job_store.go:59-68 | refuses an id that is in either hash |
| RedisJobStores.RedisJobStore.ReserveScript | backend/framework/redis_job_store.go:70-130 | recovers a batch and leases the lowest ready member, on any structures; on agreeing ones it grants an eligible job, the first one when the batch suffices, or finds none eligible, never retry or error |
| RedisJobStores.RedisJobStore.RecoverOne | backend/framework/redis_job_store.go:76-97 | one turn of the loop over expired leases, with every branch |
| RedisJobStores.RedisJobStore.RecoverExpired | backend/framework/redis_job_store.go:71-97 | the loop over the batch, stopping at a failed job |
| RedisJobStores.RedisJobStore.LeaseCandidate | backend/framework/redis_job_store.go:99-130 | leases the lowest ready member if it is due and sound, with every other answer |
| RedisJobStores.RedisJobStore.ReleaseScript | backend/framework/redis_job_store.go:132-149 | exactly when the token matches |
| RedisJobStores.RedisJobStore.CompleteScript | backend/framework/redis_job_store.go:151-166 | exactly when the token matches |
| RedisJobStores.RedisJobStore.FailScript | backend/framework/redis_job_store.go:168-186 | exactly when the token matches |
| RedisJobStores.RedisJobStore.RetryFailedScript | backend/framework/redis_job_store.go:203-222 | exactly when the job is failed |
| RedisJobStores.RedisJobStore.ForgetFailedScript | backend/framework/redis_job_store.go:224-239 | exactly when the job is failed |
| RedisJobStores.RedisJobStore.Enqueue | backend/framework/redis_job_store.go:298-333 | validates the job and its times, then one script step |
| RedisJobStores.RedisJobStore.Reserve | backend/framework/redis_job_store.go:335-410 | refuses exactly the bad times; otherwise, on agreeing structures, it is empty exactly when no job is eligible and has no other error; the reservation has the token and the lease asked for, the job it hands out is the queue's record, was eligible, and first within a batch |
| RedisJobStores.RedisJobStore.Release | backend/framework/redis_job_store.go:412-441 | succeeds exactly for the holder with a storable time |
| RedisJobStores.RedisJobStore.Complete | backend/framework/redis_job_store.go:443-461 | succeeds exactly for the holder |
| RedisJobStores.RedisJobStore.Fail | backend/framework/redis_job_store.go:463-488 | succeeds exactly for the holder at a storable time |
| RedisJobStores.RedisJobStore.RetryFailed | backend/framework/redis_job_store.go:533-556 | succeeds exactly on a failed job with a storable time |
| RedisJobStores.RedisJobStore.ForgetFailed | backend/framework/redis_job_store.go:558-572 | succeeds exactly on a failed job |
| SqlJobStores.StatementsFollow | backend/framework/sql_job_store.go:158-436 | the statements of any run leave the table the protocol says |
| SqlJobStores.SqlJobStore.ReadyJob | backend/framework/sql_job_store.go:402-416 | selects the first eligible row, none exactly when none is eligible |
| SqlJobStores.SqlJobStore.UpdateReserve | backend/framework/sql_job_store.go:189-216 | affects one row exactly under the WHERE clause, and is then a reserving step of the protocol |
| SqlJobStores.SqlJobStore.TryReserve | backend/framework/sql_job_store.go:174-229 | whatever others do between select and update, success is a protocol step on a job eligible at that moment, the work handed out is the row's if and only if no other work was last enqueued under the id, and failure means that one of them worked on the selected row |
| SqlJobStores.SqlJobStore.Reserve | backend/framework/sql_job_store.go:158-231 | the loop: a reservation is such a step with the same equivalence, empty means none was eligible, and giving up means that others interfered in every round and nothing else changed |
| SqlJobStores.SqlJobStore.FinishReservation | backend/framework/sql_job_store.go:418-436 | affects a row exactly for the holder's token |
| SqlJobStores.SqlJobStore.ChangeFailed | backend/framework/sql_job_store.go:358-400 | retry and forget succeed exactly on a failed row |
| SqlJobStores.FailedRowIsFree | backend/framework/sql_job_store.go:358-382 | a failed row has no reservation, so clearing its columns changes nothing |
| SqlJobStores.QuietReservation | backend/framework/sql_job_store.go:158-231 | undisturbed, the selected row passes the update's condition |
| SqlJobStores.TakenRowIsNotReserved | backend/framework/sql_job_store.go:189-221 | in every interleaving, a row another worker reserved after the select fails the condition, unless the id was retried or enqueued again |
| SqlJobStores.UntouchedRowStays | backend/framework/sql_job_store.go:189-221 | a row nobody worked on is as it was, whatever else runs |
| SqlJobStores.WorkAfter | backend/framework/sql_job_store.go:189-229 | what a row is to do is what was last enqueued under its id, or what it said before |
| SqlJobStores.AttemptsCount | backend/framework/sql_job_store.go:189-221 | until they start again, the attempts of a row grow by exactly its reservations |
| SqlJobStores.OthersTakeSelectedRow | backend/framework/sql_job_store.go:174-221 | another worker can reserve the selected row in between, and then the update has no effect |
| SqlJobStores.EnqueuedAgainIsStale | backend/framework/sql_job_store.go:174-229 | a run in which the row was completed and enqueued again with other work in between, so that the new work is leased with the old one handed out |
| PersistentWorkers.DistinctAttempts | backend/framework/jobs_persistent.go:78-106 | reservations with distinct attempt numbers from one to n are at most n |
| PersistentWorkers.PlayKeepsInv | backend/framework/jobs_persistent.go:45-150 | reservations between two resets of a job carry different attempt numbers, in every run, with workers that die |
| PersistentWorkers.StartsPerEpoch | backend/framework/jobs_persistent.go:45-150 | in every run a job's handler starts at most MaxAttempts times for the reservations made between two resets |
| PersistentWorkers.StartsSinceRetry | backend/framework/jobs_persistent.go:45-150 | since the last reset it starts at most MaxAttempts times plus once for each reservation that was pending at the reset and within the limit |
| PersistentWorkers.BoundIsReached | backend/framework/jobs_persistent.go:78-150 | right after a reset some continuation reaches that bound, for any number of such reservations |
| PersistentWorkers.MaxAttemptsExact | backend/framework/jobs_persistent.go:93-106 | after an enqueue or a retry MaxAttempts bounds the starts in every continuation if and only if no reservation within the limit was pending at that moment |
| PersistentWorkers.StalledWorkerStartsAgain | backend/framework/jobs_persistent.go:93-106 | a run with a limit of one that leads to a retry with such a reservation pending |
| PersistentExecution.ExecutePersistent | backend/framework/jobs_persistent.go:78-150 | starts a handler exactly when it is registered, within its limit and can decode, which is when a worker may make the move Start; the job is gone exactly when it ran without error, waits for its back-off exactly when it ran with an error below its limit, and has failed otherwise; other jobs are untouched |
| PersistentExecution.FailReservation | backend/framework/jobs_persistent.go:152-178 | fails the job, with its time and message, when the token holds it, and changes nothing when it does not |
| SchemaCycles.BackEdge | backend/codegen/schema_refs.go:14-17 | meeting a type that is being visited closes a real cycle of references |
| SchemaCycles.OrderedIsAcyclic | backend/codegen/schema_refs.go:5-49 | if every type is finished after the types it refers to, there is no cycle |
| SchemaCycles.CycleSearch.VisitDefinition | backend/codegen/schema_refs.go:14-27 | success finishes the type and everything it refers to; failure comes with a cycle |
| SchemaCycles.CycleSearch.VisitFields | backend/codegen/schema_refs.go:28-42 | visits every reference of the fields, through nested objects |
| SchemaCycles.ValidateReferenceCycles | backend/codegen/schema_refs.go:5-49 | in any order of the map, succeeds if and only if the reference graph is acyclic |
| SchemaExpansion.ResolveExpands | backend/codegen/schema_refs.go:76-97 | on accepted schemas the recursion ends, and its result is the expansion |
| SchemaExpansion.ExpansionUnique | backend/codegen/schema_refs.go:76-97 | there is only one expansion, whatever computes it |
| SchemaExpansion.ExpansionIsResolved | backend/codegen/schema_refs.go:82-97 | every reference has an object, at every depth |
| SchemaExpansion.ExpansionIsFixed | backend/codegen/schema_refs.go:51-97 | expanding an expansion changes nothing |
| SchemaExpansion.CycleHasNoExpansion | backend/codegen/schema_refs.go:76-97 | a type on a cycle has no finite expansion at all |
| SchemaExpansion.ResolveTypes | backend/codegen/schema_refs.go:51-60 | types are resolved exactly when they have expansions, which is exactly when there is no cycle |
| SchemaValidation.Validate | backend/codegen/schema.go:99-369 | accepts exactly the schemas with valid names, unique types, methods and clients, valid fields and acyclic references; clashes among generated names are a given check |
| SchemaValidation.MethodGrammar | backend/codegen/schema.go:14 | method names are exactly two or more alphanumeric segments that begin with a small letter, joined by dots |
| SchemaValidation.FieldGrammar | backend/codegen/schema.go:16 | field names are exactly alphanumeric words joined by single underscores, the first an identifier |
| RequestRules.TextBounds | backend/codegen/schema.go:326-334 | the length bounds that validation takes are exactly those that some text meets |
| RequestRules.NumberBounds | backend/codegen/schema.go:335-343 | the number bounds that validation takes are exactly those that some number meets |
| RequestRules.EnumBounds | backend/codegen/schema.go:347-360 | allowed values can be met exactly when one of them is within the length bounds and is what trimming leaves of some text |
| RequestRules.ValidFieldRefusesAll | backend/codegen/schema.go:326-361 | a valid field that takes no text |
| SchemaValidation.ExpansionIsShaped | backend/codegen/schema.go:258-369 | expanded valid fields have distinct names, and objects exactly on object fields, at every depth |
| SchemaValidation.ResolveReferences | backend/codegen/schema_refs.go:51-74 | every method of a valid schema resolves to its expansion |
| StringSets.EqualStringSetIsMultiset | backend/codegen/compatibility.go:266-275 | sorted copies are equal exactly when both lists hold the same strings as often |
| FieldComparison.ReportField | backend/codegen/compatibility.go:219-257 | appends exactly the changes of one field, nested objects included |
| FieldComparison.ReportFields | backend/codegen/compatibility.go:165-209 | appends exactly the changes of two lists of fields, removed and compared first, then added |
| FieldComparison.Partner | backend/codegen/compatibility.go:165-192 | without a breaking change a baseline field has an unbroken partner, or is a nullable response field |
| FieldComparison.PartnerBack | backend/codegen/compatibility.go:193-209 | the same for a current field |
| FieldComparison.PairParts | backend/codegen/compatibility.go:219-257 | unbroken fields agree in type, array, format and nullability, in request rules, and inside their objects |
| FieldContracts.FieldsExact | backend/codegen/compatibility.go:165-263 | two lists of fields compare without a breaking change exactly when every field has its like at every depth, but for nullable fields of a response |
| FieldContracts.ReportedExactly | backend/codegen/compatibility.go:165-263 | the changes reported are exactly the differences, each with its code, path and whether it breaks |
| WireCompatibility.DecodesForward | backend/codegen/generator.go:1144-1237 | baseline responses decode under the current decoder, at every depth |
| WireCompatibility.DecodesBackward | backend/codegen/generator.go:1144-1237 | current responses decode under the baseline decoder, at every depth |
| WireCompatibility.BindsSame | backend/framework/protocol.go:92-103 | both sides bind the same payloads |
| WireCompatibility.PresentSame | backend/framework/request_validation.go:51-111 | both sides demand the same members |
| WireCompatibility.PassesSame | backend/framework/validation.go:175-310 | the same values pass the rules, trimmed where asked and with the enum as a set |
| WireCompatibility.AcceptsSame | backend/framework/validation.go:373-405 | without a breaking request change exactly the same payloads are accepted |
| WireCompatibility.FieldsSelf | backend/codegen/compatibility.go:165-209 | a list of fields has no changes against itself |
| SchemaCompatibility.ReportMethod | backend/codegen/compatibility.go:121-147 | appends exactly the changes of one method |
| SchemaCompatibility.ReportMethods | backend/codegen/compatibility.go:53-78 | reports removed and compared methods, then added ones |
| SchemaCompatibility.CountBreaking | backend/codegen/compatibility.go:80-85 | counts the breaking changes |
| SchemaCompatibility.BreakingNone | backend/codegen/compatibility.go:80-85 | the count is zero exactly when no change is breaking |
| SchemaCompatibility.VerdictSound | backend/codegen/compatibility.go:37-147 | without a breaking change every baseline method has a current one with the same stream mode, the same accepted requests, and responses each side decodes |
| SchemaCompatibility.VerdictExact | backend/codegen/compatibility.go:37-147 | no change is breaking exactly when every baseline method lasts: same stream mode, same presence of params, same contracts of its fields; added methods and nullable response fields never break |
| SchemaCompatibility.SchemaReportedExactly | backend/codegen/compatibility.go:37-147 | the report holds exactly the differences between the two schemas |
| SchemaCompatibility.SelfUnchanged | backend/codegen/compatibility.go:37-80 | the methods of a schema have no changes against themselves |
| SchemaCompatibility.CompareSchemas | backend/codegen/compatibility.go:37-111 | fails exactly on invalid schemas; reports exactly the differences; a bump is required exactly when some baseline method does not last, and the status follows from that and the versions; compatible schemas keep the wire contract; a schema against itself is compatible |
| RateLimits.RefillIsProduct | backend/framework/rate_limiter.go:129-133 | the refill is the elapsed time times requests per window |
| RateLimits.WindowRefills | backend/framework/rate_limiter.go:161-167 | a whole window refills a whole bucket |
| RateLimits.NoRefillBackwards | backend/framework/rate_limiter.go:129-133 | a clock that goes back refills nothing |
| RateLimits.PruningKeepsLevels | backend/framework/rate_limiter.go:161-167 | pruning changes the tokens of no key, then or later |
| RateLimits.RequestLevels | backend/framework/rate_limiter.go:115-152 | a request costs its own key one token if it is admitted, and no other key anything |
| RateLimits.RequestKeepsInv | backend/framework/rate_limiter.go:115-152 | the table stays within its size and tokens within the limit |
| RateLimiters.RateOverInterval | backend/framework/rate_limiter.go:99-159 | in every run of the limiter, the answers that allow a key in an interval of length d are at most Requests * (Window + d) / Window |
| RateLimiters.AllowedIsAdmitted | backend/framework/rate_limiter.go:99-159 | the answers of a run allow exactly the requests that find a token and room |
| RateAnswers.NewKeyLasts | backend/framework/rate_limiter.go:120-127 | of the requests a new key makes at one moment exactly Requests are admitted |
| RateAnswers.AllowedAnswer | backend/framework/rate_limiter.go:140-148 | an answer that allows says how many more requests would be admitted at that moment, exactly |
| RateAnswers.DeniedAnswer | backend/framework/rate_limiter.go:149-159 | an answer that denies for want of tokens names the least wait after which the key is admitted |
| RateAnswers.RefusedAnswer | backend/framework/rate_limiter.go:116-120 | so does an answer that refuses for want of room |
| RateLimiters.PruningIsUnseen | backend/framework/rate_limiter.go:99-167 | in every run the answers are those of a limiter that never prunes, refusals at capacity aside |
| RateLimiters.PruningIsNeverSeen | backend/framework/rate_limiter.go:99-167 | so a new limiter answers every sequence of requests as one that never prunes |
| RateLimiters.WaitingIsEnough | backend/framework/rate_limiter.go:150-158 | a denied key that waits RetryAfter is admitted whatever other keys do, if RetryAfter is below the window |
| RateLimiters.WaitingIsNotEnough | backend/framework/rate_limiter.go:116-120 | if it is not below, other keys can fill the table first |
| RateLimiters.WaitingExact | backend/framework/rate_limiter.go:116-158 | a denied key that waits RetryAfter is admitted whatever other keys do if and only if RetryAfter is below the window |
| RateLimiters.WholeWindowDenial | backend/framework/rate_limiter.go:116-158 | a run from an empty table that ends in such a denial: two requests at one moment with one request per window |
| RateLimiters.RetryBelowWindow | backend/framework/rate_limiter.go:150-158 | with two requests or more per window, and a window of two nanoseconds or more, RetryAfter is below the window |
| RateAnswers.CapacityWait | backend/framework/rate_limiter.go:169-184 | a full table has no room for a new key until exactly the time its refusal names, undisturbed |
| RateLimiters.MemoryRateLimiter.Allow | backend/framework/rate_limiter.go:99-159 | allows exactly the requests that find a token and room; an answer that allows says how many more would be, and one that does not names the least wait; the new table, and the errors |
| RateLimiters.MemoryRateLimiter.PruneFullBuckets | backend/framework/rate_limiter.go:161-167 | removes exactly the buckets of a whole window's age |
| RateLimiters.MemoryRateLimiter.CapacityDecision | backend/framework/rate_limiter.go:169-184 | the earliest moment a bucket can be pruned, at most a window away |
| JobQueueSteps.NextHeld | backend/framework/jobs_delayed.go:62-178 | only a successful dispatch adds a job to the places jobs can be in, and no step loses or copies one |
| JobQueueSteps.NextKeepsSlots | backend/framework/jobs_delayed.go:76-87 | held slots are the jobs being submitted, buffered, in the heap or being promoted |
| JobQueueSteps.ScheduleNeverBlocks | backend/framework/jobs_delayed.go:84-86 | a dispatcher with a slot finds room in the channel |
| JobQueueSteps.NoSendAfterClose | backend/framework/jobs.go:534-542 | nothing is sent on the jobs channel after it is closed |
| JobQueueSteps.NextKeepsDrain | backend/framework/jobs_delayed.go:146-163 | the drain takes jobs off in the order of time, then arrival |
| JobQueueSteps.TopExists | backend/framework/jobs_delayed.go:184-189 | a heap that is not empty has a least element |
| JobQueueOrder.ReceivedInOrder | backend/framework/jobs_delayed.go:175-178 | in every run workers receive the jobs in the order in which they were sent |
| JobQueueOrder.FiresInOrder | backend/framework/jobs_delayed.go:107-144 | a job that a timer promotes is due, and of those that wait the one that asked for the earliest time and then arrived first |
| JobQueueOrder.DrainedInOrder | backend/framework/jobs_delayed.go:146-163 | the drain takes the delayed jobs off by the time they asked for and then by arrival |
| JobQueueSteps.DispatchGoesOn | backend/framework/jobs_delayed.go:62-87 | a dispatch that got in can be sent as soon as there is room, a delayed one with the time it asked for |
| JobQueueSteps.ShutdownBeforeStart | backend/framework/jobs.go:497-506 | a queue that was never started is shut down at once |
| JobQueueSteps.NextKeepsInv | backend/framework/jobs.go:289-542 | every step keeps conservation, slots, phases, workers and heap order |
| JobQueueSteps.HandedBeforeSignal | backend/framework/jobs.go:475-542 | when shutdown is signalled, every dispatch that returned nil was handed to a worker exactly once |
| JobQueueSteps.ShutdownConserves | backend/framework/jobs.go:289-542 | conservation, slots and the shutdown promise in every reachable state |
| JobQueueSteps.ShutdownProgress | backend/framework/jobs.go:475-542 | every step of any goroutine of a stopping queue brings the end closer |
| JobQueueSteps.ShutdownIsNotStuck | backend/framework/jobs.go:475-542 | until the signal some goroutine can take a step without waiting for a timer |
| JobQueueSteps.ShutdownEnds | backend/framework/jobs.go:475-542 | every run of a stopping queue is bounded, and nothing more can happen exactly when shutdown has been signalled |
| JobQueues.JobQueue.Start | backend/framework/jobs.go:361-393 | starts once; a running queue is left alone, a stopped one refuses |
| JobQueues.JobQueue.PrepareJobDispatch | backend/framework/jobs.go:309-359 | accepts exactly on a running queue with a handler, with the errors in order |
| JobQueues.JobQueue.Top | backend/framework/jobs_delayed.go:184-207 | the index of the earliest job |
| JobQueues.JobQueue.FireTimer | backend/framework/jobs_delayed.go:120-138 | takes off the earliest job when its time has come, and none before |
| JobQueues.JobQueue.DrainNext | backend/framework/jobs_delayed.go:146-163 | takes off the earliest job, or ends the drain |
| JobQueues.JobQueue.BeginShutdown | backend/framework/jobs.go:475-512 | only the first caller with a live context changes the phase; later ones wait |
| StreamFlows.CreditsNeverDropped | backend/framework/server.go:549-555 | the default branch that would drop credits is never taken |
| StreamFlows.NextKeepsCredits | backend/framework/server.go:525-556 | credits, unacknowledged numbers, a credit not yet recorded and credits being returned add up to the window |
| StreamFlows.NextKeepsSequence | backend/framework/stream.go:72-114 | the numbers on the wire are 1, 2, 3 and so on, and a complete frame is the last |
| StreamFlows.WindowHolds | backend/framework/server.go:91-107 | data and progress frames without an acknowledgement fit in the window |
| StreamFlows.FlowKeepsWindow | backend/framework/server.go:510-556 | all of it in every reachable state, with any number of concurrent acknowledgements |
| StreamFlows.WriterGoesOn | backend/framework/server.go:525-537 | a writer waits without a credit only while frames are not acknowledged or credits are on their way back |
| StreamFlows.CreditsArrive | backend/framework/server.go:539-556 | an acknowledgement is taken at any time and returns one credit for each number it newly covers, and each arrives |
| StreamFlows.WindowRoundTrip | backend/framework/server.go:558-569 | every window from 1 to 256 that is asked for in decimal is granted |
| StreamFlows.StreamFlow.Acquire | backend/framework/server.go:525-537 | takes one credit and records the highest number, or neither; consecutive numbers stay in the window |
| StreamFlows.StreamFlow.Acknowledge | backend/framework/server.go:539-556 | returns exactly the credits of the newly acknowledged numbers, none for old or unsent ones, and loses none of a flow in its window |
| StreamFlows.StreamWriter.EmitFrame | backend/framework/stream.go:72-114 | sends the next number for one credit, a complete frame for none, and nothing after an error or completion |
| SubscriptionBuffers.CursorRoundTrip | backend/framework/subscription_buffer.go:101-115 | a cursor reads back as its position, and no other text does |
| SubscriptionBuffers.WhoseCursor | backend/framework/subscription_buffer.go:101-115 | every text is malformed, a cursor of another epoch, or a position of this buffer, exactly as written |
| SubscriptionBuffers.CutOffExactly | backend/framework/subscription_buffer.go:120-127 | expired exactly when the next event was evicted, invalid exactly when the cursor is ahead |
| SubscriptionBuffers.ReaderSeesEveryEvent | backend/framework/subscription.go:42-74 | under any publishing, closing and eviction a reader sees every event after its cursor once and in order, and all of them when it reaches the end |
| SubscriptionBuffers.KeepingUp | backend/framework/subscription.go:42-74 | a reader no more than the capacity behind is not cut off |
| SubscriptionBuffers.SubscriptionBuffer.Publish | backend/framework/subscription_buffer.go:65-91 | keeps the last values, numbered without a gap, and gives the new cursor |
| SubscriptionBuffers.SubscriptionBuffer.NextAfter | backend/framework/subscription_buffer.go:116-141 | the answer the whole published history gives |
| SubscriptionBuffers.SubscriptionBuffer.Next | backend/framework/subscription_buffer.go:101-150 | gives the event after the cursor; invalid exactly for a malformed cursor or one ahead of the buffer, expired exactly for one of another epoch or one whose next event was evicted; ends or waits only behind the last event |
| SubscriptionBuffers.ReadNext | backend/framework/subscription.go:46-70 | what one read gives a reader that has seen the events from its start on |
| SubscriptionBuffers.ProduceSubscription | backend/framework/subscription.go:31-76 | while others publish, evict and close between the reads: every event after the cursor once and in order, heartbeats that repeat the last cursor, and an ending for its reason only, the context or a failed send included |
| FileTransferSteps.NextKeepsFiles | backend/framework/file_transfer.go:262-438 | an idle entry's file holds the accepted bytes; a busy one's holds them with what its only append has copied |
| FileTransferSteps.NextKeepsInv | backend/framework/file_transfer.go:131-743 | every step keeps files, downloads, removals and consumption sound |
| FileTransferSteps.TransfersAreSound | backend/framework/file_transfer.go:131-438 | in every reachable state an idle upload is exactly its accepted bytes, a complete one has its size and checksum, and nothing was given away twice |
| FileTransferSteps.IdleIsIntact | backend/framework/file_transfer.go:363-438 | an idle or complete entry has its accepted bytes in its file, with the declared size and checksum once complete |
| FileTransferSteps.RemovedStaysAway | backend/framework/file_transfer.go:692-743 | a removed entry is never brought back by anything in flight |
| FileTransferFlows.StartedAppend | backend/framework/file_transfer.go:363-388 | nothing else can begin on an upload that is being appended to |
| FileTransferFlows.ReleasedAppend | backend/framework/file_transfer.go:718-743 | an upload that is let go can be appended to at exactly the offset behind its bytes until it expires, or is complete and can be taken |
| FileTransferFlows.OverlongAppend | backend/framework/file_transfer.go:399-412 | one byte too many can be copied, no more, and then the upload is refused |
| FileTransferFlows.FailedOpen | backend/framework/file_transfer.go:388-410 | an append whose file could not be opened changes nothing but the time |
| FileTransferFlows.StagedDownload | backend/framework/file_transfer.go:131-206 | a staged file can be downloaded from every offset until it expires, and not appended to |
| FileTransferFlows.OpenedDownload | backend/framework/file_transfer.go:505-567 | nothing else can begin on a transfer that is being downloaded |
| FileTransferFlows.FinishedDownload | backend/framework/file_transfer.go:662-716 | a download that is closed can be opened again; one that is committed is gone |
| FileTransferFlows.Taken | backend/framework/file_transfer.go:208-260 | a transfer taken in time gives its file away; too late, the file is removed |
| FileTransferFlows.ClosedBeginsNothing | backend/framework/file_transfer.go:569-599 | nothing begins after Close |
| FileTransferSteps.NextKeepsAccounted | backend/framework/file_transfer.go:131-743 | every file with a name belongs to an entry or was given away |
| FileTransferSteps.CloseProgress | backend/framework/file_transfer.go:569-599 | every step of a closed store changes nothing or brings the end closer |
| FileTransferSteps.CloseEnds | backend/framework/file_transfer.go:569-599 | a closed store changes a bounded number of times, and nothing can change any more exactly when every operation has ended and no entry is left, nor any file but those given away |
| FileTransferStores.FileTransferStore.BeginUpload | backend/framework/file_transfer.go:262-318 | refuses bad sizes and a wrong checksum of nothing, in order |
| FileTransferStores.FileTransferStore.StartAppend | backend/framework/file_transfer.go:363-388 | claims the entry exactly at its offset, and answers every other case as the source does |
| FileTransferStores.FileTransferStore.EndCopy | backend/framework/file_transfer.go:409-431 | keeps the copied bytes unless they are too many, not stored, or complete with another checksum |
| FileTransferStores.FileTransferStore.ReleaseUpload | backend/framework/file_transfer.go:718-743 | a kept entry is idle and its file is exactly the accepted bytes with what the append copied; a removed one is not brought back |
| FileTransferStores.FileTransferStore.UploadStatus | backend/framework/file_transfer.go:320-347 | reports a live upload; an expired one is removed even while busy |
| FileTransferStores.FileTransferStore.TakeTransfer | backend/framework/file_transfer.go:208-260 | gives away a complete idle transfer, whose bytes have the declared size and checksum |
| FileTransferStores.FileTransferStore.OpenDownload | backend/framework/file_transfer.go:505-567 | claims a staged transfer for one download at a time |
| FileTransferStores.FileTransferStore.FinishDownload | backend/framework/file_transfer.go:692-716 | gives the transfer away once and for good, or leaves it intact and idle; a removed one is not brought back |
| FileTransferStores.FileTransferStore.PruneExpired | backend/framework/file_transfer.go:630-644 | removes exactly the expired entries that nothing works on |
| ResourceBrokerSteps.NextKeepsCount | backend/framework/resource_broker.go:257-276 | the table and the grants not yet in it stay within the limit, although pending counts some twice |
| ResourceBrokerSteps.NextKeepsPlaces | backend/framework/resource_broker.go:128-276 | every resolved lease is in exactly one place: a grant, the table, a release, close, or released |
| ResourceBrokerSteps.LeasesAreAccounted | backend/framework/resource_broker.go:128-276 | both, and no lease released twice, in every reachable state |
| ResourceBrokerSteps.ClosedReleasedAll | backend/framework/resource_broker.go:216-255 | when Close has finished every lease ever resolved was released exactly once |
| ResourceBrokerSteps.CloseProgress | backend/framework/resource_broker.go:216-255 | every step of a closed broker, of a grant, a release or Close, brings the end closer |
| ResourceBrokerSteps.CloseIsNotStuck | backend/framework/resource_broker.go:216-255 | until Close has finished something can go on |
| ResourceBrokerSteps.CloseEnds | backend/framework/resource_broker.go:216-255 | every run of a closed broker is bounded, and nothing more can happen exactly when Close has finished |
| ResourceBrokerSteps.NativeLeasesBound | backend/framework/resource_broker.go:188-213 | in every reachable state, closing included, leases open on the native side are at most the limit plus the releases in progress |
| ResourceBrokerSteps.NativeLeasesReached | backend/framework/resource_broker.go:188-213 | for every limit and every number of releases in progress a run reaches exactly that many open leases |
| ResourceBrokers.ResourceBroker.BeginGrant | backend/framework/resource_broker.go:128-142 | the checks in order, and the place a grant takes |
| ResourceBrokers.ResourceBroker.InsertLease | backend/framework/resource_broker.go:161-168 | the lease enters the table unless the broker closed meanwhile |
| ResourceBrokers.ResourceBroker.BeginRelease | backend/framework/resource_broker.go:188-213 | takes the lease out of the table, or answers as the source does |
| ResourceBrokers.ResourceBroker.ReleaseTaken | backend/framework/resource_broker.go:245-254 | Close releases each lease it took, once |
| DynamicTasks.NextKeepsInv | backend/framework/scheduler_dynamic.go:79-168 | every step keeps the copied interval current, or a wake-up waiting, and accepted triggers on their way |
| DynamicTasks.WaitingMissesNothing | backend/framework/scheduler_dynamic.go:142-152 | waiting with an empty channel means no trigger pending and the current interval |
| DynamicTasks.TriggerProgress | backend/framework/scheduler_dynamic.go:134-167 | while a trigger is owed each step of the runner starts the invocation or comes closer |
| DynamicTasks.TriggerIsNotStuck | backend/framework/scheduler_dynamic.go:142-152 | and the runner can always take such a step without the timer |
| DynamicTasks.TriggerIsServed | backend/framework/scheduler_dynamic.go:96-108 | an invocation starts within as many steps of the runner as its distance |
| DynamicTasks.NoTriggerIsLost | backend/framework/scheduler_dynamic.go:96-168 | in every run an accepted trigger is followed by a new invocation, unless the task is stopped |
| DynamicTasks.TriggersCoalesce | backend/framework/scheduler_dynamic.go:94-108 | a second trigger right after the first changes nothing |
| DynamicTasks.OneMoreInvocation | backend/framework/scheduler_dynamic.go:134-167 | in every run after an invocation started: another starts within six runner steps if a trigger came after the flag was cleared, and otherwise none without a trigger or a tick |
| DynamicTasks.TwoTriggersTwoInvocations | backend/framework/scheduler_dynamic.go:94-96 | a run where two triggers before an invocation lead to two |
| DynamicTasks.TimerInvocationIsCurrent | backend/framework/scheduler_dynamic.go:152-163 | without a trigger, an invocation follows the timer exactly when the interval that was waited for is current; otherwise the runner waits for the new one |
| DynamicTasks.ScheduledTask.SetInterval | backend/framework/scheduler_dynamic.go:79-92 | stores the interval, counts the revision and leaves a wake-up |
| DynamicTasks.ScheduledTask.TriggerNow | backend/framework/scheduler_dynamic.go:96-108 | sets the flag and leaves a wake-up |
| RedisJobStores.ReachableIsLinked | backend/framework/redis_job_store.go:59-239 | from empty structures every sequence of calls keeps the agreement with a reachable protocol state, and a job has at most one unexpired lease |
| ReadyMembers.ZeroIsNotExact | backend/framework/redis_job_store.go:694-704 | the zero time cannot be stored as an exact score |
| RateLimiters.DeniedIsJustDenied | backend/framework/rate_limiter.go:150-158 | a denial leaves the key with less than one token at that moment |
| FileJobStores.FileJobStore.Lease | backend/framework/file_job_store.go:219-240 | logs and stores the lease of a chosen job, or changes nothing |
| FileJobStores.FileJobStore.Close | backend/framework/file_job_store.go:456-470 | only closes |
| SqlJobStores.SqlJobStore.Enqueue | backend/framework/sql_job_store.go:108-156 | inserts exactly a valid job whose id is free at the check and at the insert; a lost race answers conflict, or a failure when the other row is gone again |
| JobQueues.JobQueue.SignalShutdown | backend/framework/jobs.go:537-541 | once every worker has left, the accepted jobs are exactly those handed out |
| SubscriptionBuffers.SubscriptionBuffer.CurrentCursor | backend/framework/subscription_buffer.go:95-99 | the cursor of the last published value |
| SubscriptionBuffers.SubscriptionBuffer.Close | backend/framework/subscription_buffer.go:152-159 | only closes; what is retained stays |
| ResourceBrokers.ResourceBroker.EndRelease | backend/framework/resource_broker.go:208-213 | calls the native release of a lease that was never released before |
| ResourceBrokers.ResourceBroker.BeginClose | backend/framework/resource_broker.go:216-231 | only the first caller closes |

## Left out

- RateLimiters.MemoryRateLimiter.Allow: counts the key limit in characters and trims ASCII space, where the source counts bytes and trims Unicode space; keys are texts of ASCII characters here.
- SchemaValidation.Validate: takes the clashes among generated constants, field names and members as one given check; error messages and their order are not modelled.
- SubscriptionBuffers.ProduceSubscription: a read that is woken is a read that waited followed by one that did not; the epoch is short enough for cursors within the limit, as the random one is.
- FileJobStores.FileJobStore.Append: an append that fails while the process keeps running. What that does to the log and the next start is in `FileJobFaults`, on values.
- CronParse.ParseField: takes ASCII letters only, where the source upper-cases Unicode letters; error texts are not modelled.
- CronParse.ParseCronExpression: splits at ASCII white space only; error texts are not modelled.
- CronSearch.Next: daylight-saving changes and zone offsets below a minute (one fixed whole-minute offset).
- JSON text, escapes and compaction are functions of the model with the facts the log needs.
- RedisJobStores.RedisJobStore.Reserve: the decoding of a granted reply, which succeeds on jobs that were enqueued under the same options; attempt counts beyond what a Lua number holds exactly; the server itself, on which a script is one step.
- SQL: the dialects, and a failed connection; a statement is one step. Between the statements other workers take any steps the protocol allows.
- FailedJobs of the three stores, which only lists.
- PersistentWorkers: the poll timer and wake channel of the worker loop.
- RateLimits: floating-point rounding (tokens are reals), and a clock read outside the lock that goes backwards.
- JobQueues: attempts and reports of a handler, and the algorithm of container/heap, whose Pop is taken to give the least element. The methods that are single channel operations state their step and what it keeps, and have no row of their own.
- StreamFlows: concurrent senders of one stream, which the writer's lock puts one after the other.
- FileTransferSteps: files are byte strings under their names; ImportUpload and ConsumeUpload, which call the modelled operations, and limits on open files.
- ResourceBrokerSteps: the form of capabilities and their message authentication code.
- FieldComparison.ReportField: the text of a change; its code, path and verdict are modelled.
- FieldComparison.ReportFields: the text of a change.
- SchemaCompatibility.ReportMethod: the text of a change.
- SchemaCompatibility.ReportMethods: the text of a change.
- WireCompatibility.BindsSame: member names that differ in case only, which the request decoder also takes.
- PersistentExecution.ExecutePersistent: works on the file store; reports of failures to the observer.
- WireFormat: the leaves (date parsing, file references, trimming) are given functions, and integers beyond 64 bits in responses.
- HTTP handlers, observability, the sidecar process, native code, the command line, text rendering in the generator, the scheduler stores, and the rest of the framework: input and output, or smaller copies of what is here.
